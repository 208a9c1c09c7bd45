/**
 * The page metadata of components/SeoMetadata.tsx: the description cut
 * for search engines and the page title with the site name.
 */
module SeoMetadata {
  import opened Wrappers

  const DescriptionLimit := 155
  const Ellipsis := "..."
  const SiteSuffix := " | CinéVerse"

  /** `s` ends with `suffix`. */
  predicate EndsWith(s: string, suffix: string) {
    |suffix| <= |s| && s[|s| - |suffix|..] == suffix
  }

  /**
   * `description?.slice(0, 155) + '...'`. A missing description makes the
   * left operand `undefined`, which concatenates as the text "undefined".
   */
  function FormattedDescription(description: Option<string>): (formatted: string)
    ensures EndsWith(formatted, Ellipsis)
    ensures |formatted| <= DescriptionLimit + |Ellipsis|
    ensures description.Some? ==> formatted[..|formatted| - |Ellipsis|] <= description.value
    ensures description.Some? && |description.value| <= DescriptionLimit ==> formatted == description.value + Ellipsis
    ensures description.Some? && |description.value| > DescriptionLimit ==> |formatted| == DescriptionLimit + |Ellipsis|
    ensures description.None? ==> formatted == "undefined..."
  {
    match description
    case None => "undefined" + Ellipsis
    case Some(d) =>
      var kept := if |d| <= DescriptionLimit then d else d[..DescriptionLimit];
      assert (kept + Ellipsis)[..|kept|] == kept;
      kept + Ellipsis
  }

  /** `${title} | CinéVerse`, as written. */
  function FullTitle(title: string): (full: string)
    ensures EndsWith(full, SiteSuffix)
    ensures |full| == |title| + |SiteSuffix| && full[..|title|] == title
  {
    assert (title + SiteSuffix)[..|title|] == title;
    title + SiteSuffix
  }

  /**
   * A title that already ends with the site name gets it a second time.
   */
  lemma DoubleSuffix(title: string)
    ensures EndsWith(FullTitle(title + SiteSuffix), SiteSuffix + SiteSuffix)
    ensures FullTitle(title + SiteSuffix) != FullTitle(title)
  {
    assert FullTitle(title + SiteSuffix) == title + (SiteSuffix + SiteSuffix);
  }

  /**
   * The catalogue pages pass titles that already carry the site name
   * ("Films | CinéVerse"), and the page title then names the site twice.
   */
  lemma DoubleSuffixExample()
    ensures FullTitle("Films" + SiteSuffix) == "Films" + SiteSuffix + SiteSuffix
    ensures FullTitle("Films" + SiteSuffix) != IntendedFullTitle("Films" + SiteSuffix)
  {
    DoubleSuffix("Films");
    SuffixEndsWith("Films");
  }

  /** The title evidently meant: the site name is added only when it is not already there. */
  function IntendedFullTitle(title: string): (full: string)
    ensures EndsWith(full, SiteSuffix)
    ensures EndsWith(title, SiteSuffix) ==> full == title
    ensures !EndsWith(title, SiteSuffix) ==> full == FullTitle(title)
  {
    if EndsWith(title, SiteSuffix) then title else FullTitle(title)
  }

  lemma SuffixEndsWith(title: string)
    ensures EndsWith(title + SiteSuffix, SiteSuffix)
  {
    assert (title + SiteSuffix)[|title|..] == SiteSuffix;
  }

  /** Applying the intended title twice changes nothing. */
  lemma IntendedFullTitleIdempotent(title: string)
    ensures IntendedFullTitle(IntendedFullTitle(title)) == IntendedFullTitle(title)
  {
  }

  /** With the intended title, a page may pass its title with or without the site name. */
  lemma IntendedSuffixOptional(title: string)
    requires !EndsWith(title, SiteSuffix)
    ensures IntendedFullTitle(title + SiteSuffix) == IntendedFullTitle(title)
  {
    SuffixEndsWith(title);
  }
}
