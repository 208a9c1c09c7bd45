/**
 * The age-rating badge of components/Card/AgeRating.tsx: which certification
 * is shown for a movie or a series, and the audience bucket, colour and
 * badge shape chosen for it. The certification data come from a request
 * that is outside the model; they are a parameter here.
 */
module AgeRating {
  import opened Wrappers
  import opened JsBuiltins

  /** The `type` prop. */
  datatype MediaKind = Movie | Tv

  /** One element of a movie entry's `release_dates`. */
  datatype ReleaseDate = ReleaseDate(certification: string)

  /** One element of `results`: a country code and, by media kind, release dates or a rating. */
  datatype RatingEntry = RatingEntry(country: string, releaseDates: Option<seq<ReleaseDate>>, rating: Option<string>)

  const NotRated := "NR"
  const France := "FR"

  /**
   * The certification the code reads from an entry, '' when it is absent:
   * `release_dates?.[0]?.certification` for a movie, `rating` for a series.
   */
  function Certification(kind: MediaKind, e: RatingEntry): string {
    match kind
    case Movie =>
      if e.releaseDates.Some? && |e.releaseDates.value| > 0 then e.releaseDates.value[0].certification else ""
    case Tv => e.rating.GetOr("")
  }

  /** `results.find(r => r.iso_3166_1 === 'FR')` */
  function FindFrench(results: seq<RatingEntry>): (found: Option<nat>)
    ensures found.None? ==> forall i | 0 <= i < |results| :: results[i].country != France
    ensures found.Some? ==>
      && found.value < |results| && results[found.value].country == France
      && forall j | 0 <= j < found.value :: results[j].country != France
  {
    if results == [] then None
    else if results[0].country == France then Some(0)
    else
      match FindFrench(results[1..])
      case None => None
      case Some(k) => Some(k + 1)
  }

  /** `results.find(...)` for the first entry with a truthy certification of the kind. */
  function FindCertified(kind: MediaKind, results: seq<RatingEntry>): (found: Option<nat>)
    ensures found.None? ==> forall i | 0 <= i < |results| :: Certification(kind, results[i]) == ""
    ensures found.Some? ==>
      && found.value < |results| && Certification(kind, results[found.value]) != ""
      && forall j | 0 <= j < found.value :: Certification(kind, results[j]) == ""
  {
    if results == [] then None
    else if Certification(kind, results[0]) != "" then Some(0)
    else
      match FindCertified(kind, results[1..])
      case None => None
      case Some(k) => Some(k + 1)
  }

  /**
   * `getRating`. `results` is `releaseData?.results`: `None` while nothing
   * has been received.
   */
  function GetRating(kind: MediaKind, results: Option<seq<RatingEntry>>): (rating: string)
    ensures rating != ""
  {
    if results.None? || |results.value| == 0 then NotRated
    else
      var entries := results.value;
      var french := FindFrench(entries);
      if french.Some? && Certification(kind, entries[french.value]) != "" then
        Certification(kind, entries[french.value])
      else
        var first := FindCertified(kind, entries);
        if first.Some? then Certification(kind, entries[first.value]) else NotRated
  }

  /** No results, or an empty list, give 'NR'. */
  lemma NoResultsNotRated(kind: MediaKind, results: Option<seq<RatingEntry>>)
    requires results.None? || results.value == []
    ensures GetRating(kind, results) == NotRated
  {
  }

  /** When the first French entry carries a certification, that one is shown. */
  lemma FrenchPreferred(kind: MediaKind, entries: seq<RatingEntry>, i: nat)
    requires i < |entries| && entries[i].country == France
    requires forall j | 0 <= j < i :: entries[j].country != France
    requires Certification(kind, entries[i]) != ""
    ensures GetRating(kind, Some(entries)) == Certification(kind, entries[i])
  {
    var french := FindFrench(entries);
    assert french == Some(i);
  }

  /**
   * Otherwise the first certified entry in list order is shown, and 'NR'
   * when no entry carries one.
   */
  lemma FirstCertifiedFallback(kind: MediaKind, entries: seq<RatingEntry>)
    requires forall i | 0 <= i < |entries| && entries[i].country == France ::
      Certification(kind, entries[i]) == "" || exists j | 0 <= j < i :: entries[j].country == France
    ensures (forall i | 0 <= i < |entries| :: Certification(kind, entries[i]) == "") ==>
      GetRating(kind, Some(entries)) == NotRated
    ensures forall i | 0 <= i < |entries| && Certification(kind, entries[i]) != "" &&
      (forall j | 0 <= j < i :: Certification(kind, entries[j]) == "") ::
      GetRating(kind, Some(entries)) == Certification(kind, entries[i])
  {
    var french := FindFrench(entries);
    if french.Some? {
      var k := french.value;
      assert Certification(kind, entries[k]) == "";
    }
    var first := FindCertified(kind, entries);
    forall i | 0 <= i < |entries| && Certification(kind, entries[i]) != "" &&
      (forall j | 0 <= j < i :: Certification(kind, entries[j]) == "")
      ensures first == Some(i)
    {
    }
  }

  /** Whatever is shown is 'NR' or the certification of one of the entries. */
  lemma RatingComesFromEntries(kind: MediaKind, results: Option<seq<RatingEntry>>)
    ensures GetRating(kind, results) == NotRated
      || (results.Some? && exists i | 0 <= i < |results.value| :: GetRating(kind, results) == Certification(kind, results.value[i]))
  {
  }

  /** `{ label, colorClass }` */
  datatype RatingInfo = RatingInfo(labelText: Option<string>, colorClass: string)

  const TousPublics := "Tous publics"
  const TousPublicsCodes := {"U", "G", "TV-G", "NR", "10", "ALL"}
  const Under12Codes := {"12", "PG", "PG-12", "TV-PG"}
  const Under16Codes := {"14", "16", "TV-14", "R"}
  const Under18Codes := {"18", "NC-17", "TV-MA", "X"}

  /** `getRatingInfo`: a switch on the upper-cased certification. */
  function GetRatingInfo(rating: string): (info: RatingInfo)
    ensures info.labelText.None? <==> info.colorClass == ""
  {
    var code := ToUpper(rating);
    if code in TousPublicsCodes then
      RatingInfo(Some(TousPublics), "bg-emerald-400/10 text-emerald-400")
    else if code in Under12Codes then
      RatingInfo(Some("-12"), "bg-amber-400/10 text-amber-400")
    else if code in Under16Codes then
      RatingInfo(Some("-16"), "bg-orange-400/10 text-orange-400")
    else if code in Under18Codes then
      RatingInfo(Some("-18"), "bg-rose-400/10 text-rose-400")
    else
      RatingInfo(None, "")
  }

  /**
   * The audience buckets, by upper-cased code: the four code groups of the
   * switch are disjoint, so each label is given exactly for its own group,
   * and every other code has no label.
   */
  lemma RatingBuckets(rating: string)
    ensures GetRatingInfo(rating).labelText == Some(TousPublics) <==> ToUpper(rating) in TousPublicsCodes
    ensures GetRatingInfo(rating).labelText == Some("-12") <==> ToUpper(rating) in Under12Codes
    ensures GetRatingInfo(rating).labelText == Some("-16") <==> ToUpper(rating) in Under16Codes
    ensures GetRatingInfo(rating).labelText == Some("-18") <==> ToUpper(rating) in Under18Codes
    ensures GetRatingInfo(rating).labelText.None? <==>
      ToUpper(rating) !in TousPublicsCodes + Under12Codes + Under16Codes + Under18Codes
  {
    CodeGroupsDisjoint();
    LabelsDistinct();
  }

  /** No code belongs to two groups of the switch. */
  lemma CodeGroupsDisjoint()
    ensures TousPublicsCodes !! Under12Codes && TousPublicsCodes !! Under16Codes && TousPublicsCodes !! Under18Codes
    ensures Under12Codes !! Under16Codes && Under12Codes !! Under18Codes && Under16Codes !! Under18Codes
  {
  }

  /** The four labels differ. */
  lemma LabelsDistinct()
    ensures TousPublics != "-12" && TousPublics != "-16" && TousPublics != "-18"
    ensures "-12" != "-16" && "-12" != "-18" && "-16" != "-18"
  {
  }

  /** The bucket depends only on the upper-cased certification. */
  lemma RatingInfoCaseInsensitive(a: string, b: string)
    ensures GetRatingInfo(ToUpper(a)) == GetRatingInfo(a)
    ensures ToUpper(a) == ToUpper(b) ==> GetRatingInfo(a) == GetRatingInfo(b)
  {
    ToUpperIdempotent(a);
  }

  /** A lower-case code lands in the same bucket: 'tv-ma' is '-18'. */
  lemma LowerCaseCode()
    ensures GetRatingInfo("tv-ma").labelText == Some("-18")
  {
    assert ToUpper("tv-ma") == "TV-MA";
  }

  /** `isTousPublics` */
  predicate IsTousPublics(info: RatingInfo) {
    info.labelText == Some(TousPublics)
  }

  /** The size classes of the badge: wide for 'Tous publics', round otherwise. */
  function BadgeShape(info: RatingInfo): (classes: string)
    ensures classes == "px-3 h-8" <==> IsTousPublics(info)
    ensures classes == "w-10 h-10" <==> !IsTousPublics(info)
  {
    if IsTousPublics(info) then "px-3 h-8" else "w-10 h-10"
  }

  /** The badge is wide exactly for the codes of the 'Tous publics' group, in any letter case. */
  lemma BadgeShapeByCode(rating: string)
    ensures BadgeShape(GetRatingInfo(rating)) == "px-3 h-8" <==> ToUpper(rating) in TousPublicsCodes
    ensures BadgeShape(GetRatingInfo(rating)) == "w-10 h-10" <==> ToUpper(rating) !in TousPublicsCodes
  {
    RatingBuckets(rating);
  }

  /** When no certification is found, the badge reads 'Tous publics' in the wide shape. */
  lemma NotRatedBadge(kind: MediaKind, results: Option<seq<RatingEntry>>)
    requires GetRating(kind, results) == NotRated
    ensures IsTousPublics(GetRatingInfo(GetRating(kind, results)))
    ensures BadgeShape(GetRatingInfo(GetRating(kind, results))) == "px-3 h-8"
  {
    assert ToUpper(NotRated) == NotRated;
  }
}
