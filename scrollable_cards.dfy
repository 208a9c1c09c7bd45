/**
 * The horizontally scrolling card row of components/ScrollableCards.tsx:
 * which items are shown, and, per media type, the image, name, detail link
 * and placeholder icon of a card.
 */
module ScrollableCards {
  import opened Wrappers
  import opened JsBuiltins
  import Search

  /** The `type` prop. */
  datatype CardType = MovieCards | TvCards | PersonCards

  /** The fields of an item the row reads; a missing or null field is `None`. */
  datatype BaseCard = BaseCard(
    id: int,
    name: Option<string>,
    title: Option<string>,
    profilePath: Option<string>,
    posterPath: Option<string>)

  /** The default of the `limit` prop. */
  const DefaultLimit := 15

  /**
   * `items.slice(0, limit)` with `limit = 15` when the prop is left out;
   * `limit` is `None` when it is.
   */
  function ShownItems(items: seq<BaseCard>, limit: Option<int>): (shown: seq<BaseCard>)
    ensures shown <= items
    ensures limit.None? ==> |shown| == if |items| < DefaultLimit then |items| else DefaultLimit
    ensures limit.Some? && limit.value >= 0 ==> |shown| == if |items| < limit.value then |items| else limit.value
    ensures limit.Some? && limit.value < 0 ==> |shown| == if |items| + limit.value < 0 then 0 else |items| + limit.value
  {
    SliceTo(items, limit.GetOr(DefaultLimit))
  }

  /** `getImagePath`: people show their profile picture, movies and series their poster. */
  function ImagePath(kind: CardType, item: BaseCard): (path: Option<string>)
    ensures kind == PersonCards ==> path == item.profilePath
    ensures kind != PersonCards ==> path == item.posterPath
  {
    if kind == PersonCards then item.profilePath else item.posterPath
  }

  /** `getName`: movies are named by their title, series and people by their name. */
  function Name(kind: CardType, item: BaseCard): (name: Option<string>)
    ensures kind == MovieCards ==> name == item.title
    ensures kind != MovieCards ==> name == item.name
  {
    if kind == MovieCards then item.title else item.name
  }

  /** The suggestion the search bar would show for the item a card of `kind` displays. */
  function AsSuggestion(kind: CardType, item: BaseCard): Search.SearchResult {
    Search.SearchResult(item.id, item.name, item.title, MediaTypeName(kind))
  }

  /**
   * A card is named like the search suggestion of the same item whenever the
   * field it reads is truthy, except for a series or a person that also
   * carries a different truthy title: the suggestion prefers the title.
   */
  lemma NameAgreesWithSuggestion(kind: CardType, item: BaseCard)
    ensures Search.Truthy(Name(kind, item)) && (kind == MovieCards || !Search.Truthy(item.title)) ==>
      Name(kind, item).value == Search.SuggestionTitle(AsSuggestion(kind, item))
    ensures kind != MovieCards && Search.Truthy(item.title) && Search.Truthy(item.name) && item.title != item.name ==>
      Name(kind, item).value != Search.SuggestionTitle(AsSuggestion(kind, item))
  {
  }

  /** The segment of the detail page of each type. */
  function LinkPrefix(kind: CardType): string {
    match kind
    case MovieCards => "/movie/"
    case TvCards => "/serie/"
    case PersonCards => "/artist/"
  }

  /** `getLink(id)` */
  function Link(kind: CardType, id: int): string {
    LinkPrefix(kind) + Decimal(id)
  }

  /** Distinct cards of the row, or of different rows, link to distinct pages. */
  lemma LinkInjective(k1: CardType, a: int, k2: CardType, b: int)
    ensures Link(k1, a) == Link(k2, b) ==> k1 == k2 && a == b
  {
    var p, q := LinkPrefix(k1), LinkPrefix(k2);
    if Link(k1, a) == Link(k2, b) {
      assert p[1] == Link(k1, a)[1] == Link(k2, b)[1] == q[1];
      assert k1 == k2;
      PrefixedDecimalInjective(p, q, a, b);
    }
  }

  /** The media type string of the search API for a card type. */
  function MediaTypeName(kind: CardType): string {
    match kind
    case MovieCards => "movie"
    case TvCards => "tv"
    case PersonCards => "person"
  }

  /** A card links to the same page as a search suggestion of the same type and id. */
  lemma LinkAgreesWithSearch(kind: CardType, id: int, name: Option<string>, title: Option<string>)
    ensures Link(kind, id) == Search.DetailRoute(Search.SearchResult(id, name, title, MediaTypeName(kind)))
  {
    var base := Search.BaseUrl(MediaTypeName(kind));
    assert LinkPrefix(kind) == base + "/";
  }

  /** `getPlaceholderIcon` */
  function PlaceholderIcon(kind: CardType): string {
    match kind
    case MovieCards => "🎬"
    case TvCards => "📺"
    case PersonCards => "👤"
  }

  /** Each type has an icon of its own. */
  lemma PlaceholderIconsDistinct(k1: CardType, k2: CardType)
    ensures PlaceholderIcon(k1) == PlaceholderIcon(k2) <==> k1 == k2
    ensures PlaceholderIcon(k1) != ""
  {
  }

  /** The picture of a card: the image at `w500` when a path is set, the placeholder otherwise. */
  datatype Picture = Image(src: string) | Placeholder(icon: string)

  function CardPicture(kind: CardType, item: BaseCard): (picture: Picture)
    ensures picture.Placeholder? <==> ImagePath(kind, item).None? || ImagePath(kind, item).value == ""
    ensures picture.Placeholder? ==> picture.icon == PlaceholderIcon(kind)
    ensures picture.Image? ==> picture.src == "https://image.tmdb.org/t/p/w500" + ImagePath(kind, item).value
  {
    var path := ImagePath(kind, item);
    if path.Some? && path.value != "" then Image("https://image.tmdb.org/t/p/w500" + path.value)
    else Placeholder(PlaceholderIcon(kind))
  }

  /**
   * A card shows its placeholder exactly when the path of its type is
   * falsy, by the same truthiness as the search bar's. The picture reads
   * only the field of its type: a person card never looks at the poster, a
   * movie or series card never at the profile picture, and two cards with
   * truthy paths show the same image exactly when the paths are equal.
   */
  lemma PictureReadsOwnField(kind: CardType, a: BaseCard, b: BaseCard)
    ensures CardPicture(kind, a).Placeholder? <==> !Search.Truthy(ImagePath(kind, a))
    ensures kind == PersonCards && a.profilePath == b.profilePath ==> CardPicture(kind, a) == CardPicture(kind, b)
    ensures kind != PersonCards && a.posterPath == b.posterPath ==> CardPicture(kind, a) == CardPicture(kind, b)
    ensures Search.Truthy(ImagePath(kind, a)) && Search.Truthy(ImagePath(kind, b)) ==>
      (CardPicture(kind, a) == CardPicture(kind, b) <==> ImagePath(kind, a) == ImagePath(kind, b))
  {
    var p, q := ImagePath(kind, a), ImagePath(kind, b);
    if Search.Truthy(p) && Search.Truthy(q) && CardPicture(kind, a) == CardPicture(kind, b) {
      var prefix := "https://image.tmdb.org/t/p/w500";
      assert p.value == (prefix + p.value)[|prefix|..];
      assert q.value == (prefix + q.value)[|prefix|..];
    }
  }
}
