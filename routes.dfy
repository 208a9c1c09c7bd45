/**
 * The application's route table, lib/routes.ts: fixed pages and the
 * detail pages of an artist, a movie and a series, all under /cineverse.
 */
module Routes {
  import opened JsBuiltins

  const Base := "/cineverse"

  const Home := "/cineverse"
  const MoviesPage := "/cineverse/movies"
  const SeriesPage := "/cineverse/series"
  const AuthPage := "/cineverse/auth"
  const ProfilePage := "/cineverse/profile"

  /** The detail pages a builder can produce. */
  datatype Detail = Artist | Movie | Serie

  function DetailPrefix(detail: Detail): string {
    match detail
    case Artist => "/cineverse/artist/"
    case Movie => "/cineverse/movie/"
    case Serie => "/cineverse/serie/"
  }

  /** `routes.artist(id)`, `routes.movie(id)`, `routes.serie(id)` */
  function DetailRoute(detail: Detail, id: int): string {
    DetailPrefix(detail) + Decimal(id)
  }

  function Constants(): seq<string> {
    [Home, MoviesPage, SeriesPage, AuthPage, ProfilePage]
  }

  /** Every route, fixed or built, lies under /cineverse. */
  lemma AllUnderBase(detail: Detail, id: int)
    ensures forall i | 0 <= i < |Constants()| :: Base <= Constants()[i]
    ensures Base <= DetailRoute(detail, id)
  {
    var r := DetailRoute(detail, id);
    assert r[..|Base|] == DetailPrefix(detail)[..|Base|];
  }

  /**
   * A built route names its page and its id: distinct ids give distinct
   * paths, and two builders never produce the same path.
   */
  lemma DetailRouteInjective(d1: Detail, a: int, d2: Detail, b: int)
    ensures DetailRoute(d1, a) == DetailRoute(d2, b) ==> d1 == d2 && a == b
  {
    var p, q := DetailPrefix(d1), DetailPrefix(d2);
    if DetailRoute(d1, a) == DetailRoute(d2, b) {
      assert p[11] == DetailRoute(d1, a)[11] == DetailRoute(d2, b)[11] == q[11];
      assert d1 == d2;
      PrefixedDecimalInjective(p, q, a, b);
    }
  }

  /** The fixed pages are distinct from each other and from every built route. */
  lemma ConstantsDistinct(detail: Detail, id: int)
    ensures forall i, j | 0 <= i < j < |Constants()| :: Constants()[i] != Constants()[j]
    ensures forall i | 0 <= i < |Constants()| :: Constants()[i] != DetailRoute(detail, id)
  {
    var r := DetailRoute(detail, id);
    var c := Constants();
    forall i | 0 <= i < |c| ensures c[i] != r {
      var p := DetailPrefix(detail);
      if |c[i]| >= |p| {
        assert r[|p| - 1] == p[|p| - 1] == '/';
        assert c[i][|p| - 1] != '/';
      }
    }
  }
}
