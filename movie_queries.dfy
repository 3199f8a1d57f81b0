/** The movie queries: the six listings (`get_movies_by_title`, `_by_year`, `_by_rating` and
    their `_paginated` forms) and `movie_title_search`. The six listings share one projection
    and one join (an inner join on genres, a left outer join on studios) and differ only in
    their ORDER BY and in the LIMIT/OFFSET the paginated ones add. */
module MovieQueries {
  import opened Wrappers
  import opened Schema
  import opened Sequences
  import opened Collation
  import opened Pagination

  /** The three ORDER BY clauses. */
  datatype Order = ByTitle | ByYear | ByRating

  /** Row `a` may come before row `b` in a listing ordered by `o`:
      `movies.title`; `movies.year DESC, movies.title`; `movies.rating DESC, movies.title`. */
  predicate MovieLe(o: Order, a: MovieRow, b: MovieRow) {
    match o
    case ByTitle => TextLe(a.title, b.title)
    case ByYear => a.year > b.year || (a.year == b.year && TextLe(a.title, b.title))
    case ByRating => a.rating > b.rating || (a.rating == b.rating && TextLe(a.title, b.title))
  }

  function KeyOrder(o: Order): (MovieRow, MovieRow) -> bool {
    (a, b) => MovieLe(o, a, b)
  }

  lemma KeyOrderIsTotalPreorder(o: Order)
    ensures TotalPreorder(KeyOrder(o))
  {
    var le := KeyOrder(o);
    forall a, b ensures le(a, b) || le(b, a) {
      TextLeTotal(a.title, b.title);
    }
    forall a, b, c | le(a, b) && le(b, c) ensures le(a, c) {
      if TextLe(a.title, b.title) && TextLe(b.title, c.title) {
        TextLeTransitive(a.title, b.title, c.title);
      }
    }
  }

  // ---- The join: movies JOIN genres LEFT OUTER JOIN studios ----

  /** The projected row for movie `m` joined to genre `g`, with studio name `studio`. */
  function MkRow(m: Movie, g: Genre, studio: Option<string>): MovieRow {
    MovieRow(m.id, m.title, m.year, m.rating, g.name, studio)
  }

  /** `JOIN genres ON genres.id = movies.genre_id`, for one movie. */
  function GenresOf(db: Db, m: Movie): seq<Genre> {
    Filter((g: Genre) => g.id == m.genreId, db.genres)
  }

  /** `LEFT OUTER JOIN studios ON studios.id = movies.studio_id`, for one movie: a NULL
      studio_id equals no studio id. */
  function StudiosOf(db: Db, m: Movie): seq<Studio> {
    Filter((s: Studio) => m.studioId == Some(s.id), db.studios)
  }

  /** The rows the outer join gives one (movie, genre) pair: one per matching studio, or a
      single row with a NULL studio when none matches. */
  function StudioRows(m: Movie, g: Genre, ss: seq<Studio>): seq<MovieRow> {
    if ss == [] then [MkRow(m, g, None)]
    else seq(|ss|, i requires 0 <= i < |ss| => MkRow(m, g, Some(ss[i].name)))
  }

  function GenreRows(m: Movie, gs: seq<Genre>, ss: seq<Studio>): seq<MovieRow> {
    if gs == [] then [] else StudioRows(m, gs[0], ss) + GenreRows(m, gs[1..], ss)
  }

  /** All joined rows of one movie. */
  function MovieRows(db: Db, m: Movie): seq<MovieRow> {
    GenreRows(m, GenresOf(db, m), StudiosOf(db, m))
  }

  function JoinRows(db: Db, ms: seq<Movie>): seq<MovieRow> {
    if ms == [] then [] else MovieRows(db, ms[0]) + JoinRows(db, ms[1..])
  }

  /** The joined, not yet ordered, result of every movie listing. */
  function Joined(db: Db): seq<MovieRow> {
    JoinRows(db, db.movies)
  }

  /** The studio column the left outer join gives movie `m`: the name of a studio whose id
      is `m`'s studio_id, or NULL when there is none. */
  ghost predicate StudioColumn(db: Db, m: Movie, studio: Option<string>) {
    if exists s :: s in db.studios && m.studioId == Some(s.id)
    then exists s :: s in db.studios && m.studioId == Some(s.id) && studio == Some(s.name)
    else studio == None
  }

  /** `r` is a row the join produces from movie `m`: `m`'s columns, the name of a genre
      whose id is `m`'s genre_id, and `m`'s studio column. */
  ghost predicate RowOf(db: Db, m: Movie, r: MovieRow) {
    && (exists g :: g in db.genres && g.id == m.genreId && r == MkRow(m, g, r.studio))
    && StudioColumn(db, m, r.studio)
  }

  lemma StudioRowsMembers(db: Db, m: Movie, g: Genre, r: MovieRow)
    ensures r in StudioRows(m, g, StudiosOf(db, m)) <==> r == MkRow(m, g, r.studio) && StudioColumn(db, m, r.studio)
  {
    var ss := StudiosOf(db, m);
    var p := (s: Studio) => m.studioId == Some(s.id);
    var rows := StudioRows(m, g, ss);
    if ss == [] {
      forall s | s in db.studios ensures m.studioId != Some(s.id) {
        FilterMembers(p, db.studios, s);
      }
    } else {
      FilterMembers(p, db.studios, ss[0]);
      if r in rows {
        var i :| 0 <= i < |rows| && rows[i] == r;
        FilterMembers(p, db.studios, ss[i]);
      }
      if r == MkRow(m, g, r.studio) && StudioColumn(db, m, r.studio) {
        var s :| s in db.studios && m.studioId == Some(s.id) && r.studio == Some(s.name);
        FilterMembers(p, db.studios, s);
        var i :| 0 <= i < |ss| && ss[i] == s;
        assert rows[i] == r;
      }
    }
  }

  lemma {:induction false} GenreRowsMembers(db: Db, m: Movie, gs: seq<Genre>, r: MovieRow)
    ensures r in GenreRows(m, gs, StudiosOf(db, m)) <==>
      (exists g :: g in gs && r == MkRow(m, g, r.studio)) && StudioColumn(db, m, r.studio)
    decreases |gs|
  {
    if gs != [] {
      StudioRowsMembers(db, m, gs[0], r);
      GenreRowsMembers(db, m, gs[1..], r);
      if exists g :: g in gs && r == MkRow(m, g, r.studio) {
        var g :| g in gs && r == MkRow(m, g, r.studio);
        if g != gs[0] {
          assert g in gs[1..];
        }
      }
    }
  }

  lemma MovieRowsMembers(db: Db, m: Movie, r: MovieRow)
    ensures r in MovieRows(db, m) <==> RowOf(db, m, r)
  {
    var p := (g: Genre) => g.id == m.genreId;
    GenreRowsMembers(db, m, GenresOf(db, m), r);
    if r in MovieRows(db, m) {
      var g :| g in GenresOf(db, m) && r == MkRow(m, g, r.studio);
      FilterMembers(p, db.genres, g);
    }
    if RowOf(db, m, r) {
      var g :| g in db.genres && g.id == m.genreId && r == MkRow(m, g, r.studio);
      FilterMembers(p, db.genres, g);
    }
  }

  lemma {:induction false} JoinRowsMembers(db: Db, ms: seq<Movie>, r: MovieRow)
    ensures r in JoinRows(db, ms) <==> exists m :: m in ms && RowOf(db, m, r)
    decreases |ms|
  {
    if ms != [] {
      MovieRowsMembers(db, ms[0], r);
      JoinRowsMembers(db, ms[1..], r);
      if exists m :: m in ms && RowOf(db, m, r) {
        var m :| m in ms && RowOf(db, m, r);
        if m != ms[0] {
          assert m in ms[1..];
        }
      }
    }
  }

  /** The join's meaning: a row is in the joined result exactly when some movie produces
      it with a genre whose id is its genre_id, and with its studio's name, or NULL when no
      studio has its studio_id. */
  lemma JoinedRows(db: Db, r: MovieRow)
    ensures r in Joined(db) <==> exists m :: m in db.movies && RowOf(db, m, r)
  {
    JoinRowsMembers(db, db.movies, r);
  }

  // ---- The three unpaginated listings (server.rb:16-48) ----

  /** `get_movies_by_title`, `get_movies_by_year`, `get_movies_by_rating`: the joined rows
      ordered by `o`. Rows tied on the whole key keep storage order. */
  function ListMovies(db: Db, o: Order): (r: seq<MovieRow>)
    ensures SortedBy(KeyOrder(o), r)
    ensures multiset(r) == multiset(Joined(db))
  {
    KeyOrderIsTotalPreorder(o);
    SortBy(KeyOrder(o), Joined(db))
  }

  /** The listing holds exactly the joined rows. */
  lemma ListedIffJoined(db: Db, o: Order, r: MovieRow)
    ensures r in ListMovies(db, o) <==> exists m :: m in db.movies && RowOf(db, m, r)
  {
    JoinedRows(db, r);
    assert r in ListMovies(db, o) <==> r in multiset(ListMovies(db, o));
    assert r in Joined(db) <==> r in multiset(Joined(db));
  }

  /** The order of each listing, spelled out: title ascending; year descending, then title
      ascending; rating descending, then title ascending (so rows of equal rating appear in
      title order). */
  lemma ListingOrder(db: Db, o: Order, i: int, j: int)
    requires 0 <= i < j < |ListMovies(db, o)|
    ensures var a, b := ListMovies(db, o)[i], ListMovies(db, o)[j];
      match o
      case ByTitle => TextLe(a.title, b.title)
      case ByYear => a.year >= b.year && (a.year == b.year ==> TextLe(a.title, b.title))
      case ByRating => a.rating >= b.rating && (a.rating == b.rating ==> TextLe(a.title, b.title))
  {
  }

  /** Inner join: a movie whose genre_id names no genre is absent from every listing. */
  lemma MovieWithoutGenreNeverListed(db: Db, o: Order, m: Movie)
    requires UniqueMovieIds(db) && m in db.movies
    requires forall g :: g in db.genres ==> g.id != m.genreId
    ensures forall r :: r in ListMovies(db, o) ==> r.id != m.id
  {
    forall r | r in ListMovies(db, o) ensures r.id != m.id {
      ListedIffJoined(db, o, r);
      var m' :| m' in db.movies && RowOf(db, m', r);
      var g :| g in db.genres && g.id == m'.genreId && r == MkRow(m', g, r.studio);
      var i :| 0 <= i < |db.movies| && db.movies[i] == m;
      var j :| 0 <= j < |db.movies| && db.movies[j] == m';
      assert r.id == m.id ==> i == j;
    }
  }

  /** Left outer join: a movie with a genre but no matching studio is still listed, with a
      NULL studio. */
  lemma MovieWithoutStudioListed(db: Db, o: Order, m: Movie, g: Genre)
    requires m in db.movies && g in db.genres && g.id == m.genreId
    requires forall s :: s in db.studios ==> m.studioId != Some(s.id)
    ensures MkRow(m, g, None) in ListMovies(db, o)
  {
    ListedIffJoined(db, o, MkRow(m, g, None));
  }

  /** A movie with a genre and a matching studio is listed with that studio's name. */
  lemma MovieWithStudioListed(db: Db, o: Order, m: Movie, g: Genre, s: Studio)
    requires m in db.movies && g in db.genres && g.id == m.genreId
    requires s in db.studios && m.studioId == Some(s.id)
    ensures MkRow(m, g, Some(s.name)) in ListMovies(db, o)
  {
    ListedIffJoined(db, o, MkRow(m, g, Some(s.name)));
  }

  // ---- The three paginated listings (server.rb:50-84) ----

  /** `get_movies_by_*_paginated(page_number)`: the same ordered listing under
      `LIMIT 20 OFFSET (page_number - 1) * 20`. A page below 1 gives a negative offset,
      which PostgreSQL refuses, as it refuses an offset beyond bigint. */
  function ListMoviesPage(db: Db, o: Order, page: int): (r: Result<seq<MovieRow>, DbError>)
    ensures r.Failure? <==> page < 1 || PageOffset(page) > BigintMax
    ensures r.Success? ==>
      && |r.value| <= PageSize
      && SortedBy(KeyOrder(o), r.value)
      && r.value == ListMovies(db, o)[Min(PageOffset(page), |ListMovies(db, o)|)..Min(PageOffset(page) + PageSize, |ListMovies(db, o)|)]
  {
    var r := LimitOffset(ListMovies(db, o), PageSize, PageOffset(page));
    if r.Success? then SliceKeepsOrder(KeyOrder(o), ListMovies(db, o), PageOffset(page), PageSize); r
    else r
  }

  // ---- movie_title_search (server.rb:86-93) ----

  /** `SELECT * FROM movies` where the title or the synopsis matches the query, in storage
      order. No join: movies without a genre are found too. */
  function MovieSearch(db: Db, matches: TextMatch, query: string): (r: seq<Movie>)
    ensures forall i :: 0 <= i < |r| ==> r[i] in db.movies && (matches(query, r[i].title) || matches(query, r[i].synopsis))
    ensures forall m :: m in db.movies && (matches(query, m.title) || matches(query, m.synopsis)) ==> m in r
    ensures forall m :: multiset(r)[m] == if matches(query, m.title) || matches(query, m.synopsis) then multiset(db.movies)[m] else 0
  {
    var p := (m: Movie) => matches(query, m.title) || matches(query, m.synopsis);
    var r := Filter(p, db.movies);
    forall m | m in db.movies && p(m) ensures m in r {
      FilterMembers(p, db.movies, m);
    }
    forall m ensures multiset(r)[m] == if p(m) then multiset(db.movies)[m] else 0 {
      FilterCount(p, db.movies, m);
    }
    r
  }
}
