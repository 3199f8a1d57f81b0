/** The `/movies` and `/actors` route handlers: how request parameters select a query, and
    the instance variables a handler sets for the template. */
module Routes {
  import opened Wrappers
  import opened Schema
  import opened Sequences
  import opened Pagination
  import opened MovieQueries
  import opened ActorQueries

  const MoviesTemplate: string := "movies/movies_index"
  const ActorsTemplate: string := "actors/actors_index"

  // ---- /movies ----

  /** `params[:order]`: "year" and "rating" select their orders; anything else, a missing
      parameter included, falls back to title order. */
  function OrderOf(order: Option<string>): (o: Order)
    ensures o == ByYear <==> order == Some("year")
    ensures o == ByRating <==> order == Some("rating")
    ensures o == ByTitle <==> order != Some("year") && order != Some("rating")
  {
    if order == Some("year") then ByYear
    else if order == Some("rating") then ByRating
    else ByTitle
  }

  /** `LIMIT limit OFFSET offset`. */
  datatype Window = Window(offset: int, limit: nat)

  /** The query a `/movies` request runs: the text search, or a listing in some order,
      whole or through a window. */
  datatype MovieQuery = Search(text: string) | List(order: Order, window: Option<Window>)

  /** The query, and `@ol_start`, the 1-based position of the page's first row in the whole
      listing (nil unless the listing is paginated). */
  datatype MoviesPlan = MoviesPlan(query: MovieQuery, olStart: Option<int>)

  /** What `@arr_of_movies` holds: movies rows from the search, or listing rows. */
  datatype MoviesResult = Hits(movies: seq<Movie>) | Rows(rows: seq<MovieRow>)

  /** The branching of `get '/movies'`, with `page` already converted by `to_i` (a missing
      or non-numeric parameter is 0). A query, even an empty one, wins over page and order;
      otherwise a page of 0 or less lists everything, and a positive page lists 20 rows
      from offset (page - 1) * 20. The source's `else @page > 0` is a plain else whose first
      statement is a discarded comparison. */
  function DispatchMovies(query: Option<string>, page: int, order: Option<string>): (p: MoviesPlan)
    ensures query.Some? ==> p == MoviesPlan(Search(query.value), None)
    ensures query.None? ==> p.query.List? && p.query.order == OrderOf(order)
    ensures query.None? ==> (p.query.window.None? <==> page <= 0)
    ensures p.query.List? && p.query.window.Some? ==>
      var w := p.query.window.value;
      && w.offset == PageOffset(page) && 0 <= w.offset && w.offset % PageSize == 0
      && w.limit == PageSize
      && p.olStart == Some(w.offset + 1)
    ensures p.olStart.Some? <==> query.None? && page > 0
    ensures p.olStart.Some? ==> p.olStart.value >= 1
  {
    if query.Some? then MoviesPlan(Search(query.value), None)
    else if page <= 0 then MoviesPlan(List(OrderOf(order), None), None)
    else MoviesPlan(List(OrderOf(order), Some(Window((page - 1) * PageSize, PageSize))), Some((page - 1) * PageSize + 1))
  }

  /** Runs a `/movies` query against the database. */
  function ExecuteMovies(db: Db, matches: TextMatch, q: MovieQuery): Result<MoviesResult, DbError> {
    match q
    case Search(text) => Success(Hits(MovieSearch(db, matches, text)))
    case List(o, None) => Success(Rows(ListMovies(db, o)))
    case List(o, Some(w)) =>
      var r := LimitOffset(ListMovies(db, o), w.limit, w.offset);
      if r.Success? then Success(Rows(r.value)) else Failure(r.error)
  }

  /** What a `/movies` request puts in `@arr_of_movies`, or the error it fails with. */
  function MoviesResponse(db: Db, matches: TextMatch, query: Option<string>, page: int, order: Option<string>)
    : (r: Result<MoviesResult, DbError>)
    ensures query.Some? ==> r == Success(Hits(MovieSearch(db, matches, query.value)))
    ensures query.None? && page <= 0 ==> r == Success(Rows(ListMovies(db, OrderOf(order))))
    ensures query.None? && page > 0 ==>
      && (r.Failure? <==> PageOffset(page) > BigintMax)
      && (r.Failure? ==> r.error == OffsetOutOfRange)
      && (r.Success? ==> r.value.Rows? && |r.value.rows| <= PageSize && SortedBy(KeyOrder(OrderOf(order)), r.value.rows))
    ensures r != Failure(NegativeOffset)
  {
    var p := DispatchMovies(query, page, order);
    if query.None? && page > 0 then
      SliceKeepsOrder(KeyOrder(OrderOf(order)), ListMovies(db, OrderOf(order)), PageOffset(page), PageSize);
      ExecuteMovies(db, matches, p.query)
    else
      ExecuteMovies(db, matches, p.query)
  }

  /** For a positive page without a query, the response is the paginated repository
      listing's result. */
  lemma PagedResponse(db: Db, matches: TextMatch, page: int, order: Option<string>)
    requires page > 0
    ensures var r := ListMoviesPage(db, OrderOf(order), page);
      MoviesResponse(db, matches, None, page, order) == if r.Success? then Success(Rows(r.value)) else Failure(r.error)
  {
  }

  /** A positive page on `/movies` is the slice [(page - 1) * 20, (page - 1) * 20 + 20) of
      the same-order listing that page 0 gives, cut at the listing's end, and it is what the
      repository's paginated listing returns. */
  lemma PageIsSliceOfListing(db: Db, matches: TextMatch, page: int, order: Option<string>)
    requires page > 0 && PageOffset(page) <= BigintMax
    ensures var full := MoviesResponse(db, matches, None, 0, order);
      var paged := MoviesResponse(db, matches, None, page, order);
      && full.Success? && full.value.Rows? && paged.Success? && paged.value.Rows?
      && paged.value.rows == full.value.rows[Min(PageOffset(page), |full.value.rows|)..Min(PageOffset(page) + PageSize, |full.value.rows|)]
      && paged == Success(Rows(ListMoviesPage(db, OrderOf(order), page).value))
  {
  }

  /** A movie whose genre_id names no genre is on no `/movies` listing, whole or paged,
      in any order. */
  lemma GenrelessMovieNeverListed(db: Db, matches: TextMatch, page: int, order: Option<string>, m: Movie)
    requires UniqueMovieIds(db) && m in db.movies
    requires forall g :: g in db.genres ==> g.id != m.genreId
    ensures var r := MoviesResponse(db, matches, None, page, order);
      r.Success? ==> r.value.Rows? && forall row :: row in r.value.rows ==> row.id != m.id
  {
    var o := OrderOf(order);
    MovieWithoutGenreNeverListed(db, o, m);
    var r := MoviesResponse(db, matches, None, page, order);
    assert r.Success? ==> forall row :: row in r.value.rows ==> row in ListMovies(db, o);
  }

  /** Pages 1 to k of `/movies`, read in turn, are the first 20 * k rows of the whole
      listing: consecutive pages are contiguous and never overlap. */
  lemma PagesTileListing(db: Db, matches: TextMatch, k: nat, order: Option<string>)
    ensures var full := MoviesResponse(db, matches, None, 0, order).value.rows;
      && (forall p | 1 <= p <= k && PageOffset(p) <= BigintMax ::
            MoviesResponse(db, matches, None, p, order) == Success(Rows(Slice(full, PageOffset(p), PageSize))))
      && PagesUpTo(full, k) == full[..Min(|full|, k * PageSize)]
  {
    var full := MoviesResponse(db, matches, None, 0, order).value.rows;
    forall p | 1 <= p <= k && PageOffset(p) <= BigintMax
      ensures MoviesResponse(db, matches, None, p, order) == Success(Rows(Slice(full, PageOffset(p), PageSize)))
    {
      PageIsSliceOfListing(db, matches, p, order);
    }
    PagesUpToIsPrefix(full, k);
  }

  /** `/movies?order=rating&page=2` runs the rating listing with offset 20 and limit 20;
      its rows are numbered from 21. */
  lemma RatingPageTwo()
    ensures DispatchMovies(None, 2, Some("rating")) == MoviesPlan(List(ByRating, Some(Window(20, 20))), Some(21))
  {
  }

  /** The order branches of an unpaginated `/movies` request: the listing whose ORDER BY
      the order parameter selects. */
  method FetchListing(db: Db, order: Option<string>) returns (rows: seq<MovieRow>)
    ensures rows == ListMovies(db, OrderOf(order))
    ensures SortedBy(KeyOrder(OrderOf(order)), rows)
  {
    if order == Some("year") {
      rows := ListMovies(db, ByYear);
    } else if order == Some("rating") {
      rows := ListMovies(db, ByRating);
    } else {
      rows := ListMovies(db, ByTitle);
    }
  }

  /** The order branches of a paginated `/movies` request: page `page` of the listing whose
      ORDER BY the order parameter selects. */
  method FetchPage(db: Db, page: int, order: Option<string>) returns (rows: Result<seq<MovieRow>, DbError>)
    requires page > 0
    ensures rows == ListMoviesPage(db, OrderOf(order), page)
    ensures rows.Failure? <==> PageOffset(page) > BigintMax
  {
    if order == Some("year") {
      rows := ListMoviesPage(db, ByYear, page);
    } else if order == Some("rating") {
      rows := ListMoviesPage(db, ByRating, page);
    } else {
      rows := ListMoviesPage(db, ByTitle, page);
    }
  }

  // ---- /actors ----

  /** The query a `/actors` request runs. */
  datatype ActorsQuery = SearchActorsOrRoles(text: string) | AllActorsByName

  /** The branching of `get '/actors'`: a query, even an empty one, selects the search. */
  function DispatchActors(query: Option<string>): (q: ActorsQuery)
    ensures q.SearchActorsOrRoles? <==> query.Some?
    ensures query.Some? ==> q.text == query.value
  {
    if query.Some? then SearchActorsOrRoles(query.value) else AllActorsByName
  }

  /** What a `/actors` request puts in `@arr_of_actors`: always ordered by name; all actors
      without a query, otherwise each actor once per cast row of theirs matching it. */
  function ActorsResponse(db: Db, matches: TextMatch, query: Option<string>): (r: seq<Actor>)
    ensures SortedBy(NameOrder(), r)
    ensures query.None? ==> multiset(r) == multiset(db.actors)
    ensures query.Some? ==> forall a :: a in r <==>
      a in db.actors && exists cm :: cm in db.castMembers && RoleMatches(matches, query.value, a, cm)
    ensures query.Some? ==> forall a ::
      multiset(r)[a] == multiset(db.actors)[a] * |Roles(matches, query.value, a, db.castMembers)|
  {
    match DispatchActors(query)
    case SearchActorsOrRoles(text) => SearchActors(db, matches, text)
    case AllActorsByName => AllActors(db)
  }

  // ---- The handler's instance variables ----

  /** The instance a request is handled in: the instance variables the route handlers set
      and the templates read. Unset instance variables are nil. */
  class RouteContext {
    var page: Option<int>                 // @page
    var olStart: Option<int>              // @ol_start
    var arrOfMovies: Option<MoviesResult> // @arr_of_movies
    var query: Option<string>             // @query
    var arrOfActors: Option<seq<Actor>>   // @arr_of_actors

    constructor ()
      ensures page == None && olStart == None && arrOfMovies == None
      ensures query == None && arrOfActors == None
    {
      page, olStart, arrOfMovies := None, None, None;
      query, arrOfActors := None, None;
    }

    /** `get '/movies'`: sets `@page`, `@ol_start` when paginating, and `@arr_of_movies`,
        then renders the movie list; a query that raises leaves `@arr_of_movies` unset. */
    method GetMovies(db: Db, matches: TextMatch, queryParam: Option<string>, pageParam: int, orderParam: Option<string>)
      returns (outcome: Result<string, DbError>)
      modifies this
      ensures page == Some(pageParam)
      ensures olStart == if pageParam > 0 && queryParam.None? then DispatchMovies(queryParam, pageParam, orderParam).olStart else old(olStart)
      ensures var response := MoviesResponse(db, matches, queryParam, pageParam, orderParam);
        && (outcome.Success? <==> response.Success?)
        && (outcome.Success? ==> outcome.value == MoviesTemplate && arrOfMovies == Some(response.value))
        && (outcome.Failure? ==> outcome.error == response.error && arrOfMovies == old(arrOfMovies))
      ensures query == old(query) && arrOfActors == old(arrOfActors)
    {
      page := Some(pageParam);
      if queryParam.Some? {
        arrOfMovies := Some(Hits(MovieSearch(db, matches, queryParam.value)));
      } else if pageParam <= 0 {
        var rows := FetchListing(db, orderParam);
        arrOfMovies := Some(Rows(rows));
      } else {
        olStart := Some((pageParam - 1) * PageSize + 1);
        var rows := FetchPage(db, pageParam, orderParam);
        PagedResponse(db, matches, pageParam, orderParam);
        if rows.Failure? {
          return Failure(rows.error);
        }
        arrOfMovies := Some(Rows(rows.value));
      }
      outcome := Success(MoviesTemplate);
    }

    /** `get '/actors'`: sets `@query` and `@arr_of_actors`, then renders the actor list. */
    method GetActors(db: Db, matches: TextMatch, queryParam: Option<string>) returns (template: string)
      modifies this
      ensures query == queryParam
      ensures arrOfActors == Some(ActorsResponse(db, matches, queryParam))
      ensures template == ActorsTemplate
      ensures page == old(page) && olStart == old(olStart) && arrOfMovies == old(arrOfMovies)
    {
      query := queryParam;
      if query.Some? {
        arrOfActors := Some(SearchActors(db, matches, query.value));
      } else {
        arrOfActors := Some(AllActors(db));
      }
      template := ActorsTemplate;
    }
  }
}
