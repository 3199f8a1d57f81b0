# Movies catalog: request dispatch, listings and pagination

This project models the read path of a small Sinatra movie catalog (`server.rb`). It covers
how the `/movies` and `/actors` routes turn request parameters into a query, and what those
queries return over in-memory tables:

- the three movie orders (title; year descending then title; rating descending then title);
- the joins: an inner join on genres and a left outer join on studios;
- `LIMIT 20 OFFSET (page - 1) * 20` pagination;
- the full-text searches, with matching itself left abstract;
- the actor list and the actor-name lookup.

Modules:

- `Wrappers`: Option (SQL NULL, Ruby nil) and Result (a query's rows or the error it raises).
- `Sequences`: a WHERE filter that keeps storage order, and a stable sort under a total
  preorder, which stands for ORDER BY.
- `Collation`: ascending text order, which is lexicographic on code points.
- `Schema`: the tables (movies, genres, studios, actors, cast_members), the listing row,
  and the errors.
- `Pagination`: page arithmetic, and how PostgreSQL applies LIMIT/OFFSET.
- `MovieQueries`: the six `get_movies_by_*` listings and `movie_title_search`.
- `ActorQueries`: `get_all_actors`, `search_for_actor_or_role` and `get_actor_name`.
- `Routes`: the two dispatchers and the route-level contracts. Also the class
  `RouteContext`, whose methods set the handler's instance variables (`@page`, `@ol_start`,
  `@arr_of_movies`, `@query`, `@arr_of_actors`) step by step, as the handlers do.

The three unpaginated listings differ only in their ORDER BY clause. So do the three
paginated ones. Each group is therefore one function with an `Order` parameter
(`ListMovies`, `ListMoviesPage`). Line 151 reads `else @page > 0`. That is a plain `else`
whose first statement is a comparison whose value is thrown away, so the model uses a plain
else: every positive page is paginated. Lines 58 and 70 bind the offset through `exec` with a
parameter array, and line 82 binds it through `exec_params`. Both bind `$1` the same way.

Inputs the model takes as parameters:

- `page` arrives already converted by `String#to_i`: a missing or non-numeric value is 0.
- `query` and `order` are `Option<string>`, with `None` for a missing parameter.
- Full-text matching is a parameter `matches(query, document)`.

## Model

| member | source | states |
|---|---|---|
| `Routes.DispatchMovies` | server.rb:136-160 | A non-nil query selects the text search and leaves `@ol_start` nil, whatever page and order are. Otherwise the listing uses `OrderOf(order)`. It is unpaginated exactly when page <= 0. A paginated listing has offset (page-1)*20, which is non-negative and a multiple of 20, and limit 20. `@ol_start` is then offset + 1 >= 1, and it is set exactly when there is no query and page > 0. |
| `Routes.OrderOf` | server.rb:143-148 | "year" gives year order and "rating" gives rating order, each iff the parameter is that word. Anything else, nil included, gives title order. |
| `Routes.MoviesResponse` | server.rb:136-160 | A query returns the search hits. No query and page <= 0 returns the whole listing in the requested order. No query and page > 0 returns at most 20 rows, sorted by the order's key, and fails only when the offset exceeds bigint. The route never issues a negative offset. |
| `Routes.FetchListing` | server.rb:143-149 | On an unpaginated request, the year/rating/else branches return the whole listing in the order that `OrderOf` gives the parameter, and it is sorted by that order's key. |
| `Routes.FetchPage` | server.rb:153-159 | On a paginated request, the same branches return that order's paginated listing for the page. It fails only when the offset exceeds bigint. |
| `Routes.PageIsSliceOfListing` | server.rb:151-159 | Page N > 0 is the slice [(N-1)*20, min(len, (N-1)*20+20)) of the same-order page-0 listing. It equals what the paginated repository listing returns. |
| `Routes.PagesTileListing` | server.rb:152-159 | Each route page p in 1..k (with its offset within bigint) is the response `Success(Rows(...))` holding the window of 20 rows at (p-1)*20 of the page-0 listing. Those windows, read in turn, are exactly the first 20k rows of the whole listing: they are contiguous and disjoint. |
| `Routes.GenrelessMovieNeverListed` | server.rb:136-160 | A movie whose genre_id names no genre is on no `/movies` listing, whole or paged, in any order. Movie ids are the primary key. |
| `Routes.RatingPageTwo` | server.rb:151-156 | `order=rating&page=2` selects the rating listing with offset 20 and limit 20, and `@ol_start` 21. |
| `Routes.DispatchActors` | server.rb:165-170 | A non-nil query, even an empty one, selects the actor/role search and passes the query text. Nil selects the full listing. |
| `Routes.ActorsResponse` | server.rb:164-172 | The `/actors` result is always sorted by name. Without a query it is a permutation of the actors table. With a query it holds exactly the actors that have a cast row whose actor name or character matches, and each actor appears as many times as its copies in the table times its matching cast rows. |
| `Routes.RouteContext.constructor` | server.rb:136-138 | A fresh request starts with every instance variable nil. |
| `Routes.RouteContext.GetMovies` | server.rb:136-162 | `@page` is set to the page parameter. `@ol_start` is set exactly when paginating. `@arr_of_movies` is set to `MoviesResponse` and the movie list template renders. A query that raises leaves `@arr_of_movies` unchanged and the request fails with that error. Actor variables are untouched. |
| `Routes.RouteContext.GetActors` | server.rb:164-172 | `@query` is set to the query parameter and `@arr_of_actors` to `ActorsResponse`, and the actor list template renders. Movie variables are untouched. |
| `MovieQueries.ListMovies` | server.rb:16-48 | Each unpaginated listing is sorted by its key and is a permutation (as a multiset) of the joined rows. |
| `MovieQueries.ListingOrder` | server.rb:23 | The three keys spelled out. Title listings ascend by title. Year listings descend by year, ties ascending by title. Rating listings descend by rating, and rows of equal rating appear in title order. |
| `MovieQueries.KeyOrderIsTotalPreorder` | server.rb:34 | Each of the three ORDER BY keys is total and transitive, so it is a valid sort order. |
| `MovieQueries.JoinedRows` | server.rb:20-22 | A row is in the join iff some movie produces it. The row carries the movie's columns and the name of a genre whose id is the movie's genre_id. Its studio is the name of a studio whose id is the movie's studio_id, or NULL when no studio has it. |
| `MovieQueries.ListedIffJoined` | server.rb:18-23 | A row is in a listing, in any order, iff the join produces it. |
| `MovieQueries.MovieWithoutGenreNeverListed` | server.rb:21 | Inner join: with unique movie ids, a movie whose genre_id matches no genre has no row in any listing. |
| `MovieQueries.MovieWithoutStudioListed` | server.rb:22 | Left outer join: a movie with a genre but no matching studio is listed with a NULL studio. |
| `MovieQueries.MovieWithStudioListed` | server.rb:22 | A movie with a genre and a matching studio is listed with that studio's name. |
| `MovieQueries.ListMoviesPage` | server.rb:50-84 | A paginated listing fails iff page < 1 (negative offset) or the offset exceeds bigint. Otherwise it returns at most 20 rows, sorted by the key: the slice of the unpaginated listing starting at (page-1)*20. |
| `MovieQueries.MovieSearch` | server.rb:86-93 | The search returns movies from the table whose title or synopsis matches, and every such movie, each as many times as it is stored; no other movie. There is no join, so a movie without a genre can be found. |
| `ActorQueries.AllActors` | server.rb:95-100 | The listing is sorted by name and is a permutation of the actors table. |
| `ActorQueries.NameOrderIsTotalPreorder` | server.rb:98 | Name order is total and transitive. |
| `ActorQueries.Roles` | server.rb:124-127 | An actor's matching cast rows are exactly the cast rows with the actor's id whose actor name or character matches. |
| `ActorQueries.RoleHits` | server.rb:123-127 | The join and filter hold exactly the actors that have a cast row whose actor name or character matches. |
| `ActorQueries.RoleHitsCount` | server.rb:123-127 | The join lists each actor (copies in the table) × (matching cast rows) times: one row per matching (actor, cast row) pair. |
| `ActorQueries.SearchActors` | server.rb:121-131 | The search result is sorted by name. It holds exactly the actors that have a matching cast row, each as often as the join yields it: copies in the table times matching cast rows. |
| `ActorQueries.SearchListsActorPerRole` | server.rb:121-131 | With actor ids unique, an actor appears in the search exactly once per matching cast row of theirs. |
| `ActorQueries.ActorName` | server.rb:113-119 | The lookup fails, with nil-indexing, iff no actor row has the id. Otherwise it returns the name of a row whose id matches: the model takes the first in storage order. |
| `ActorQueries.ActorNameOfKnownActor` | server.rb:113-118 | With actor ids unique, the lookup of an actor's id returns that actor's name. |
| `Pagination.PageOffset` | server.rb:58 | Page >= 1 iff its offset is >= 0. The offset of a positive page is a multiple of 20. |
| `Pagination.LimitOffset` | server.rb:70 | An offset outside bigint gives one error and a negative offset gives another. An accepted offset yields at most `limit` rows, the slice of the result that starts at the offset. |
| `Pagination.Slice` | server.rb:82 | The window has length min(limit, len - offset), or 0 past the end, and its row i is row offset + i of the result. |
| `Pagination.PagesUpToIsPrefix` | server.rb:58 | Concatenating pages 1..k of any result gives its first min(len, 20k) rows. |
| `Pagination.RowOnItsPage` | server.rb:70 | Row i is on page i/20+1 at position i%20. That is the only page whose window contains it. |
| `Pagination.SliceKeepsOrder` | server.rb:81-82 | Every page of a sorted listing is sorted. |
| `Pagination.EarlierPageFirst` | server.rb:57-58 | In a sorted listing, a row on an earlier page never sorts after a row on a later page. |
| `Sequences.SortBy` | server.rb:46 | Sorting under a total preorder gives a sorted permutation of its input. |
| `Sequences.Filter` | server.rb:115-117 | A filter keeps exactly the rows that satisfy the condition. When its result is non-empty, the first element is the first matching row in storage order. |
| `Sequences.FilterCount` | server.rb:88-91 | A filter keeps every copy of a matching row and no copy of any other row. |
| `Sequences.FilterKeepsOrder` | server.rb:115-117 | Filtering two stretches of rows in turn gives the two filtered stretches in turn: the filter keeps storage order. |
| `Collation.TextLeTotal` | server.rb:23 | Any two titles are comparable. |
| `Collation.TextLeTransitive` | server.rb:34 | Title order is transitive. |
| `Collation.TextLeAntisymmetric` | server.rb:57 | Two titles that each sort no later than the other are equal. |

## Left out

- Connection handling in `db_conn` (server.rb:5-14): PostgreSQL driver I/O and the
  connection's lifetime. The data it returns is unaffected.
- Full-text matching (`to_tsvector` / `plainto_tsquery`): this is PostgreSQL's stemming and
  tokenisation. It is the parameter `matches(query, document)`.
- `String#to_i` parsing of `params[:page]`: the model receives the converted integer.
- ERB rendering, Sinatra routing and `params` handling. The handlers return the template
  name instead of rendering it.
- The movie detail route and the actor detail route, including `get_info_for_actor`
  (server.rb:102-111, 174-210). They run id-filtered joins with no ordering or pagination
  logic beyond a title sort. `get_actor_name`, which the actor page calls, is modelled.
- Tie order: rows equal on the whole sort key keep storage order, because the sort is
  stable. PostgreSQL makes no such promise, and the model does not claim it does.
- MovieSearch: `movie_title_search` has no ORDER BY. The model returns matches in storage
  order, but its contract promises only which movies appear and how often, not their order.
- Collation: titles and names compare by code point. The database's locale collation is not
  modelled.
- Column types: `year` and `rating` are integers that stand for any ordered column type.
  Every movie column is non-NULL except `studio_id`. A NULL rating, year or synopsis is not
  modelled.
- Id parameters are integers. A non-numeric `:id` that PostgreSQL would refuse is not
  modelled.
- JoinedRows: states which rows the joins yield, not how often. Each genre and studio
  match yields its own row.
- ListedIffJoined: states which rows a listing holds, not how often.
- ActorName: `get_actor_name` has no ORDER BY, so PostgreSQL does not fix which matching row
  `[0]` returns. The model takes the first in storage order. With unique actor ids
  (`ActorNameOfKnownActor`) there is only one such row.
