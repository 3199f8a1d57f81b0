/** The relational schema the queries read (movies, genres, studios, actors, cast_members),
    the rows the listing queries project, and the errors a query can raise. */
module Schema {
  import opened Wrappers

  /** A row of `movies`. `genreId` must name a genre for the movie to be listed;
      `studioId` is nullable. Year and rating are ordered keys. */
  datatype Movie = Movie(
    id: int,
    title: string,
    year: int,
    rating: int,
    synopsis: string,
    genreId: int,
    studioId: Option<int>)

  datatype Genre = Genre(id: int, name: string)

  datatype Studio = Studio(id: int, name: string)

  /** A row of `actors`; also the (id, name) row that the actor listings project. */
  datatype Actor = Actor(id: int, name: string)

  /** A row of `cast_members`: one actor playing one character in one movie. */
  datatype CastMember = CastMember(movieId: int, actorId: int, character: string)

  /** The database contents; each table is a sequence of rows in storage order. */
  datatype Db = Db(
    movies: seq<Movie>,
    genres: seq<Genre>,
    studios: seq<Studio>,
    actors: seq<Actor>,
    castMembers: seq<CastMember>)

  /** The projection shared by all six movie listings:
      id, Title, Year, Rating, Genre, Studio (NULL when the movie has no studio). */
  datatype MovieRow = MovieRow(
    id: int,
    title: string,
    year: int,
    rating: int,
    genre: string,
    studio: Option<string>)

  /** Full-text matching (`to_tsvector(document) @@ plainto_tsquery(query)`),
      applied as `matches(query, document)`; its semantics belong to PostgreSQL. */
  type TextMatch = (string, string) -> bool

  /** Errors a query raises: PostgreSQL refuses a negative OFFSET and one outside
      bigint; indexing the empty result of the actor-name lookup yields nil, and
      `nil['name']` raises. */
  datatype DbError = NegativeOffset | OffsetOutOfRange | NoSuchRow

  /** `movies.id` is the table's primary key. */
  predicate UniqueMovieIds(db: Db) {
    forall i, j :: 0 <= i < |db.movies| && 0 <= j < |db.movies| && db.movies[i].id == db.movies[j].id ==> i == j
  }

  /** `actors.id` is the table's primary key. */
  predicate UniqueActorIds(db: Db) {
    forall i, j :: 0 <= i < |db.actors| && 0 <= j < |db.actors| && db.actors[i].id == db.actors[j].id ==> i == j
  }
}
