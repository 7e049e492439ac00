/**
 * The `movies` table and the database URL configuration. The table is a
 * map from id to row; the database session's add, commit and delete become
 * updates of that map, and a commit that fails leaves it as it was.
 */
module Models {
  import opened Wrappers
  import opened Text
  import Json

  // ---------------------------------------------------------------------
  // Database URL
  // ---------------------------------------------------------------------

  const LEGACY_SCHEME := "postgres://"
  const SCHEME := "postgresql://"

  /** The rewrite of a `postgres://` URL, which the database driver no longer accepts, to `postgresql://`. */
  function NormalizeDatabaseUrl(url: string): (r: string)
    ensures StartsWith(url, LEGACY_SCHEME) ==> r == SCHEME + url[|LEGACY_SCHEME|..]
    ensures !StartsWith(url, LEGACY_SCHEME) ==> r == url
    ensures !StartsWith(r, LEGACY_SCHEME)
  {
    if StartsWith(url, LEGACY_SCHEME) then
      ReplaceFirstAtLeftmost(url, LEGACY_SCHEME, SCHEME, 0);
      assert url[..0] == [];
      var r := ReplaceFirst(url, LEGACY_SCHEME, SCHEME);
      assert r[8] == 'q';
      r
    else url
  }

  /** Rewriting twice is rewriting once. */
  lemma NormalizeIdempotent(url: string)
    ensures NormalizeDatabaseUrl(NormalizeDatabaseUrl(url)) == NormalizeDatabaseUrl(url)
  {
  }

  /** A legacy URL and its modern spelling connect to the same place. */
  lemma LegacyAndModernAgree(rest: string)
    ensures NormalizeDatabaseUrl(LEGACY_SCHEME + rest) == SCHEME + rest
    ensures NormalizeDatabaseUrl(SCHEME + rest) == SCHEME + rest
  {
    var legacy := LEGACY_SCHEME + rest;
    assert legacy[..|LEGACY_SCHEME|] == LEGACY_SCHEME;
    assert legacy[|LEGACY_SCHEME|..] == rest;
    var modern := SCHEME + rest;
    assert modern[8] == 'q';
  }

  /** The process environment the URL is read from. */
  datatype Environment = Environment(env: Option<string>, testDatabaseUrl: Option<string>, databaseUrl: Option<string>)

  /** Reading `DATABASE_URL` when it is not set raises. */
  datatype ConfigError = DatabaseUrlUnset

  /**
   * The database path: the test URL, unchanged, when `ENV` is `test`;
   * otherwise `DATABASE_URL` with its legacy scheme rewritten.
   */
  function DatabasePath(environ: Environment): (r: Result<Option<string>, ConfigError>)
    ensures environ.env == Some("test") ==> r == Success(environ.testDatabaseUrl)
    ensures environ.env != Some("test") ==> (r.Failure? <==> environ.databaseUrl.None?)
    ensures environ.env != Some("test") && r.Success? ==>
      r.value.Some? && !StartsWith(r.value.value, LEGACY_SCHEME)
      && (StartsWith(environ.databaseUrl.value, LEGACY_SCHEME) ==>
            r.value.value == SCHEME + environ.databaseUrl.value[|LEGACY_SCHEME|..])
      && (!StartsWith(environ.databaseUrl.value, LEGACY_SCHEME) ==> r.value.value == environ.databaseUrl.value)
  {
    if environ.env == Some("test") then Success(environ.testDatabaseUrl)
    else if environ.databaseUrl.None? then Failure(DatabaseUrlUnset)
    else Success(Some(NormalizeDatabaseUrl(environ.databaseUrl.value)))
  }

  // ---------------------------------------------------------------------
  // The movies table
  // ---------------------------------------------------------------------

  /** A release date, kept as the value the client sent; its parsing and rendering are not modelled. */
  type ReleaseDate = string

  /** A stored row: both columns are non-nullable. */
  datatype MovieRow = MovieRow(title: string, releaseDate: ReleaseDate)

  /** A `Movie` object: a row together with its id. */
  datatype Movie = Movie(id: int, title: string, releaseDate: ReleaseDate) {
    function Row(): MovieRow {
      MovieRow(title, releaseDate)
    }
  }

  /** The whole table: its rows by id, and the next id the id sequence will hand out. */
  datatype TableState = TableState(rows: map<int, MovieRow>, nextId: int) {
    /** The id sequence starts at 1 and every stored id was handed out earlier, so `nextId` is fresh. */
    predicate Valid() {
      1 <= nextId && forall id :: id in rows ==> 1 <= id < nextId
    }

    /** The movie stored under `id`, if any (`Movie.query.get`). */
    function Get(id: int): (m: Option<Movie>)
      ensures m.Some? <==> id in rows
      ensures m.Some? ==> m.value.id == id && m.value.Row() == rows[id]
    {
      if id in rows then Some(Movie(id, rows[id].title, rows[id].releaseDate)) else None
    }
  }

  /** `movie.format()`: the movie as a JSON object. */
  function Format(m: Movie): (j: Json.Value)
    ensures j.Object? && j.fields.Keys == {"id", "title", "release_date"}
    ensures j.fields["id"] == Json.Int(m.id) && j.fields["title"] == Json.Str(m.title)
    ensures j.fields["release_date"] == Json.Date(m.releaseDate)
  {
    Json.Object(map["id" := Json.Int(m.id), "title" := Json.Str(m.title), "release_date" := Json.Date(m.releaseDate)])
  }

  /** The formatted record carries the whole movie: two movies format alike only when they are equal. */
  lemma FormatInjective(m1: Movie, m2: Movie)
    requires Format(m1) == Format(m2)
    ensures m1 == m2
  {
    assert Format(m1).fields["id"] == Format(m2).fields["id"];
    assert Format(m1).fields["title"] == Format(m2).fields["title"];
    assert Format(m1).fields["release_date"] == Format(m2).fields["release_date"];
  }

  /** The table after `movie.insert()` commits: a new row under the next id. */
  function Inserted(s: TableState, row: MovieRow): (t: TableState)
    requires s.Valid()
    ensures t.Valid()
    ensures s.nextId !in s.rows && t.rows.Keys == s.rows.Keys + {s.nextId}
    ensures |t.rows| == |s.rows| + 1
    ensures t.rows[s.nextId] == row
    ensures forall id :: id in s.rows ==> t.rows[id] == s.rows[id]
  {
    TableState(s.rows[s.nextId := row], s.nextId + 1)
  }

  /** The table after `movie.update()` commits: the movie's row holds its current values. */
  function Updated(s: TableState, m: Movie): (t: TableState)
    requires s.Valid() && m.id in s.rows
    ensures t.Valid() && t.nextId == s.nextId
    ensures t.rows.Keys == s.rows.Keys && |t.rows| == |s.rows|
    ensures t.Get(m.id) == Some(m)
    ensures forall id :: id in s.rows && id != m.id ==> t.rows[id] == s.rows[id]
  {
    TableState(s.rows[m.id := m.Row()], s.nextId)
  }

  /** The table after `movie.delete()` commits: that movie's row is gone. */
  function Deleted(s: TableState, id: int): (t: TableState)
    requires s.Valid() && id in s.rows
    ensures t.Valid() && t.nextId == s.nextId
    ensures t.rows.Keys == s.rows.Keys - {id} && |t.rows| == |s.rows| - 1
    ensures t.Get(id) == None
    ensures forall other :: other in s.rows && other != id ==> t.rows[other] == s.rows[other]
  {
    TableState(s.rows - {id}, s.nextId)
  }

  /** Every row of the table, each once, in an unspecified order (`Movie.query.all()`). */
  ghost predicate ListsTable(ms: seq<Movie>, s: TableState) {
    && (forall i :: 0 <= i < |ms| ==> ms[i].id in s.rows && s.rows[ms[i].id] == ms[i].Row())
    && (forall i, j :: 0 <= i < j < |ms| ==> ms[i].id != ms[j].id)
    && (forall id :: id in s.rows ==> exists i :: 0 <= i < |ms| && ms[i].id == id)
  }

  /** `ms` lists, in ascending id order, exactly the rows whose id is below `bound`. */
  ghost predicate ListsBelow(ms: seq<Movie>, rows: map<int, MovieRow>, bound: int) {
    && (forall i :: 0 <= i < |ms| ==> ms[i].id in rows && rows[ms[i].id] == ms[i].Row() && ms[i].id < bound)
    && (forall i, j :: 0 <= i < j < |ms| ==> ms[i].id < ms[j].id)
    && (forall id :: id in rows && id < bound ==> exists i :: 0 <= i < |ms| && ms[i].id == id)
  }

  /** Moving the bound past `id` appends the row stored under `id`, if there is one. */
  lemma ListsBelowNext(ms: seq<Movie>, rows: map<int, MovieRow>, id: int)
    requires ListsBelow(ms, rows, id)
    ensures id in rows ==> ListsBelow(ms + [Movie(id, rows[id].title, rows[id].releaseDate)], rows, id + 1)
    ensures id !in rows ==> ListsBelow(ms, rows, id + 1)
  {
    if id in rows {
      var ms' := ms + [Movie(id, rows[id].title, rows[id].releaseDate)];
      assert forall i :: 0 <= i < |ms| ==> ms'[i] == ms[i];
      assert ms'[|ms|].id == id;
    }
  }

  /** A listing of every id below a bound above all stored ids lists the whole table. */
  lemma ListsBelowAll(ms: seq<Movie>, s: TableState)
    requires s.Valid() && ListsBelow(ms, s.rows, s.nextId)
    ensures ListsTable(ms, s)
  {
    assert forall i, j :: 0 <= i < j < |ms| ==> ms[i].id < ms[j].id;
  }

  /** A query or a commit that raised. */
  datatype StoreError = StoreError

  /** The `movies` table as the session changes it in place. */
  class MovieTable {
    var rows: map<int, MovieRow>
    var nextId: int

    function State(): TableState
      reads this
    {
      TableState(rows, nextId)
    }

    ghost predicate Valid()
      reads this
    {
      State().Valid()
    }

    /** An empty table whose id sequence starts at 1. */
    constructor ()
      ensures Valid() && State() == TableState(map[], 1)
    {
      rows := map[];
      nextId := 1;
    }

    /** `Movie.query.get(id)`; `fails` says whether the query raises. */
    method Get(id: int, fails: bool) returns (r: Result<Option<Movie>, StoreError>)
      ensures r.Failure? <==> fails
      ensures r.Success? ==> (r.value.Some? <==> id in rows)
      ensures r.Success? && r.value.Some? ==> r.value.value.id == id && r.value.value.Row() == rows[id]
    {
      if fails {
        return Failure(StoreError);
      }
      if id in rows {
        r := Success(Some(Movie(id, rows[id].title, rows[id].releaseDate)));
      } else {
        r := Success(None);
      }
    }

    /** `Movie.query.all()`; `fails` says whether the query raises. */
    method All(fails: bool) returns (r: Result<seq<Movie>, StoreError>)
      requires Valid()
      ensures r.Failure? <==> fails
      ensures r.Success? ==> ListsTable(r.value, State())
    {
      if fails {
        return Failure(StoreError);
      }
      var ms: seq<Movie> := [];
      for id := 1 to nextId
        invariant ListsBelow(ms, rows, id)
      {
        ListsBelowNext(ms, rows, id);
        if id in rows {
          ms := ms + [Movie(id, rows[id].title, rows[id].releaseDate)];
        }
      }
      ListsBelowAll(ms, State());
      return Success(ms);
    }

    /** `movie.insert()`: add the row and commit; `fails` says whether the commit raises. */
    method Insert(title: string, releaseDate: ReleaseDate, fails: bool) returns (r: Result<Movie, StoreError>)
      requires Valid()
      modifies this
      ensures Valid()
      ensures r.Failure? <==> fails
      ensures r.Success? ==> r.value == Movie(old(nextId), title, releaseDate)
      ensures State() == if fails then old(State()) else Inserted(old(State()), MovieRow(title, releaseDate))
    {
      if fails {
        return Failure(StoreError);
      }
      var id := nextId;
      rows := rows[id := MovieRow(title, releaseDate)];
      nextId := nextId + 1;
      r := Success(Movie(id, title, releaseDate));
    }

    /** `movie.update()`: commit the movie's current values; `fails` says whether the commit raises. */
    method Update(movie: Movie, fails: bool) returns (ok: bool)
      requires Valid() && movie.id in rows
      modifies this
      ensures Valid()
      ensures ok == !fails
      ensures State() == if fails then old(State()) else Updated(old(State()), movie)
    {
      if fails {
        return false;
      }
      rows := rows[movie.id := movie.Row()];
      ok := true;
    }

    /** `movie.delete()`: delete the movie's row and commit; `fails` says whether the commit raises. */
    method Delete(movie: Movie, fails: bool) returns (ok: bool)
      requires Valid() && movie.id in rows
      modifies this
      ensures Valid()
      ensures ok == !fails
      ensures State() == if fails then old(State()) else Deleted(old(State()), movie.id)
    {
      if fails {
        return false;
      }
      rows := rows - {movie.id};
      ok := true;
    }
  }
}
