/**
 * The movie endpoints of the casting agency API: each route is guarded by
 * the bearer-token gate with its own permission, then runs its handler
 * against the `movies` table; every `abort` becomes the JSON error body of
 * the handler registered for its status.
 */
module App {
  import opened Wrappers
  import Json
  import Auth
  import opened Models

  // ---------------------------------------------------------------------
  // Responses
  // ---------------------------------------------------------------------

  /** An HTTP response: its status code and its JSON body. */
  datatype Response = Response(status: int, body: Json.Value)

  /** The `abort` calls of the handlers, each caught by the error handler registered for its status. */
  datatype HttpError =
    | BadRequest
    | Unauthorized(description: Json.Value)
    | Forbidden
    | NotFound
    | Unprocessable
    | ServerError

  /** The status an abort carries; `ServerError` also stands for any exception nothing catches. */
  function Status(e: HttpError): int {
    match e
    case BadRequest => 400
    case Unauthorized(_) => 401
    case Forbidden => 403
    case NotFound => 404
    case Unprocessable => 422
    case ServerError => 500
  }

  /** A body reporting success, as every handler builds it. */
  predicate Succeeded(r: Response) {
    r.body.Object? && "success" in r.body.fields && r.body.fields["success"] == Json.Bool(true)
  }

  /** The body holds `value` under `key`. */
  predicate Carries(r: Response, key: string, value: Json.Value) {
    r.body.Object? && key in r.body.fields && r.body.fields[key] == value
  }

  /**
   * The error handlers: a body `{"success": false, "error": <status>,
   * "message": ...}` sent with that status; the 401 handler echoes the
   * abort's description, the others send a fixed message.
   */
  function ErrorResponse(e: HttpError): (r: Response)
    ensures r.status == Status(e) && !Succeeded(r)
    ensures r.body.Object? && r.body.fields.Keys == {"success", "error", "message"}
    ensures r.body.fields["success"] == Json.Bool(false) && r.body.fields["error"] == Json.Int(r.status)
    ensures e == BadRequest ==> r.body.fields["message"] == Json.Str("bad request")
    ensures e.Unauthorized? ==> r.body.fields["message"] == e.description
    ensures e == Forbidden ==> r.body.fields["message"] == Json.Str("forbidden")
    ensures e == NotFound ==> r.body.fields["message"] == Json.Str("resource not found")
    ensures e == Unprocessable ==> r.body.fields["message"] == Json.Str("unprocessable")
    ensures e == ServerError ==> r.body.fields["message"] == Json.Str("internal server error")
  {
    var message := match e
      case BadRequest => Json.Str("bad request")
      case Unauthorized(description) => description
      case Forbidden => Json.Str("forbidden")
      case NotFound => Json.Str("resource not found")
      case Unprocessable => Json.Str("unprocessable")
      case ServerError => Json.Str("internal server error");
    Response(Status(e), Json.Object(map["success" := Json.Bool(false), "error" := Json.Int(Status(e)), "message" := message]))
  }

  /** A client can tell from an error response which abort produced it. */
  lemma ErrorResponseIdentifiesError(e1: HttpError, e2: HttpError)
    requires ErrorResponse(e1) == ErrorResponse(e2)
    ensures e1 == e2
  {
    assert Status(e1) == ErrorResponse(e1).status == ErrorResponse(e2).status == Status(e2);
    assert ErrorResponse(e1).body.fields["message"] == ErrorResponse(e2).body.fields["message"];
  }

  /** A successful handler's body: `{"success": true, key: value}`. */
  function SuccessResponse(status: int, key: string, value: Json.Value): (r: Response)
    requires key != "success"
    ensures r.status == status && Succeeded(r)
    ensures r.body.fields.Keys == {"success", key} && r.body.fields[key] == value
  {
    Response(status, Json.Object(map["success" := Json.Bool(true), key := value]))
  }

  /** The error dict of an `AuthError`, which the gate passes to `abort(401, ...)`. */
  function ErrorDict(err: Auth.AuthError): (j: Json.Value)
    ensures j.Object? && j.fields.Keys == {"code", "description"}
    ensures j.fields["code"] == Json.Str(err.code) && j.fields["description"] == Json.Str(err.description)
  {
    Json.Object(map["code" := Json.Str(err.code), "description" := Json.Str(err.description)])
  }

  // ---------------------------------------------------------------------
  // Routes and permissions
  // ---------------------------------------------------------------------

  const GET_MOVIES := "get:movies"
  const POST_MOVIES := "post:movies"
  const PATCH_MOVIES := "patch:movies"
  const DELETE_MOVIES := "delete:movies"

  /** The movie routes; `<int:id>` in the URL only matches non-negative integers. */
  datatype Route = ListMovies | ShowMovie(id: nat) | CreateMovie | PatchMovie(id: nat) | RemoveMovie(id: nat)

  /** The permission each route's gate requires. */
  function RequiredPermission(route: Route): (p: string)
    ensures p in {GET_MOVIES, POST_MOVIES, PATCH_MOVIES, DELETE_MOVIES}
    ensures (p == GET_MOVIES) <==> (route.ListMovies? || route.ShowMovie?)
    ensures (p == POST_MOVIES) <==> route.CreateMovie?
    ensures (p == PATCH_MOVIES) <==> route.PatchMovie?
    ensures (p == DELETE_MOVIES) <==> route.RemoveMovie?
  {
    match route
    case ListMovies => GET_MOVIES
    case ShowMovie(_) => GET_MOVIES
    case CreateMovie => POST_MOVIES
    case PatchMovie(_) => PATCH_MOVIES
    case RemoveMovie(_) => DELETE_MOVIES
  }

  /** The fields `data.get(...)` finds in the JSON body; `None` when the key is absent or null. */
  datatype MovieBody = MovieBody(title: Option<string>, releaseDate: Option<ReleaseDate>)

  /** A request: its `Authorization` header and its JSON body. */
  datatype Request = Request(authorization: Option<string>, body: MovieBody)

  /** Whether the handler's query (`Movie.query.get` / `.all`) and its commit raise. */
  datatype Faults = Faults(queryFails: bool, commitFails: bool)

  /** A handler's response together with the table it leaves behind. */
  datatype Outcome = Outcome(response: Response, after: TableState)

  // ---------------------------------------------------------------------
  // What each handler does
  // ---------------------------------------------------------------------

  /** The movies in the order the query gave them, formatted. */
  function FormatAll(ms: seq<Movie>): (js: seq<Json.Value>)
    ensures |js| == |ms| && forall i :: 0 <= i < |ms| ==> js[i] == Format(ms[i])
  {
    seq(|ms|, i requires 0 <= i < |ms| => Format(ms[i]))
  }

  /** `GET /movies`: every movie once, in whatever order the query gives; 500 when the query raises. */
  ghost predicate MoviesListed(s: TableState, faults: Faults, r: Response) {
    if faults.queryFails then r == ErrorResponse(ServerError)
    else exists ms :: ListsTable(ms, s) && r == SuccessResponse(200, "movies", Json.Array(FormatAll(ms)))
  }

  /** `GET /movies/<id>`: 422 when the query raises, 404 for an unknown id. */
  function MovieByIdResponse(s: TableState, id: nat, faults: Faults): (r: Response)
    ensures faults.queryFails ==> r == ErrorResponse(Unprocessable)
    ensures !faults.queryFails && id !in s.rows ==> r == ErrorResponse(NotFound)
    ensures Succeeded(r) <==> !faults.queryFails && id in s.rows
    ensures Succeeded(r) ==> r.status == 200 && Carries(r, "movie", Format(Movie(id, s.rows[id].title, s.rows[id].releaseDate)))
  {
    if faults.queryFails then ErrorResponse(Unprocessable)
    else match s.Get(id)
      case None => ErrorResponse(NotFound)
      case Some(movie) => SuccessResponse(200, "movie", Format(movie))
  }

  /**
   * `POST /movies`: 400 when the title or the release date is missing (an
   * empty title is accepted), 422 when the commit raises, otherwise 201 with
   * the new movie under the next id.
   */
  function AddMovieOutcome(s: TableState, body: MovieBody, faults: Faults): (o: Outcome)
    requires s.Valid()
    ensures o.after.Valid()
    ensures body.title.None? || body.releaseDate.None? ==> o.response == ErrorResponse(BadRequest)
    ensures body.title.Some? && body.releaseDate.Some? && faults.commitFails ==> o.response == ErrorResponse(Unprocessable)
    ensures Succeeded(o.response) <==> body.title.Some? && body.releaseDate.Some? && !faults.commitFails
    ensures !Succeeded(o.response) ==> o.after == s
    ensures Succeeded(o.response) ==>
      && o.response.status == 201
      && o.after == Inserted(s, MovieRow(body.title.value, body.releaseDate.value))
      && Carries(o.response, "movie", Format(Movie(s.nextId, body.title.value, body.releaseDate.value)))
  {
    if body.title.None? || body.releaseDate.None? then Outcome(ErrorResponse(BadRequest), s)
    else if faults.commitFails then Outcome(ErrorResponse(Unprocessable), s)
    else
      var movie := Movie(s.nextId, body.title.value, body.releaseDate.value);
      Outcome(SuccessResponse(201, "movie", Format(movie)), Inserted(s, movie.Row()))
  }

  /**
   * `PATCH /movies/<id>`: 500 when the query raises, 404 for an unknown id
   * (checked before the body), 400 when a field is missing, 422 when the
   * commit raises, otherwise 200 with the movie's new values.
   */
  function UpdateMovieOutcome(s: TableState, id: nat, body: MovieBody, faults: Faults): (o: Outcome)
    requires s.Valid()
    ensures o.after.Valid()
    ensures faults.queryFails ==> o.response == ErrorResponse(ServerError)
    ensures !faults.queryFails && id !in s.rows ==> o.response == ErrorResponse(NotFound)
    ensures !faults.queryFails && id in s.rows && (body.title.None? || body.releaseDate.None?) ==>
      o.response == ErrorResponse(BadRequest)
    ensures !faults.queryFails && id in s.rows && body.title.Some? && body.releaseDate.Some? && faults.commitFails ==>
      o.response == ErrorResponse(Unprocessable)
    ensures Succeeded(o.response) <==>
      !faults.queryFails && id in s.rows && body.title.Some? && body.releaseDate.Some? && !faults.commitFails
    ensures !Succeeded(o.response) ==> o.after == s
    ensures Succeeded(o.response) ==>
      && o.response.status == 200
      && o.after == Updated(s, Movie(id, body.title.value, body.releaseDate.value))
      && Carries(o.response, "movie", Format(Movie(id, body.title.value, body.releaseDate.value)))
  {
    if faults.queryFails then Outcome(ErrorResponse(ServerError), s)
    else if id !in s.rows then Outcome(ErrorResponse(NotFound), s)
    else if body.title.None? || body.releaseDate.None? then Outcome(ErrorResponse(BadRequest), s)
    else if faults.commitFails then Outcome(ErrorResponse(Unprocessable), s)
    else
      var movie := Movie(id, body.title.value, body.releaseDate.value);
      Outcome(SuccessResponse(200, "movie", Format(movie)), Updated(s, movie))
  }

  /**
   * `DELETE /movies/<id>`: 500 when the query raises, 404 for an unknown id,
   * 500 when the commit raises, otherwise 200 echoing the id.
   */
  function DeleteMovieOutcome(s: TableState, id: nat, faults: Faults): (o: Outcome)
    requires s.Valid()
    ensures o.after.Valid()
    ensures faults.queryFails ==> o.response == ErrorResponse(ServerError)
    ensures !faults.queryFails && id !in s.rows ==> o.response == ErrorResponse(NotFound)
    ensures !faults.queryFails && id in s.rows && faults.commitFails ==> o.response == ErrorResponse(ServerError)
    ensures Succeeded(o.response) <==> !faults.queryFails && id in s.rows && !faults.commitFails
    ensures !Succeeded(o.response) ==> o.after == s
    ensures Succeeded(o.response) ==>
      o.response.status == 200 && o.after == Deleted(s, id) && Carries(o.response, "delete", Json.Int(id))
  {
    if faults.queryFails then Outcome(ErrorResponse(ServerError), s)
    else if id !in s.rows then Outcome(ErrorResponse(NotFound), s)
    else if faults.commitFails then Outcome(ErrorResponse(ServerError), s)
    else Outcome(SuccessResponse(200, "delete", Json.Int(id)), Deleted(s, id))
  }

  // ---------------------------------------------------------------------
  // Properties across requests
  // ---------------------------------------------------------------------

  /** The ids a listing holds. */
  ghost function Ids(ms: seq<Movie>): set<int> {
    set i | 0 <= i < |ms| :: ms[i].id
  }

  /** A listing without repeated ids has as many entries as distinct ids. */
  lemma {:induction false} DistinctIdsCount(ms: seq<Movie>)
    requires forall i, j :: 0 <= i < j < |ms| ==> ms[i].id != ms[j].id
    ensures |Ids(ms)| == |ms|
  {
    if ms != [] {
      var init := ms[..|ms| - 1];
      assert forall i :: 0 <= i < |init| ==> init[i] == ms[i];
      DistinctIdsCount(init);
      assert Ids(ms) == Ids(init) + {ms[|ms| - 1].id};
      assert ms[|ms| - 1].id !in Ids(init);
    }
  }

  /** `GET /movies` lists exactly as many movies as the table holds. */
  lemma ListingHasEveryRowOnce(ms: seq<Movie>, s: TableState)
    requires ListsTable(ms, s)
    ensures |ms| == |s.rows|
  {
    DistinctIdsCount(ms);
    forall id | id in s.rows
      ensures id in Ids(ms)
    {
      var i :| 0 <= i < |ms| && ms[i].id == id;
    }
    assert Ids(ms) == s.rows.Keys;
  }

  /**
   * A listing taken after a `DELETE` has one movie fewer than one taken
   * before it when the delete succeeded, and as many when it did not.
   */
  lemma DeleteChangesListingLength(s: TableState, id: nat, faults: Faults, before: seq<Movie>, after: seq<Movie>)
    requires s.Valid() && ListsTable(before, s)
    requires ListsTable(after, DeleteMovieOutcome(s, id, faults).after)
    ensures Succeeded(DeleteMovieOutcome(s, id, faults).response) ==> |before| - |after| == 1
    ensures !Succeeded(DeleteMovieOutcome(s, id, faults).response) ==> |before| == |after|
  {
    ListingHasEveryRowOnce(before, s);
    ListingHasEveryRowOnce(after, DeleteMovieOutcome(s, id, faults).after);
  }

  /** The movie a `POST` created is what a later `GET /movies/<id>` of its id shows. */
  lemma CreatedMovieIsShown(s: TableState, body: MovieBody, faults: Faults, readFaults: Faults)
    requires s.Valid() && Succeeded(AddMovieOutcome(s, body, faults).response) && !readFaults.queryFails
    ensures
      var created := AddMovieOutcome(s, body, faults);
      var shown := Format(Movie(s.nextId, body.title.value, body.releaseDate.value));
      Carries(created.response, "movie", shown)
      && MovieByIdResponse(created.after, s.nextId, readFaults) == SuccessResponse(200, "movie", shown)
  {
  }

  /** After a `PATCH`, `GET /movies/<id>` shows the values it sent. */
  lemma UpdatedMovieIsShown(s: TableState, id: nat, body: MovieBody, faults: Faults, readFaults: Faults)
    requires s.Valid() && Succeeded(UpdateMovieOutcome(s, id, body, faults).response) && !readFaults.queryFails
    ensures
      var updated := UpdateMovieOutcome(s, id, body, faults);
      var shown := Format(Movie(id, body.title.value, body.releaseDate.value));
      Carries(updated.response, "movie", shown)
      && MovieByIdResponse(updated.after, id, readFaults) == SuccessResponse(200, "movie", shown)
  {
  }

  /** After a `DELETE`, the movie is gone: reading it and deleting it again both give 404. */
  lemma DeletedMovieIsGone(s: TableState, id: nat, faults: Faults, later: Faults)
    requires s.Valid() && Succeeded(DeleteMovieOutcome(s, id, faults).response) && !later.queryFails
    ensures MovieByIdResponse(DeleteMovieOutcome(s, id, faults).after, id, later) == ErrorResponse(NotFound)
    ensures DeleteMovieOutcome(DeleteMovieOutcome(s, id, faults).after, id, later).response == ErrorResponse(NotFound)
  {
  }

  /** A `PATCH` sending a movie's current values leaves the table as it was. */
  lemma PatchWithCurrentValuesKeepsTable(s: TableState, id: nat, faults: Faults)
    requires s.Valid() && id in s.rows
    ensures
      var body := MovieBody(Some(s.rows[id].title), Some(s.rows[id].releaseDate));
      UpdateMovieOutcome(s, id, body, faults).after == s
  {
    assert s.rows[id := MovieRow(s.rows[id].title, s.rows[id].releaseDate)] == s.rows;
  }

  /** Creating a movie and deleting it again restores every row; only the id sequence has moved on. */
  lemma CreateThenDeleteRestoresRows(s: TableState, body: MovieBody, faults: Faults, deleteFaults: Faults)
    requires s.Valid() && Succeeded(AddMovieOutcome(s, body, faults).response)
    requires !deleteFaults.queryFails && !deleteFaults.commitFails
    ensures
      var created := AddMovieOutcome(s, body, faults);
      var deleted := DeleteMovieOutcome(created.after, s.nextId, deleteFaults);
      Succeeded(deleted.response) && deleted.after.rows == s.rows && deleted.after.nextId == s.nextId + 1
  {
    var created := AddMovieOutcome(s, body, faults);
    assert created.after.rows - {s.nextId} == s.rows;
  }

  // ---------------------------------------------------------------------
  // The gate in front of every route
  // ---------------------------------------------------------------------

  /** The payload, as the gate hands it to the handler. */
  function Identity(p: Auth.Payload): Auth.Payload {
    p
  }

  /** `requires_auth` with the route's permission, applied to the request's header. */
  function Gate(route: Route, req: Request, idp: Auth.IdentityProvider): (g: Auth.Guarded<Auth.Payload>)
    ensures g.Invoked? ==> g.result.permissions.Some? && RequiredPermission(route) in g.result.permissions.value
    ensures g.Aborted? ==> g.status == 401
    ensures req.authorization.None? ==> g == Auth.Aborted(401, Auth.HEADER_MISSING)
  {
    Auth.RequiresAuth(RequiredPermission(route), Identity, req.authorization, idp)
  }

  /** The response to a request the gate stops: 401 with the `AuthError`'s dict, or 500 for any other exception. */
  function Refusal(g: Auth.Guarded<Auth.Payload>): (r: Response)
    requires !g.Invoked?
    ensures g.Aborted? ==> r == ErrorResponse(Unauthorized(ErrorDict(g.error))) && r.status == 401
    ensures g.Crashed? ==> r == ErrorResponse(ServerError) && r.status == 500
  {
    if g.Aborted? then ErrorResponse(Unauthorized(ErrorDict(g.error))) else ErrorResponse(ServerError)
  }

  /** A request without an `Authorization` header is refused with 401, whichever route it asks for. */
  lemma MissingTokenRefused(route: Route, body: MovieBody, idp: Auth.IdentityProvider)
    ensures Gate(route, Request(None, body), idp) == Auth.Aborted(401, Auth.HEADER_MISSING)
    ensures Refusal(Gate(route, Request(None, body), idp)).status == 401
  {
    Auth.MissingHeaderAborts(RequiredPermission(route), Identity, idp);
  }

  /** A verified token granting only `get:movies` may read but is refused every write with 401. */
  lemma ReadOnlyTokenCannotWrite(route: Route, req: Request, idp: Auth.IdentityProvider, payload: Auth.Payload)
    requires Auth.GetTokenAuthHeader(req.authorization).Success?
    requires Auth.VerifyDecodeJwt(Auth.GetTokenAuthHeader(req.authorization).value, idp) == Auth.Pass(payload)
    requires payload.permissions == Some([GET_MOVIES])
    ensures (route.ListMovies? || route.ShowMovie?) ==> Gate(route, req, idp) == Auth.Invoked(payload)
    ensures !(route.ListMovies? || route.ShowMovie?) ==> Gate(route, req, idp) == Auth.Aborted(401, Auth.PERMISSION_NOT_FOUND)
  {
  }

  /** What a route's handler does once the gate has let the request through. */
  ghost predicate Serves(route: Route, body: MovieBody, faults: Faults, s: TableState, r: Response, t: TableState)
    requires s.Valid()
  {
    match route
    case ListMovies => t == s && MoviesListed(s, faults, r)
    case ShowMovie(id) => t == s && r == MovieByIdResponse(s, id, faults)
    case CreateMovie => Outcome(r, t) == AddMovieOutcome(s, body, faults)
    case PatchMovie(id) => Outcome(r, t) == UpdateMovieOutcome(s, id, body, faults)
    case RemoveMovie(id) => Outcome(r, t) == DeleteMovieOutcome(s, id, faults)
  }

  /** Whatever a request asks for, a response that does not report success leaves the table as it was. */
  lemma FailedRequestChangesNothing(route: Route, body: MovieBody, faults: Faults, s: TableState, r: Response, t: TableState)
    requires s.Valid() && Serves(route, body, faults, s, r, t) && !Succeeded(r)
    ensures t == s
  {
  }

  // ---------------------------------------------------------------------
  // The handlers
  // ---------------------------------------------------------------------

  /** `get_movies`. */
  method GetMovies(db: MovieTable, faults: Faults) returns (resp: Response)
    requires db.Valid()
    ensures MoviesListed(db.State(), faults, resp)
  {
    var movies := db.All(faults.queryFails);
    match movies
    case Failure(_) =>
      resp := ErrorResponse(ServerError);
    case Success(ms) =>
      resp := SuccessResponse(200, "movies", Json.Array(FormatAll(ms)));
  }

  /** `get_movie_by_id`. */
  method GetMovieById(db: MovieTable, id: nat, faults: Faults) returns (resp: Response)
    ensures resp == MovieByIdResponse(db.State(), id, faults)
  {
    var found := db.Get(id, faults.queryFails);
    match found
    case Failure(_) =>
      resp := ErrorResponse(Unprocessable);
    case Success(None) =>
      resp := ErrorResponse(NotFound);
    case Success(Some(movie)) =>
      resp := SuccessResponse(200, "movie", Format(movie));
  }

  /** `add_movie`. */
  method AddMovie(db: MovieTable, body: MovieBody, faults: Faults) returns (resp: Response)
    requires db.Valid()
    modifies db
    ensures db.Valid()
    ensures Outcome(resp, db.State()) == AddMovieOutcome(old(db.State()), body, faults)
  {
    if body.title.None? || body.releaseDate.None? {
      return ErrorResponse(BadRequest);
    }
    var inserted := db.Insert(body.title.value, body.releaseDate.value, faults.commitFails);
    match inserted
    case Failure(_) =>
      resp := ErrorResponse(Unprocessable);
    case Success(movie) =>
      resp := SuccessResponse(201, "movie", Format(movie));
  }

  /** `update_movie`. */
  method UpdateMovie(db: MovieTable, id: nat, body: MovieBody, faults: Faults) returns (resp: Response)
    requires db.Valid()
    modifies db
    ensures db.Valid()
    ensures Outcome(resp, db.State()) == UpdateMovieOutcome(old(db.State()), id, body, faults)
  {
    var found := db.Get(id, faults.queryFails);
    if found.Failure? {
      return ErrorResponse(ServerError);
    }
    if found.value.None? {
      return ErrorResponse(NotFound);
    }
    if body.title.None? || body.releaseDate.None? {
      return ErrorResponse(BadRequest);
    }
    var movie := Movie(found.value.value.id, body.title.value, body.releaseDate.value);
    var ok := db.Update(movie, faults.commitFails);
    if !ok {
      return ErrorResponse(Unprocessable);
    }
    resp := SuccessResponse(200, "movie", Format(movie));
  }

  /** `delete_movie`. */
  method DeleteMovie(db: MovieTable, id: nat, faults: Faults) returns (resp: Response)
    requires db.Valid()
    modifies db
    ensures db.Valid()
    ensures Outcome(resp, db.State()) == DeleteMovieOutcome(old(db.State()), id, faults)
  {
    var found := db.Get(id, faults.queryFails);
    if found.Failure? {
      return ErrorResponse(ServerError);
    }
    if found.value.None? {
      return ErrorResponse(NotFound);
    }
    var ok := db.Delete(found.value.value, faults.commitFails);
    if !ok {
      return ErrorResponse(ServerError);
    }
    resp := SuccessResponse(200, "delete", Json.Int(id));
  }

  /** A request to one of the movie routes: the gate first, then the route's handler. */
  method Handle(db: MovieTable, route: Route, req: Request, idp: Auth.IdentityProvider, faults: Faults)
    returns (resp: Response)
    requires db.Valid()
    modifies db
    ensures db.Valid()
    ensures !Gate(route, req, idp).Invoked? ==> resp == Refusal(Gate(route, req, idp)) && db.State() == old(db.State())
    ensures Gate(route, req, idp).Invoked? ==> Serves(route, req.body, faults, old(db.State()), resp, db.State())
  {
    var gate := Gate(route, req, idp);
    if !gate.Invoked? {
      return Refusal(gate);
    }
    match route
    case ListMovies =>
      resp := GetMovies(db, faults);
    case ShowMovie(id) =>
      resp := GetMovieById(db, id, faults);
    case CreateMovie =>
      resp := AddMovie(db, req.body, faults);
    case PatchMovie(id) =>
      resp := UpdateMovie(db, id, req.body, faults);
    case RemoveMovie(id) =>
      resp := DeleteMovie(db, id, faults);
  }
}
