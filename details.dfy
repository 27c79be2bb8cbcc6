/** The movie-details lookup of details_microservice/app.py: cache-aside
    over the cache module, with the TMDB API behind it.

    The TMDB API is a `Tmdb` object that logs every request it receives and
    answers the n-th one with `respond(movieId, n)`, so that any sequence of
    successes and failures can be described. A lookup's effect is given by
    the function `Serve`, of the store before the call and the answer TMDB
    would give if asked. */
module Details {
  import opened Json
  import opened Http
  import opened Cache

  /** The Flask response: a JSON body and an HTTP status. */
  datatype Reply = Reply(body: Value, status: int)

  const NotFound: Reply := Reply(JObject(map["error" := JString("Movie not found")]), 404)

  /** The status check of `fetch_movie_from_tmdb`: the decoded body of a 200
      response, None for any other status. */
  function MovieData(resp: Response): (data: Value)
    ensures resp.status == 200 ==> data == resp.body
    ensures resp.status != 200 ==> data == JNull
  {
    if resp.status == 200 then resp.body else JNull
  }

  class Tmdb {
    /** The movie ids requested so far, in order. */
    var requested: seq<Key>
    /** The answer to the n-th request, for the movie id it asks about. */
    const respond: (Key, nat) -> Response

    constructor (respond: (Key, nat) -> Response)
      ensures requested == [] && this.respond == respond
    {
      requested := [];
      this.respond := respond;
    }

    /** `requests.get` of the movie's URL. */
    method Get(movieId: Key) returns (resp: Response)
      modifies this
      ensures requested == old(requested) + [movieId]
      ensures resp == respond(movieId, |old(requested)|)
    {
      resp := respond(movieId, |requested|);
      requested := requested + [movieId];
    }
  }

  method FetchMovieFromTmdb(tmdb: Tmdb, movieId: Key) returns (data: Value)
    modifies tmdb
    ensures tmdb.requested == old(tmdb.requested) + [movieId]
    ensures data == MovieData(tmdb.respond(movieId, |old(tmdb.requested)|))
  {
    var resp := tmdb.Get(movieId);
    data := MovieData(resp);
  }

  /** What one lookup does: its reply, the store afterwards, and whether it
      asked TMDB. */
  datatype Step = Step(reply: Reply, store: Store, askedTmdb: bool)

  function Serve(s: Store, movieId: Key, resp: Response): (step: Step)
    // TMDB is asked exactly on a miss: the cached value is missing, expired or falsy
    ensures step.askedTmdb <==> !Truthy(Lookup(s, movieId))
    // at most one write, and only under the id looked up
    ensures step.store == s || step.store == Put(s, movieId, CacheTtl, MovieData(resp))
    // a 200 with a non-empty payload, or the 404 error
    ensures (step.reply.status == 200 && Truthy(step.reply.body)) || step.reply == NotFound
  {
    var cached := Lookup(s, movieId);
    if Truthy(cached) then Step(Reply(cached, 200), s, false)
    else
      var data := MovieData(resp);
      if Truthy(data) then Step(Reply(data, 200), Put(s, movieId, CacheTtl, data), true)
      else Step(NotFound, s, true)
  }

  method GetMovieDetails(cache: CacheClient, tmdb: Tmdb, movieId: Key) returns (reply: Reply)
    modifies cache, tmdb
    ensures var step := Serve(old(cache.State()), movieId, tmdb.respond(movieId, |old(tmdb.requested)|));
      && reply == step.reply
      && cache.State() == step.store
      && tmdb.requested == old(tmdb.requested) + (if step.askedTmdb then [movieId] else [])
  {
    var cached := cache.GetFromCache(movieId);
    if Truthy(cached) {
      return Reply(cached, 200);
    }
    var movieData := FetchMovieFromTmdb(tmdb, movieId);
    if Truthy(movieData) {
      cache.SetInCache(movieId, movieData);
      return Reply(movieData, 200);
    }
    return NotFound;
  }

  /** A hit answers from the cache: status 200, no request to TMDB, the store
      left as it was. */
  lemma HitSkipsTmdb(s: Store, movieId: Key, resp: Response)
    requires Truthy(Lookup(s, movieId))
    ensures Serve(s, movieId, resp) == Step(Reply(Lookup(s, movieId), 200), s, false)
  {
  }

  /** A miss that TMDB answers with a non-empty payload stores exactly that
      payload for one hour and returns it. */
  lemma MissThenFound(s: Store, movieId: Key, resp: Response)
    requires !Truthy(Lookup(s, movieId))
    requires resp.status == 200 && Truthy(resp.body)
    ensures Serve(s, movieId, resp).reply == Reply(resp.body, 200)
    ensures Serve(s, movieId, resp).store == Put(s, movieId, 3600, resp.body)
  {
  }

  /** A miss that TMDB cannot answer gives 404 and writes nothing. */
  lemma MissThenNotFound(s: Store, movieId: Key, resp: Response)
    requires !Truthy(Lookup(s, movieId))
    requires resp.status != 200 || !Truthy(resp.body)
    ensures Serve(s, movieId, resp) == Step(NotFound, s, true)
  {
  }

  /** A second lookup of an id that was just fetched from TMDB is a hit while
      the hour lasts: same reply, no request. */
  lemma RepeatWithinTtlIsHit(s: Store, movieId: Key, first: Response, second: Response, seconds: nat)
    requires Serve(s, movieId, first).askedTmdb && Serve(s, movieId, first).reply.status == 200
    requires seconds < CacheTtl
    ensures var later := Advance(Serve(s, movieId, first).store, seconds);
      Serve(later, movieId, second) == Step(Serve(s, movieId, first).reply, later, false)
  {
    var data := MovieData(first);
    PutThenLookup(s, movieId, CacheTtl, data, seconds);
  }

  /** A failure is not cached: the next lookup of the same id asks TMDB
      again. */
  lemma NotFoundIsRetried(s: Store, movieId: Key, first: Response, second: Response)
    requires Serve(s, movieId, first).reply == NotFound
    ensures Serve(Serve(s, movieId, first).store, movieId, second).askedTmdb
  {
  }

  /** The scenario of a cold then a warm lookup, through the methods alone. */
  method ColdThenWarm(movieId: Key, payload: Value) returns (first: Reply, second: Reply, requests: nat)
    requires Truthy(payload)
    ensures first == second == Reply(payload, 200)
    ensures requests == 1
  {
    var cache := new CacheClient(0);
    var tmdb := new Tmdb((id, n) => Response(200, payload));
    first := GetMovieDetails(cache, tmdb, movieId);
    assert tmdb.requested == [movieId];
    cache.Elapse(60);
    second := GetMovieDetails(cache, tmdb, movieId);
    requests := |tmdb.requested|;
  }
}
