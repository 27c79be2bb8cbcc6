# Movie site: cache-aside details lookup, Redis cache, accounts and list logic

A Dafny model of the logic of a small Flask movie site.

- **Cache** (`details_microservice/cache.py`): the Redis database is a map from key to entry (value, expiry second) plus a clock in whole seconds. `CacheClient` is the module-level `redis_client`, with `GetFromCache`, `SetInCache` (default ttl `CacheTtl` = 3600 s), `DeleteFromCache` and `ClearCache`. Each method's new state is given by a pure function of the old one: `Lookup`, `Put` (SETEX), `Remove` (DEL), `Flush` (FLUSHDB). `Run` replays a sequence of such calls, with time passing between them, and the lemmas about it give durability within the ttl and expiry after it. `get_from_cache` returns Python `None` both for a missing or expired key and for a stored JSON `null`. The model keeps that conflation: it returns `JNull` in all three cases.
- **Details lookup** (`details_microservice/app.py`): `GetMovieDetails` checks the cache. A truthy cached value is returned with status 200. Otherwise TMDB is asked. A truthy payload from a 200 response is stored for `CacheTtl` and returned with status 200. Anything else gives the 404 `{"error": "Movie not found"}` and writes nothing. TMDB is a `Tmdb` object that logs every request and answers the n-th with `respond(id, n)`. The lemmas can therefore count requests and allow any pattern of failures. `Serve` is the pure description of one lookup (reply, store afterwards, whether TMDB was asked). The method is proved against it, and the lemmas state the hit, miss and failure rules about it. The code treats a falsy stored value (an empty dict, say) as a miss, and the model does the same. A stored payload that is not valid JSON is different in the code: `json.loads` raises, and the error reaches the caller. Only an empty payload is skipped by `if cached_data:`. The model's store holds decoded values, so it cannot hold such a payload (see "## Left out").
- **Accounts** (`main_program.py`): `Site` holds `users_db` and the session. `CreateAccount` refuses a taken name and otherwise adds exactly one entry. `Login` does nothing for a visitor who is already logged in, and otherwise logs in exactly when the stored password matches. `Logout` drops the user from the session.
- **Search** (`main_program.py`): the genre, year and minimum-rating comprehensions as `Where` over an arbitrary candidate list. The chain is proved equal to one order-preserving pass (`WhereAll`) that keeps exactly the candidates meeting every filled-in filter. Running the search again on its own results changes nothing.
- **Popular movies** (`main_program.py`): the projection of TMDB "popular" results into cards, with the defaults and the 4-character year slice. A non-200 status gives the empty list. Where the Python code would raise (a missing `id` or `title`, a value of the wrong JSON type), the model gives `None`.

JSON values are the `Json.Value` datatype, with Python truthiness (`Json.Truthy`).

## Model

| member | source | states |
|---|---|---|
| Cache.Lookup | details_microservice/cache.py:18-21 | GET then json.loads: a never-set or expired key reads as None; a fresh key reads as the value stored |
| Cache.Put | details_microservice/cache.py:25 | SETEX: the key reads as the new value at once; every other key's presence, entry and reading are unchanged; a non-positive ttl leaves the store as it was; the clock is kept |
| Cache.Remove | details_microservice/cache.py:29 | DEL: the key reads as None and every other key reads as before; deleting an absent key leaves the store equal to what it was |
| Cache.Flush | details_microservice/cache.py:33 | FLUSHDB: every key reads as None; the clock is kept |
| Cache.CacheClient.constructor | details_microservice/cache.py:13-14 | the client starts on an empty database at the given clock |
| Cache.CacheClient.GetFromCache | details_microservice/cache.py:16-21 | returns the stored value while the key is fresh and None otherwise; it changes nothing |
| Cache.CacheClient.SetInCache | details_microservice/cache.py:23-25 | the store becomes SETEX of the old one: the key's entry is replaced, expiring ttl seconds from now, ttl defaulting to 3600; other keys are untouched |
| Cache.CacheClient.DeleteFromCache | details_microservice/cache.py:27-29 | the store becomes the old one without the key |
| Cache.CacheClient.ClearCache | details_microservice/cache.py:31-33 | the store becomes empty; the clock is kept |
| Cache.PutThenLookup | details_microservice/cache.py:16-25 | after a set with ttl, a get within ttl seconds returns exactly the value set |
| Cache.PutExpires | details_microservice/cache.py:23-25 | once ttl seconds have passed after the set, a get returns None |
| Cache.PutOverwrites | details_microservice/cache.py:23-25 | a second set of a key replaces the first entirely, value and expiry |
| Cache.UntouchedStaysFresh | details_microservice/cache.py:16-33 | calls that neither set, delete nor clear a key, and last less than its remaining life, keep its entry as it was |
| Cache.SetThenGetWithinTtl | details_microservice/cache.py:16-25 | after a set, a get returns the value at any later point before the ttl runs out, whatever is done to other keys meanwhile |
| Cache.ExpiresUnlessRewritten | details_microservice/cache.py:16-33 | a key not set again reads as None once its remaining life has elapsed, whatever deletes or clears happen |
| Cache.SetThenExpires | details_microservice/cache.py:23-25 | after a set and at least ttl elapsed seconds without another set of the key, a get returns None |
| Details.MovieData | details_microservice/app.py:20-22 | a 200 response gives its body; any other status gives None |
| Details.Serve | details_microservice/app.py:24-39 | TMDB is asked exactly when the cached value is falsy (missing, expired or empty); the store afterwards is the store before or that store with one SETEX of the id; the reply is a 200 with a non-empty body or the 404 "Movie not found" |
| Details.Tmdb.Get | details_microservice/app.py:18-19 | one request is logged and answered by the provider's response for that request |
| Details.FetchMovieFromTmdb | details_microservice/app.py:16-22 | makes exactly one request and returns its body when the status is 200, None otherwise |
| Details.GetMovieDetails | details_microservice/app.py:24-39 | reply, new store and requests made are those of Serve: at most one request and at most one write |
| Details.HitSkipsTmdb | details_microservice/app.py:28-30 | a truthy cached value is returned with 200, without a request and without a write |
| Details.MissThenFound | details_microservice/app.py:33-37 | on a miss with a 200 non-empty payload, exactly that payload is stored under the id for 3600 s and returned with 200 |
| Details.MissThenNotFound | details_microservice/app.py:33-39 | on a miss that TMDB fails or answers empty, the reply is the 404 error and the store is unchanged |
| Details.RepeatWithinTtlIsHit | details_microservice/app.py:28-36 | after a lookup fetched from TMDB, a lookup of the same id within the hour is a hit with the same reply and no request |
| Details.NotFoundIsRetried | details_microservice/app.py:33-39 | a failed lookup caches nothing, so the next lookup of the id asks TMDB again |
| Details.ColdThenWarm | details_microservice/app.py:28-37 | through the methods alone: a cold lookup and a warm one a minute later both return the payload, and the number of TMDB requests is 1 |
| Accounts.Site.constructor | main_program.py:17-19 | the user table holds Bob7Bobby only and the session is empty |
| Accounts.Site.CreateAccount | main_program.py:79-85 | a taken name is refused with the table unchanged; a new one adds exactly that entry with its password and email |
| Accounts.Site.Login | main_program.py:45-60 | the outcome is already-logged-in when a user is in the session, else logged-in when the stored password matches, else invalid credentials; only a successful login changes the session (user set, made permanent) |
| Accounts.Site.Logout | main_program.py:91 | the session has no user afterwards, whether or not it had one |
| Accounts.NewAccountAuthenticates | main_program.py:51-53 | a newly created account authenticates with its password and no other account's credentials change |
| Accounts.CreateThenLogin | main_program.py:73-85 | creating an account, then trying again with the same name, then logging in: created, refused, logged in |
| Search.Where | main_program.py:166-171 | one filter keeps an order-preserving subsequence: exactly the movies meeting its criterion, each as often as it occurs |
| Search.WhereAll | main_program.py:166-171 | the one-pass reference keeps exactly the movies meeting every criterion, in order and with multiplicity |
| Search.CriteriaMeaning | main_program.py:155-171 | a movie meets the criteria exactly when its genre and year equal the given ones and its integer rating is at least the given one, for each field filled in |
| Search.SearchResults | main_program.py:166-171 | the genre/year/rating chain equals the one-pass filter over the filled-in criteria |
| Search.SearchResultsSpec | main_program.py:166-171 | the results are an order-preserving subsequence of the candidates, all meeting the filters, and every matching candidate is kept |
| Search.EmptyFieldIsIgnored | main_program.py:166-171 | for each of genre, year and rating, an empty field filters like an absent one; no filters return the candidates as they are |
| Search.SearchIdempotent | main_program.py:166-171 | applying the same filters to the results again gives the same results |
| Popular.ProjectMovie | main_program.py:29-35 | a card exists exactly when the movie is a dict with id and title whose release_date, if present, can be sliced; its id and title are the movie's |
| Popular.ProjectResults | main_program.py:27-36 | cards come only from a list, one per element, and exist exactly when every element projects; an empty dict or string gives no cards; any other non-list fails |
| Popular.FetchPopularMovies | main_program.py:21-41 | a non-200 response gives the empty list; a 200 body that is not a dict fails; one without "results" gives the empty list; a list of well-formed results gives one card per result, in order |
| Popular.ProjectAll | main_program.py:28-37 | one card per movie, in order, each the projection of its movie; None exactly when some movie cannot be projected |
| Popular.CardFields | main_program.py:29-35 | id and title are copied; year is the first up-to-4 characters of release_date, "Unkn" when missing; rating defaults to "N/A" and description to "No description available." |
| Popular.MissingKeyFails | main_program.py:30-31 | a movie without id or title makes the projection fail |

## Left out

- The HTTP calls to TMDB (`requests.get`), the URLs and the API key: TMDB is the `Tmdb` object with an arbitrary response per request. Network errors, timeouts and undecodable bodies, which raise in the code, are not modelled.
- The Redis connection, `REDIS_URL`, `load_dotenv` and connection failures: the store is an in-memory map with a clock in whole seconds. Sub-second expiry is not modelled. Redis removes expired keys itself; the model keeps them until they are overwritten, deleted or cleared, and no lookup sees them.
- JSON encoding: `json.dumps` followed by `json.loads` is taken as the identity on `Json.Value`. Numbers are opaque reals.
- A stored payload that is not valid JSON: in the code `json.loads` raises `JSONDecodeError` to the caller. The model's store holds only decoded values, so this case cannot arise in it.
- Cache.CacheClient.SetInCache: a ttl of zero or less makes Redis reply with an error that redis-py raises; the model leaves the store unchanged and does not model the exception.
- Concurrent lookups racing on a cache miss: one sequential caller is modelled.
- Flask itself: routing, templates, `flash`, `redirect`/`url_for`, `jsonify`, the GET branches that only render a form, the 30-minute session lifetime, and missing form fields (a 400 in Flask).
- Search.SearchResults: the rating filter requires the rating field and every candidate's rating to be an optional sign followed by digits. The whitespace and underscore forms that Python's `int()` also accepts are not modelled. The ValueError raised on other strings is excluded, not modelled. The query field is unused by the code and not modelled. The two hard-coded candidates are replaced by an arbitrary list.
- The flash message of `fetch_popular_movies` on failure, and the HTTP call before it.
- The call at main_program.py:114 (a Flask view called directly), `home`, `profile`, `favorites`, `remove_favorite`, `rate_movie`, `save_to_favorites`, `contact_us`, `help_support`, `faq` and `error`: page rendering and placeholder data without logic.
