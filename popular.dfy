/** The record projection of `fetch_popular_movies` in main_program.py.

    Where the Python code would raise (a KeyError for a missing "id" or
    "title", a TypeError or AttributeError for a value of the wrong JSON
    type), the model returns None. */
module Popular {
  import opened Wrappers
  import opened Json
  import opened Http

  /** One movie as handed to the template. */
  datatype Card = Card(id: Value, title: Value, year: Value, rating: Value, description: Value)

  /** `fields.get(name, default)`. */
  function GetOr(fields: map<string, Value>, name: string, default: Value): Value {
    if name in fields then fields[name] else default
  }

  /** `v[:4]` for the values Python can slice; None where it raises. */
  function FirstFour(v: Value): Option<Value> {
    match v
    case JString(s) => Some(JString(if |s| <= 4 then s else s[..4]))
    case JArray(items) => Some(JArray(if |items| <= 4 then items else items[..4]))
    case _ => None
  }

  /** The dict built for one element of "results". */
  function ProjectMovie(movie: Value): (card: Option<Card>)
    // Python raises unless the movie is a dict with "id" and "title" and a sliceable date
    ensures card.Some? <==>
      && movie.JObject? && "id" in movie.fields && "title" in movie.fields
      && ("release_date" in movie.fields ==>
            movie.fields["release_date"].JString? || movie.fields["release_date"].JArray?)
    ensures card.Some? ==> card.value.id == movie.fields["id"] && card.value.title == movie.fields["title"]
  {
    match movie
    case JObject(f) =>
      if "id" in f && "title" in f then
        match FirstFour(GetOr(f, "release_date", JString("Unknown")))
        case Some(year) =>
          Some(Card(f["id"], f["title"], year,
                    GetOr(f, "vote_average", JString("N/A")),
                    GetOr(f, "overview", JString("No description available."))))
        case None => None
      else None
    case _ => None
  }

  /** The list comprehension: one card per movie, in order, or None as soon
      as one movie cannot be projected. */
  function ProjectAll(movies: seq<Value>): (r: Option<seq<Card>>)
    ensures r.Some? <==> forall i :: 0 <= i < |movies| ==> ProjectMovie(movies[i]).Some?
    ensures r.Some? ==> |r.value| == |movies|
    ensures r.Some? ==> forall i :: 0 <= i < |movies| ==> ProjectMovie(movies[i]) == Some(r.value[i])
    decreases |movies|
  {
    if movies == [] then Some([])
    else
      match (ProjectMovie(movies[0]), ProjectAll(movies[1..]))
      case (Some(card), Some(cards)) =>
        assert forall i :: 1 <= i < |movies| ==> movies[i] == movies[1..][i - 1];
        Some([card] + cards)
      case (None, _) => None
      case (_, None) =>
        assert forall i :: 0 <= i < |movies| - 1 ==> movies[1..][i] == movies[i + 1];
        None
  }

  /** `for movie in results`: a list is walked element by element; an empty
      string or dict yields nothing; iterating anything else reaches a
      subscript or iteration that raises. */
  function ProjectResults(results: Value): (cards: Option<seq<Card>>)
    // cards come only from a list, one per element
    ensures cards.Some? && cards.value != [] ==> results.JArray? && |cards.value| == |results.items|
    ensures results.JArray? ==> (cards.Some? <==> forall i :: 0 <= i < |results.items| ==> ProjectMovie(results.items[i]).Some?)
    // an empty dict or string yields no cards; other non-lists raise
    ensures !results.JArray? ==> (cards.Some? <==> results == JObject(map[]) || results == JString(""))
    ensures !results.JArray? && cards.Some? ==> cards.value == []
  {
    match results
    case JArray(items) => ProjectAll(items)
    case JObject(fields) => if fields == map[] then Some([]) else None
    case JString(s) => if s == "" then Some([]) else None
    case _ => None
  }

  /** `fetch_popular_movies` after the HTTP GET. */
  function FetchPopularMovies(resp: Response): (movies: Option<seq<Card>>)
    // a failed request gives the empty list
    ensures resp.status != 200 ==> movies == Some([])
    // `.get` on a body that is not a dict raises
    ensures resp.status == 200 && !resp.body.JObject? ==> movies == None
    // a body without "results" gives the empty list
    ensures resp.status == 200 && resp.body.JObject? && "results" !in resp.body.fields ==> movies == Some([])
    // a list of well-formed results gives one card per result, in order
    ensures resp.status == 200 && resp.body.JObject? && "results" in resp.body.fields
            && resp.body.fields["results"].JArray?
            && (forall i :: 0 <= i < |resp.body.fields["results"].items| ==>
                  ProjectMovie(resp.body.fields["results"].items[i]).Some?)
            ==> var results := resp.body.fields["results"].items;
                && movies.Some? && |movies.value| == |results|
                && forall i :: 0 <= i < |results| ==> ProjectMovie(results[i]) == Some(movies.value[i])
  {
    if resp.status == 200 then
      match resp.body
      case JObject(f) => ProjectResults(GetOr(f, "results", JArray([])))
      case _ => None
    else Some([])
  }

  /** The fields of a card: id and title copied; year the first four
      characters of "release_date", or "Unkn" when it is missing; rating and
      description copied or defaulted. */
  lemma CardFields(f: map<string, Value>)
    requires "id" in f && "title" in f
    requires "release_date" in f ==> f["release_date"].JString?
    ensures var card := ProjectMovie(JObject(f));
      && card.Some?
      && card.value.id == f["id"] && card.value.title == f["title"]
      && ("release_date" !in f ==> card.value.year == JString("Unkn"))
      && ("release_date" in f ==>
            var date := f["release_date"].s;
            card.value.year.JString?
            && |card.value.year.s| == (if |date| < 4 then |date| else 4)
            && card.value.year.s <= date)
      && card.value.rating == (if "vote_average" in f then f["vote_average"] else JString("N/A"))
      && card.value.description == (if "overview" in f then f["overview"] else JString("No description available."))
  {
  }

  /** A movie without "id" or "title" makes the whole list fail. */
  lemma MissingKeyFails(movies: seq<Value>, i: nat)
    requires i < |movies| && movies[i].JObject?
    requires "id" !in movies[i].fields || "title" !in movies[i].fields
    ensures ProjectAll(movies) == None
  {
  }
}
