/** The filter chain of `search_results` in main_program.py: candidates are
    narrowed by genre, then by year, then by minimum rating, each filter
    applied only when its form field is filled in. */
module Search {
  import opened Wrappers

  /** A candidate movie: a dict of string fields ("title", "year", "genre", "rating"). */
  type Movie = map<string, string>

  datatype Criterion = GenreIs(genre: string) | YearIs(year: string) | RatingAtLeast(min: int)

  predicate IsDigits(s: string) {
    forall i :: 0 <= i < |s| ==> '0' <= s[i] <= '9'
  }

  /** The strings `int()` is taken to accept: an optional sign and at least one digit. */
  predicate IsInteger(s: string) {
    (|s| > 0 && IsDigits(s)) || (|s| > 1 && (s[0] == '-' || s[0] == '+') && IsDigits(s[1..]))
  }

  function DigitsValue(s: string): nat
    requires IsDigits(s)
    decreases |s|
  {
    if s == [] then 0
    else 10 * DigitsValue(s[..|s| - 1]) + (s[|s| - 1] as int - '0' as int)
  }

  function ParseInt(s: string): int
    requires IsInteger(s)
  {
    if s[0] == '-' then 0 - DigitsValue(s[1..])
    else if s[0] == '+' then DigitsValue(s[1..])
    else DigitsValue(s)
  }

  /** `movie.get(field) == value`, or `int(movie.get("rating")) >= min`. */
  predicate Satisfies(m: Movie, c: Criterion) {
    match c
    case GenreIs(g) => "genre" in m && m["genre"] == g
    case YearIs(y) => "year" in m && m["year"] == y
    case RatingAtLeast(n) => "rating" in m && IsInteger(m["rating"]) && ParseInt(m["rating"]) >= n
  }

  predicate SatisfiesAll(m: Movie, cs: seq<Criterion>) {
    forall i :: 0 <= i < |cs| ==> Satisfies(m, cs[i])
  }

  /** `a` is `b` with some elements left out, the rest in their order. */
  predicate Subsequence<T(==)>(a: seq<T>, b: seq<T>)
    decreases |b|
  {
    a == [] || (b != [] && (Subsequence(a, b[1..]) || (a[0] == b[0] && Subsequence(a[1..], b[1..]))))
  }

  /** One list comprehension of the chain: the movies that meet `c`, in order. */
  function Where(ms: seq<Movie>, c: Criterion): (r: seq<Movie>)
    ensures Subsequence(r, ms)
    ensures forall m :: m in r ==> Satisfies(m, c)
    ensures forall m :: multiset(r)[m] == if Satisfies(m, c) then multiset(ms)[m] else 0
    decreases |ms|
  {
    if ms == [] then []
    else
      assert ms == [ms[0]] + ms[1..];
      if Satisfies(ms[0], c) then [ms[0]] + Where(ms[1..], c) else Where(ms[1..], c)
  }

  /** The reference: one pass keeping the movies that meet every criterion. */
  function WhereAll(ms: seq<Movie>, cs: seq<Criterion>): (r: seq<Movie>)
    ensures Subsequence(r, ms)
    ensures forall m :: m in r ==> SatisfiesAll(m, cs)
    ensures forall m :: multiset(r)[m] == if SatisfiesAll(m, cs) then multiset(ms)[m] else 0
    decreases |ms|
  {
    if ms == [] then []
    else
      assert ms == [ms[0]] + ms[1..];
      if SatisfiesAll(ms[0], cs) then [ms[0]] + WhereAll(ms[1..], cs) else WhereAll(ms[1..], cs)
  }

  /** Python's `if field:` on `request.form.get(field)`: present and non-empty. */
  predicate Given(field: Option<string>) {
    field.Some? && field.value != ""
  }

  /** What `int()` needs for the rating filter not to raise. */
  predicate RatingsParse(candidates: seq<Movie>, rating: Option<string>) {
    Given(rating) ==>
      IsInteger(rating.value) && forall m :: m in candidates ==> "rating" in m && IsInteger(m["rating"])
  }

  /** The criteria the filled-in fields switch on, in the order they apply. */
  function Criteria(genre: Option<string>, year: Option<string>, rating: Option<string>): seq<Criterion>
    requires Given(rating) ==> IsInteger(rating.value)
  {
    (if Given(genre) then [GenreIs(genre.value)] else [])
    + (if Given(year) then [YearIs(year.value)] else [])
    + (if Given(rating) then [RatingAtLeast(ParseInt(rating.value))] else [])
  }

  lemma {:induction false} WhereAllNone(ms: seq<Movie>)
    ensures WhereAll(ms, []) == ms
    decreases |ms|
  {
    if ms != [] {
      WhereAllNone(ms[1..]);
    }
  }

  /** Filtering the result of a one-pass filter by one more criterion is the
      one-pass filter with that criterion added. */
  lemma {:induction false} WhereFuse(ms: seq<Movie>, cs: seq<Criterion>, c: Criterion)
    ensures Where(WhereAll(ms, cs), c) == WhereAll(ms, cs + [c])
    decreases |ms|
  {
    if ms != [] {
      WhereFuse(ms[1..], cs, c);
      assert SatisfiesAll(ms[0], cs + [c]) <==> SatisfiesAll(ms[0], cs) && Satisfies(ms[0], c) by {
        assert forall i :: 0 <= i < |cs| ==> (cs + [c])[i] == cs[i];
        assert (cs + [c])[|cs|] == c;
      }
    }
  }

  /** One stage of the chain, switched on or off by its form field. */
  lemma StageFuse(ms: seq<Movie>, cs: seq<Criterion>, on: bool, c: Criterion)
    ensures (if on then Where(WhereAll(ms, cs), c) else WhereAll(ms, cs))
         == WhereAll(ms, cs + (if on then [c] else []))
  {
    if on {
      WhereFuse(ms, cs, c);
    } else {
      assert cs + [] == cs;
    }
  }

  /** The chain of comprehensions of `search_results`. It keeps exactly the
      candidates that meet every filled-in filter, in their original order. */
  function SearchResults(candidates: seq<Movie>, genre: Option<string>, year: Option<string>, rating: Option<string>): (r: seq<Movie>)
    requires RatingsParse(candidates, rating)
    ensures r == WhereAll(candidates, Criteria(genre, year, rating))
  {
    var gv := if Given(genre) then genre.value else "";
    var yv := if Given(year) then year.value else "";
    var min := if Given(rating) then ParseInt(rating.value) else 0;
    var byGenre := if Given(genre) then Where(candidates, GenreIs(gv)) else candidates;
    var byYear := if Given(year) then Where(byGenre, YearIs(yv)) else byGenre;
    var byRating := if Given(rating) then Where(byYear, RatingAtLeast(min)) else byYear;
    var g := if Given(genre) then [GenreIs(gv)] else [];
    var y := if Given(year) then [YearIs(yv)] else [];
    WhereAllNone(candidates);
    StageFuse(candidates, [], Given(genre), GenreIs(gv));
    assert [] + g == g;
    StageFuse(candidates, g, Given(year), YearIs(yv));
    StageFuse(candidates, g + y, Given(rating), RatingAtLeast(min));
    byRating
  }

  /** A movie meets the criteria of a filled-in form exactly when it meets
      each filled-in filter. */
  lemma CriteriaMeaning(m: Movie, genre: Option<string>, year: Option<string>, rating: Option<string>)
    requires Given(rating) ==> IsInteger(rating.value)
    ensures SatisfiesAll(m, Criteria(genre, year, rating)) <==>
      && (Given(genre) ==> "genre" in m && m["genre"] == genre.value)
      && (Given(year) ==> "year" in m && m["year"] == year.value)
      && (Given(rating) ==> "rating" in m && IsInteger(m["rating"])
                            && ParseInt(m["rating"]) >= ParseInt(rating.value))
  {
    var cs := Criteria(genre, year, rating);
    var ng := if Given(genre) then 1 else 0;
    var ny := if Given(year) then 1 else 0;
    assert |cs| == ng + ny + (if Given(rating) then 1 else 0);
    if Given(genre) { assert cs[0] == GenreIs(genre.value); }
    if Given(year) { assert cs[ng] == YearIs(year.value); }
    if Given(rating) { assert cs[ng + ny] == RatingAtLeast(ParseInt(rating.value)); }
  }

  /** Every kept movie is a candidate that meets every filled-in filter;
      every candidate that meets them all is kept, as often as it occurs;
      order is preserved. */
  lemma SearchResultsSpec(candidates: seq<Movie>, genre: Option<string>, year: Option<string>, rating: Option<string>)
    requires RatingsParse(candidates, rating)
    ensures var r := SearchResults(candidates, genre, year, rating);
      && Subsequence(r, candidates)
      && (forall m :: m in r ==> m in candidates && SatisfiesAll(m, Criteria(genre, year, rating)))
      && (forall m :: multiset(r)[m] == if SatisfiesAll(m, Criteria(genre, year, rating)) then multiset(candidates)[m] else 0)
  {
    var r := WhereAll(candidates, Criteria(genre, year, rating));
    forall m | m in r ensures m in candidates {
      assert multiset(r)[m] > 0;
    }
  }

  /** An empty field filters nothing, exactly like an absent one. */
  lemma EmptyFieldIsIgnored(candidates: seq<Movie>, genre: Option<string>, year: Option<string>, rating: Option<string>)
    requires RatingsParse(candidates, rating)
    ensures SearchResults(candidates, Some(""), year, rating) == SearchResults(candidates, None, year, rating)
    ensures SearchResults(candidates, genre, Some(""), rating) == SearchResults(candidates, genre, None, rating)
    ensures SearchResults(candidates, genre, year, Some("")) == SearchResults(candidates, genre, year, None)
    ensures SearchResults(candidates, None, None, None) == candidates
  {
    WhereAllNone(candidates);
  }

  lemma {:induction false} WhereAllKeepsMatching(ms: seq<Movie>, cs: seq<Criterion>)
    requires forall m :: m in ms ==> SatisfiesAll(m, cs)
    ensures WhereAll(ms, cs) == ms
    decreases |ms|
  {
    if ms != [] {
      assert ms[0] in ms;
      WhereAllKeepsMatching(ms[1..], cs);
    }
  }

  /** Searching the results again with the same filters changes nothing. */
  lemma SearchIdempotent(candidates: seq<Movie>, genre: Option<string>, year: Option<string>, rating: Option<string>)
    requires RatingsParse(candidates, rating)
    ensures RatingsParse(SearchResults(candidates, genre, year, rating), rating)
    ensures var r := SearchResults(candidates, genre, year, rating);
      SearchResults(r, genre, year, rating) == r
  {
    var r := SearchResults(candidates, genre, year, rating);
    SearchResultsSpec(candidates, genre, year, rating);
    assert RatingsParse(r, rating);
    WhereAllKeepsMatching(r, Criteria(genre, year, rating));
  }
}
