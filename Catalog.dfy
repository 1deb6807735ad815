/** The movie record of the catalogue API and the two list filters the
    catalogue screens apply to it: the title-or-genre search and the
    featured filter. */
module Catalog {
  import opened Prelude

  /** A catalogue entry as the API exchanges it; `id` and the last four
      fields may be absent. */
  datatype Movie = Movie(
    id: Option<int>,
    title: string,
    genre: string,
    rating: real,
    image: string,
    featured: bool,
    description: Option<string>,
    year: Option<int>,
    trailerUrl: Option<string>,
    videoUrl: Option<string>)

  /** The outcome of one API call: the response data, or a failure of any
      kind (network, HTTP status, server). */
  datatype ApiResult<T> = Ok(data: T) | Failed

  /** What the search needs of `toLowerCase`: the empty string stays empty,
      and lower-casing twice is lower-casing once. */
  ghost predicate CaseFolding(lower: string -> string) {
    && lower("") == ""
    && forall s :: lower(lower(s)) == lower(s)
  }

  /** The search condition: the lower-cased title or the lower-cased genre
      contains the lower-cased term. */
  predicate Matches(m: Movie, term: string, lower: string -> string)
    ensures lower(term) == "" ==> Matches(m, term, lower)
    ensures lower(term) == lower(m.title) || lower(term) == lower(m.genre) ==> Matches(m, term, lower)
    ensures Matches(m, term, lower) ==> |lower(term)| <= |lower(m.title)| || |lower(term)| <= |lower(m.genre)|
  {
    ContainsEmpty(lower(m.title));
    assert OccursAt(lower(m.title), lower(m.title), 0);
    assert OccursAt(lower(m.genre), lower(m.genre), 0);
    Contains(lower(m.title), lower(term)) || Contains(lower(m.genre), lower(term))
  }

  /** `movies.filter(...)` with the search condition: the matching movies,
      in their order, each as often as it occurs, and nothing else. */
  function Search(movies: seq<Movie>, term: string, lower: string -> string): (r: seq<Movie>)
    ensures IsSubsequence(r, movies)
    ensures forall i | 0 <= i < |r| :: Matches(r[i], term, lower)
    ensures forall m :: multiset(r)[m] == if Matches(m, term, lower) then multiset(movies)[m] else 0
    ensures |r| <= |movies|
  {
    Filter(movies, m => Matches(m, term, lower))
  }

  /** `movies.filter(movie => movie.featured)`: the featured movies, in
      their order, and nothing else. */
  function Featured(movies: seq<Movie>): (r: seq<Movie>)
    ensures IsSubsequence(r, movies)
    ensures forall i | 0 <= i < |r| :: r[i].featured
    ensures forall m :: multiset(r)[m] == if m.featured then multiset(movies)[m] else 0
  {
    Filter(movies, IsFeatured)
  }

  predicate IsFeatured(m: Movie) {
    m.featured
  }

  /** An empty search term keeps every movie, since every string contains
      the empty string. */
  lemma SearchEmptyTerm(movies: seq<Movie>, lower: string -> string)
    requires lower("") == ""
    ensures Search(movies, "", lower) == movies
  {
    forall i | 0 <= i < |movies|
      ensures Matches(movies[i], "", lower)
    {
      ContainsEmpty(lower(movies[i].title));
    }
    FilterAll(movies, m => Matches(m, "", lower));
  }

  /** The search does not depend on the case of the term: the term and its
      lower-cased form select the same movies. */
  lemma SearchCaseInsensitive(movies: seq<Movie>, term: string, lower: string -> string)
    requires CaseFolding(lower)
    ensures Search(movies, lower(term), lower) == Search(movies, term, lower)
  {
    assert lower(lower(term)) == lower(term);
    FilterAgree(movies, m => Matches(m, lower(term), lower), m => Matches(m, term, lower));
  }

  /** Nothing is found only when no movie matches. */
  lemma SearchEmptyResult(movies: seq<Movie>, term: string, lower: string -> string)
    ensures Search(movies, term, lower) == [] <==> forall i | 0 <= i < |movies| :: !Matches(movies[i], term, lower)
  {
    var r := Search(movies, term, lower);
    if r == [] {
      forall i | 0 <= i < |movies|
        ensures !Matches(movies[i], term, lower)
      {
        assert movies[i] in multiset(movies);
        assert multiset(r)[movies[i]] == 0;
      }
    } else {
      assert r[0] in multiset(r);
      assert r[0] in multiset(movies);
      var i :| 0 <= i < |movies| && movies[i] == r[0];
    }
  }
}
