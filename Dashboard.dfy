/** The catalogue home page (`Dashboard`): a fixed table of six movies, the
    featured list, the search results and which sections are shown. */
module Dashboard {
  import opened Prelude
  import opened Catalog

  /** The six entries of the static `movies` table. */
  const Movie1 := Movie(Some(1), "Ação Explosiva", "Ação", 8.5, "movie1.jpg", true, None, None, None, None)
  const Movie2 := Movie(Some(2), "Romance Eterno", "Romance", 7.8, "movie2.jpg", false, None, None, None, None)
  const Movie3 := Movie(Some(3), "Futuro Cyberpunk", "Ficção Científica", 9.1, "movie3.jpg", true, None, None, None, None)
  const Movie4 := Movie(Some(4), "Terror Noturno", "Terror", 7.3, "movie4.jpg", false, None, None, None, None)
  const Movie5 := Movie(Some(5), "Comédia Hilária", "Comédia", 8.0, "movie5.jpg", false, None, None, None, None)
  const Movie6 := Movie(Some(6), "Aventura Mágica", "Fantasia", 8.7, "movie6.jpg", true, None, None, None, None)

  /** The static `movies` table. */
  const Table: seq<Movie> := [Movie1, Movie2, Movie3, Movie4, Movie5, Movie6]

  /** `featuredMovies`: the movies with ids 1, 3 and 6, in that order. */
  function FeaturedMovies(): (r: seq<Movie>)
    ensures r == [Movie1, Movie3, Movie6]
    ensures r[0].id == Some(1) && r[1].id == Some(3) && r[2].id == Some(6)
  {
    var r := Featured(Table);
    FeaturedTable(r);
    r
  }

  lemma FeaturedTable(r: seq<Movie>)
    requires r == Featured(Table)
    ensures r == [Movie1, Movie3, Movie6]
  {
    var t := Table;
    assert t == [t[0], t[1], t[2], t[3], t[4], t[5]];
    FeaturedSix(t[0], t[1], t[2], t[3], t[4], t[5]);
  }

  lemma FeaturedSix(a: Movie, b: Movie, c: Movie, d: Movie, e: Movie, f: Movie)
    requires a.featured && !b.featured && c.featured && !d.featured && !e.featured && f.featured
    ensures Featured([a, b, c, d, e, f]) == [a, c, f]
  {
    FeaturedLastThree(d, e, f);
    FeaturedFirstThree(a, b, c, [d, e, f]);
    assert [a, b, c, d, e, f] == [a, b, c] + [d, e, f];
  }

  lemma FeaturedLastThree(d: Movie, e: Movie, f: Movie)
    requires !d.featured && !e.featured && f.featured
    ensures Filter([d, e, f], IsFeatured) == [f]
  {
    FilterCons(f, [], IsFeatured);
    assert [f] == [f] + [];
    FilterCons(e, [f], IsFeatured);
    assert [e, f] == [e] + [f];
    FilterCons(d, [e, f], IsFeatured);
    assert [d, e, f] == [d] + [e, f];
  }

  lemma FeaturedFirstThree(a: Movie, b: Movie, c: Movie, rest: seq<Movie>)
    requires a.featured && !b.featured && c.featured
    ensures Filter([a, b, c] + rest, IsFeatured) == [a, c] + Filter(rest, IsFeatured)
  {
    FilterCons(c, rest, IsFeatured);
    FilterCons(b, [c] + rest, IsFeatured);
    assert [b, c] + rest == [b] + ([c] + rest);
    FilterCons(a, [b, c] + rest, IsFeatured);
    assert [a, b, c] + rest == [a] + ([b, c] + rest);
  }

  /** `filteredMovies`: the order-preserving selection of the table whose
      lower-cased title or genre contains the lower-cased term; at most
      the six movies of the table. */
  function FilteredMovies(term: string, lower: string -> string): (r: seq<Movie>)
    ensures IsSubsequence(r, Table)
    ensures forall i | 0 <= i < |r| :: Matches(r[i], term, lower)
    ensures |r| <= 6
  {
    Search(Table, term, lower)
  }

  /** What the main column shows below the header. */
  datatype Results = Grid(movies: seq<Movie>) | NoResults(message: string)

  datatype Page = Page(hero: Option<Movie>, heading: string, results: Results)

  /** The page for a search term: the hero with the first featured movie
      only while the term is empty; the results grid, or the "nothing
      found" message when the filter selects nothing. */
  function View(term: string, lower: string -> string): (p: Page)
    ensures p.hero.Some? <==> term == ""
    ensures p.hero.Some? ==> p.hero.value == FeaturedMovies()[0] && p.hero.value.id == Some(1)
    ensures p.heading == if term == "" then "Catálogo de Filmes" else "Resultados para \"" + term + "\""
    ensures p.results.NoResults? <==> FilteredMovies(term, lower) == []
    ensures p.results.Grid? ==> p.results.movies == FilteredMovies(term, lower)
  {
    var found := FilteredMovies(term, lower);
    Page(
      if term == "" then Some(FeaturedMovies()[0]) else None,
      if term == "" then "Catálogo de Filmes" else "Resultados para \"" + term + "\"",
      if |found| == 0 then NoResults("Nenhum filme encontrado para \"" + term + "\"") else Grid(found))
  }

  /** With an empty term the page shows the hero and the whole table, and
      never the "nothing found" message. */
  lemma EmptyTermShowsAll(lower: string -> string)
    requires lower("") == ""
    ensures View("", lower).hero.Some?
    ensures View("", lower).results == Grid(Table)
  {
    SearchEmptyTerm(Table, lower);
  }

  /** The search is case-insensitive: a term and its lower-cased form give
      the same results. */
  lemma FilteredCaseInsensitive(term: string, lower: string -> string)
    requires CaseFolding(lower)
    ensures FilteredMovies(lower(term), lower) == FilteredMovies(term, lower)
  {
    SearchCaseInsensitive(Table, term, lower);
  }
}
