/** The movie page (`MovieDetails`): the lookup of the movie named by the
    `id` query parameter in a fixed table, the navigation target of the
    watch button and the trailer dialog state. */
module MovieDetails {
  import opened Prelude
  import opened YouTube
  import opened VideoPlayer

  datatype MovieInfo = MovieInfo(
    title: string,
    genre: string,
    rating: real,
    year: int,
    duration: string,
    director: string,
    cast: seq<string>,
    synopsis: string,
    trailerUrl: string,
    categories: seq<string>,
    ageRating: string,
    languages: seq<string>,
    quality: string)

  /** The id of the trailer every entry links to. */
  const TrailerId := "dQw4w9WgXcQ"

  /** The three entries of the `movieData` table. */
  const Details1 := MovieInfo(
    "Ação Explosiva", "Ação", 8.5, 2024, "2h 15min", "Michael Bay",
    ["Ryan Reynolds", "Scarlett Johansson", "The Rock"],
    "Um agente especial deve infiltrar-se numa organização criminosa internacional para impedir um ataque terrorista que pode mudar o mundo para sempre. Com sequências de ação espetaculares e efeitos visuais de última geração.",
    WatchLinkBase + TrailerId,
    ["Ação", "Suspense", "Aventura"], "16+", ["Português", "Inglês", "Espanhol"], "4K Ultra HD")

  const Details2 := MovieInfo(
    "Romance Eterno", "Romance", 7.8, 2024, "1h 45min", "Sofia Coppola",
    ["Emma Stone", "Ryan Gosling", "Rachel McAdams"],
    "Uma história tocante sobre o amor que transcende o tempo. Dois jovens se conhecem durante o verão e vivem um romance intenso que marcará suas vidas para sempre.",
    WatchLinkBase + TrailerId,
    ["Romance", "Drama"], "12+", ["Português", "Inglês"], "HD")

  const Details3 := MovieInfo(
    "Futuro Cyberpunk", "Ficção Científica", 9.1, 2024, "2h 30min", "Denis Villeneuve",
    ["Keanu Reeves", "Charlize Theron", "Oscar Isaac"],
    "No ano 2077, a humanidade vive em megacidades dominadas por corporações. Um hacker rebelde descobre uma conspiração que pode libertar a sociedade do controle digital.",
    WatchLinkBase + TrailerId,
    ["Ficção Científica", "Ação", "Cyberpunk"], "18+", ["Português", "Inglês", "Japonês"], "4K Ultra HD")

  /** The `movieData` table, keyed by id. */
  const MovieData: map<string, MovieInfo> := map["1" := Details1, "2" := Details2, "3" := Details3]

  /** `searchParams.get("id") || "1"`. */
  function MovieIdParam(param: Option<string>): (r: string)
    ensures r != ""
    ensures param.Some? && param.value != "" ==> r == param.value
    ensures param.None? || param.value == "" ==> r == "1"
  {
    if param.Some? && param.value != "" then param.value else "1"
  }

  // ---------------------------------------------------------------------
  // The lookup as written

  /** The members every plain object inherits from `Object.prototype`;
      indexing `movieData` with one of these names yields that member. */
  const InheritedKeys: set<string> := {
    "constructor", "hasOwnProperty", "isPrototypeOf", "propertyIsEnumerable",
    "toLocaleString", "toString", "valueOf", "__proto__",
    "__defineGetter__", "__defineSetter__", "__lookupGetter__", "__lookupSetter__"
  }

  /** What `movieData[movieId]` evaluates to: an entry of the table, an
      inherited member (a function or the prototype object, both truthy),
      or `undefined`. */
  datatype Property = Own(info: MovieInfo) | Inherited(key: string) | Undefined

  function Index(movieId: string): (p: Property)
    ensures p.Own? <==> movieId in MovieData
    ensures p.Own? ==> p.info == MovieData[movieId]
    ensures p.Inherited? <==> movieId in InheritedKeys
  {
    if movieId in MovieData then Own(MovieData[movieId])
    else if movieId in InheritedKeys then Inherited(movieId)
    else Undefined
  }

  /** `movieData[movieId] || movieData["1"]` as written: the fallback is
      taken only when the indexed value is falsy, so an inherited member
      is kept. */
  function LookupAsWritten(movieId: string): (p: Property)
    ensures p.Undefined? == false
    ensures p.Inherited? <==> movieId in InheritedKeys
  {
    var found := Index(movieId);
    if found.Undefined? then Own(MovieData["1"]) else found
  }

  /** An id such as "constructor" escapes the fallback: the page gets an
      inherited function instead of a movie. */
  lemma ConstructorEscapesFallback()
    ensures LookupAsWritten("constructor") == Inherited("constructor")
  {
  }

  // ---------------------------------------------------------------------
  // The lookup as intended

  /** The movie shown: the table's own entry for ids "1", "2" and "3", and
      entry "1" for every other id. */
  function Lookup(movieId: string): (m: MovieInfo)
    ensures movieId in MovieData ==> m == MovieData[movieId]
    ensures movieId !in MovieData ==> m == MovieData["1"]
  {
    if movieId in MovieData then MovieData[movieId] else MovieData["1"]
  }

  /** The intended lookup agrees with the written one whenever the id is
      not the name of an inherited member. */
  lemma LookupAgreesOffPrototype(movieId: string)
    requires movieId !in InheritedKeys
    ensures LookupAsWritten(movieId) == Own(Lookup(movieId))
  {
  }

  /** Every entry, and so every movie shown, has a trailer. */
  lemma EveryMovieHasTrailer(movieId: string)
    ensures Lookup(movieId).trailerUrl == WatchLinkBase + TrailerId
  {
  }

  /** A page opened without an id shows entry "1". */
  lemma DefaultMovie()
    ensures Lookup(MovieIdParam(None)) == MovieData["1"]
  {
  }

  // ---------------------------------------------------------------------
  // Navigation

  /** `handleWatchNow`'s target: the id exactly as received (also when the
      entry came from the fallback) and the shown movie's title, encoded.
      `encode` stands for `encodeURIComponent`, which escapes '&'; the raw
      id is not escaped. Split at '&', the target is the pieces of
      `/watch?id=` and the id, then one `title=` piece; for an id without
      '&' exactly the two pieces `id=…` and `title=…`. */
  function WatchTarget(movieId: string, encode: string -> string): (r: string)
    ensures '&' !in encode(Lookup(movieId).title) ==>
      Split(r, '&') == Split("/watch?id=" + movieId, '&') + ["title=" + encode(Lookup(movieId).title)]
    ensures '&' !in movieId && '&' !in encode(Lookup(movieId).title) ==>
      Split(r, '&') == ["/watch?id=" + movieId, "title=" + encode(Lookup(movieId).title)]
  {
    TargetSplit(movieId, encode(Lookup(movieId).title));
    ("/watch?id=" + movieId) + ['&'] + ("title=" + encode(Lookup(movieId).title))
  }

  /** The target split at '&', for any encoded title. */
  lemma TargetSplit(movieId: string, title: string)
    ensures '&' !in title ==>
      Split(("/watch?id=" + movieId) + ['&'] + ("title=" + title), '&') == Split("/watch?id=" + movieId, '&') + ["title=" + title]
    ensures '&' !in movieId && '&' !in title ==>
      Split(("/watch?id=" + movieId) + ['&'] + ("title=" + title), '&') == ["/watch?id=" + movieId, "title=" + title]
  {
    if '&' !in title {
      TargetPieces(movieId, title);
      if '&' !in movieId {
        TargetTwoPieces(movieId, title);
      }
    }
  }

  /** The target split at '&', for an encoded title without '&'. */
  lemma TargetPieces(movieId: string, title: string)
    requires '&' !in title
    ensures Split(("/watch?id=" + movieId) + ['&'] + ("title=" + title), '&') == Split("/watch?id=" + movieId, '&') + ["title=" + title]
  {
    var b := "title=" + title;
    assert '&' !in "title=";
    assert '&' !in b;
    SplitConcat("/watch?id=" + movieId, '&', b);
    SplitWhole(b, '&');
  }

  /** The same, for an id without '&' as well: just two pieces. */
  lemma TargetTwoPieces(movieId: string, title: string)
    requires '&' !in movieId && '&' !in title
    ensures Split(("/watch?id=" + movieId) + ['&'] + ("title=" + title), '&') == ["/watch?id=" + movieId, "title=" + title]
  {
    var a := "/watch?id=" + movieId;
    TargetPieces(movieId, title);
    assert '&' !in "/watch?id=";
    assert '&' !in a;
    SplitWhole(a, '&');
  }

  /** The id is passed on unescaped, so an id holding '&' adds parameters
      of its own: the id "2&title=X" (from `?id=2%26title%3DX`) puts a
      `title=X` parameter in front of the page's own `title`. */
  lemma IdInjectsParameter(id: string, param: string, encode: string -> string)
    requires '&' !in id && '&' !in param
    requires '&' !in encode(Lookup(id + "&" + param).title)
    ensures Split(WatchTarget(id + "&" + param, encode), '&')
      == ["/watch?id=" + id, param, "title=" + encode(Lookup(id + "&" + param).title)]
  {
    IdParameters(id, param);
  }

  /** The `id` part of the target, split at '&', for an id holding one '&'. */
  lemma IdParameters(id: string, param: string)
    requires '&' !in id && '&' !in param
    ensures Split("/watch?id=" + (id + "&" + param), '&') == ["/watch?id=" + id, param]
  {
    var a := "/watch?id=" + id;
    assert "/watch?id=" + (id + "&" + param) == a + ['&'] + param;
    assert '&' !in "/watch?id=";
    assert '&' !in a;
    SplitConcat(a, '&', param);
    SplitWhole(a, '&');
    SplitWhole(param, '&');
  }

  // ---------------------------------------------------------------------
  // The trailer dialog

  datatype Trailer = Trailer(url: string, title: string)

  /** What the page passes to the player. */
  datatype PlayerProps = PlayerProps(isOpen: bool, videoUrl: string, title: string)

  class DetailsScreen {
    const movie: MovieInfo
    var selectedTrailer: Option<Trailer>

    /** The page for the `id` parameter, with no trailer selected. */
    constructor (idParam: Option<string>)
      ensures movie == Lookup(MovieIdParam(idParam))
      ensures selectedTrailer.None?
    {
      movie := Lookup(MovieIdParam(idParam));
      selectedTrailer := None;
    }

    /** The trailer button, which exists only when the movie has a trailer
        URL: selects that trailer and the movie's title. */
    method OpenTrailer()
      requires movie.trailerUrl != ""
      modifies this
      ensures selectedTrailer == Some(Trailer(movie.trailerUrl, movie.title))
    {
      selectedTrailer := Some(Trailer(movie.trailerUrl, movie.title));
    }

    /** The player's close action. */
    method CloseTrailer()
      modifies this
      ensures selectedTrailer.None?
    {
      selectedTrailer := None;
    }

    /** The player is open exactly while a trailer is selected; without one
        it receives empty URL and title. */
    function Props(): (p: PlayerProps)
      reads this
      ensures p.isOpen <==> selectedTrailer.Some?
      ensures selectedTrailer.None? ==> p.videoUrl == "" && p.title == ""
      ensures selectedTrailer.Some? ==> p.videoUrl == selectedTrailer.value.url && p.title == selectedTrailer.value.title
    {
      match selectedTrailer
      case None => PlayerProps(false, "", "")
      case Some(t) => PlayerProps(true, t.url, t.title)
    }
  }

  /** Whichever movie is shown, its trailer plays in the player as the
      embed URL of its video. */
  lemma TrailerPlaysEmbedded(movieId: string)
    ensures TrailerSource(Lookup(movieId).trailerUrl) == Some(EmbedBase + TrailerId + TrailerQuery)
  {
    EveryMovieHasTrailer(movieId);
    TrailerIdValid(TrailerId);
    WatchLinkTrailer(TrailerId);
  }

  lemma TrailerIdValid(id: string)
    requires id == "dQw4w9WgXcQ"
    ensures IsVideoId(id)
  {
  }
}
