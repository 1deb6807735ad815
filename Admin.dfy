/** The catalogue administration screen (`Admin`): the loaded movie list,
    the search box, and the create/edit dialog with its form, driven by
    button presses and by the outcomes of the catalogue API calls. */
module Admin {
  import opened Prelude
  import opened Catalog

  /** The dialog's form: a movie without its id, every field filled in. */
  datatype MovieForm = MovieForm(
    title: string,
    genre: string,
    rating: real,
    image: string,
    featured: bool,
    description: string,
    year: int,
    trailerUrl: string)

  /** The form `resetForm` installs; the year is the current calendar year. */
  function BlankForm(currentYear: int): (f: MovieForm)
    ensures f.title == "" && f.genre == "" && f.image == "" && f.description == "" && f.trailerUrl == ""
    ensures f.rating == 0.0 && !f.featured && f.year == currentYear
  {
    MovieForm("", "", 0.0, "", false, "", currentYear, "")
  }

  /** The form `handleEdit` fills from a movie: the first five fields
      verbatim; a missing description or trailer URL becomes "", and a
      missing (or zero) year becomes the current year. */
  function FormFromMovie(m: Movie, currentYear: int): (f: MovieForm)
    ensures f.title == m.title && f.genre == m.genre && f.rating == m.rating
    ensures f.image == m.image && f.featured == m.featured
    ensures f.description == if m.description.Some? then m.description.value else ""
    ensures f.trailerUrl == if m.trailerUrl.Some? then m.trailerUrl.value else ""
    ensures m.year.Some? && m.year.value != 0 ==> f.year == m.year.value
    ensures m.year.None? || m.year.value == 0 ==> f.year == currentYear
  {
    MovieForm(
      m.title, m.genre, m.rating, m.image, m.featured,
      if m.description.Some? then m.description.value else "",
      if m.year.Some? && m.year.value != 0 then m.year.value else currentYear,
      if m.trailerUrl.Some? then m.trailerUrl.value else "")
  }

  /** The movie record a form is sent as: no id, no video URL, and every
      other field present. */
  function Payload(f: MovieForm): (m: Movie)
    ensures m.id.None? && m.videoUrl.None?
    ensures m.title == f.title && m.genre == f.genre && m.rating == f.rating
    ensures m.image == f.image && m.featured == f.featured
    ensures m.description == Some(f.description) && m.year == Some(f.year) && m.trailerUrl == Some(f.trailerUrl)
  {
    Movie(None, f.title, f.genre, f.rating, f.image, f.featured,
          Some(f.description), Some(f.year), Some(f.trailerUrl), None)
  }

  /** Filling the form from what a form sends gives the same form back
      (a year of 0 would be replaced by the current year). */
  lemma FormRoundTrip(f: MovieForm, currentYear: int)
    requires f.year != 0
    ensures FormFromMovie(Payload(f), currentYear) == f
  {
  }

  /** Editing a movie that has all its optional text fields and a year, and
      sending the form unchanged, sends the movie back without id and video
      URL. */
  lemma EditRoundTrip(m: Movie, currentYear: int)
    requires m.description.Some? && m.trailerUrl.Some?
    requires m.year.Some? && m.year.value != 0
    ensures Payload(FormFromMovie(m, currentYear)) == m.(id := None, videoUrl := None)
  {
  }

  // ---------------------------------------------------------------------
  // Field edits

  datatype Field = Title | Year | Genre | Rating | Image | Description | TrailerUrl | Featured

  /** One input of the form changing its value. */
  datatype FormEdit =
    | SetTitle(title: string)
    | SetYear(year: int)
    | SetGenre(genre: string)
    | SetRating(rating: real)
    | SetImage(image: string)
    | SetDescription(description: string)
    | SetTrailerUrl(trailerUrl: string)
    | SetFeatured(featured: bool)

  function FieldOf(e: FormEdit): Field {
    match e
    case SetTitle(_) => Title
    case SetYear(_) => Year
    case SetGenre(_) => Genre
    case SetRating(_) => Rating
    case SetImage(_) => Image
    case SetDescription(_) => Description
    case SetTrailerUrl(_) => TrailerUrl
    case SetFeatured(_) => Featured
  }

  /** Two forms hold the same value in field `k`. */
  predicate SameField(f: MovieForm, g: MovieForm, k: Field) {
    match k
    case Title => f.title == g.title
    case Year => f.year == g.year
    case Genre => f.genre == g.genre
    case Rating => f.rating == g.rating
    case Image => f.image == g.image
    case Description => f.description == g.description
    case TrailerUrl => f.trailerUrl == g.trailerUrl
    case Featured => f.featured == g.featured
  }

  /** The form shows the value the edit entered. */
  predicate Shows(f: MovieForm, e: FormEdit) {
    match e
    case SetTitle(v) => f.title == v
    case SetYear(v) => f.year == v
    case SetGenre(v) => f.genre == v
    case SetRating(v) => f.rating == v
    case SetImage(v) => f.image == v
    case SetDescription(v) => f.description == v
    case SetTrailerUrl(v) => f.trailerUrl == v
    case SetFeatured(v) => f.featured == v
  }

  /** `setFormData({...formData, field: value})`: the edited field takes the
      new value and every other field keeps its value. */
  function ApplyEdit(f: MovieForm, e: FormEdit): (r: MovieForm)
    ensures Shows(r, e)
    ensures forall k: Field | k != FieldOf(e) :: SameField(f, r, k)
  {
    match e
    case SetTitle(v) => f.(title := v)
    case SetYear(v) => f.(year := v)
    case SetGenre(v) => f.(genre := v)
    case SetRating(v) => f.(rating := v)
    case SetImage(v) => f.(image := v)
    case SetDescription(v) => f.(description := v)
    case SetTrailerUrl(v) => f.(trailerUrl := v)
    case SetFeatured(v) => f.(featured := v)
  }

  /** Forms that agree on every field are the same form. */
  lemma FieldsDetermineForm(f: MovieForm, g: MovieForm)
    requires forall k: Field :: SameField(f, g, k)
    ensures f == g
  {
    assert SameField(f, g, Title) && SameField(f, g, Year) && SameField(f, g, Genre);
    assert SameField(f, g, Rating) && SameField(f, g, Image) && SameField(f, g, Description);
    assert SameField(f, g, TrailerUrl) && SameField(f, g, Featured);
  }

  /** Of two edits to the same field, the later one wins. */
  lemma LaterEditWins(f: MovieForm, e1: FormEdit, e2: FormEdit)
    requires FieldOf(e1) == FieldOf(e2)
    ensures ApplyEdit(ApplyEdit(f, e1), e2) == ApplyEdit(f, e2)
  {
    var g, h := ApplyEdit(ApplyEdit(f, e1), e2), ApplyEdit(f, e2);
    forall k: Field
      ensures SameField(g, h, k)
    {
      if k == FieldOf(e2) {
        match e2
        case SetTitle(_) =>
        case SetYear(_) =>
        case SetGenre(_) =>
        case SetRating(_) =>
        case SetImage(_) =>
        case SetDescription(_) =>
        case SetTrailerUrl(_) =>
        case SetFeatured(_) =>
      }
    }
    FieldsDetermineForm(g, h);
  }

  /** Edits to different fields can be made in either order. */
  lemma EditsCommute(f: MovieForm, e1: FormEdit, e2: FormEdit)
    requires FieldOf(e1) != FieldOf(e2)
    ensures ApplyEdit(ApplyEdit(f, e1), e2) == ApplyEdit(ApplyEdit(f, e2), e1)
  {
    var g, h := ApplyEdit(ApplyEdit(f, e1), e2), ApplyEdit(ApplyEdit(f, e2), e1);
    forall k: Field
      ensures SameField(g, h, k)
    {
    }
    FieldsDetermineForm(g, h);
  }

  // ---------------------------------------------------------------------
  // The screen

  /** The API call a submit or delete press issues. */
  datatype Request =
    | CreateMovie(body: MovieForm)
    | UpdateMovie(id: Option<int>, body: MovieForm)
    | DeleteMovie(movieId: Option<int>)

  /** What the main area shows. */
  datatype Listing =
    | Loading
    | Empty(message: string, offersCreate: bool)
    | Cards(movies: seq<Movie>)

  class AdminScreen {
    var movies: seq<Movie>
    var searchTerm: string
    var isLoading: bool
    var isDialogOpen: bool
    var editingMovie: Option<Movie>
    var formData: MovieForm

    /** The first render: no movies yet, loading, dialog closed, nothing
        being edited and a blank form. */
    constructor (currentYear: int)
      ensures movies == [] && searchTerm == "" && isLoading
      ensures !isDialogOpen && editingMovie.None? && formData == BlankForm(currentYear)
    {
      movies := [];
      searchTerm := "";
      isLoading := true;
      isDialogOpen := false;
      editingMovie := None;
      formData := BlankForm(currentYear);
    }

    /** The part of `loadMovies` before its request is answered. */
    method StartLoading()
      modifies this
      ensures isLoading
      ensures movies == old(movies) && searchTerm == old(searchTerm)
      ensures isDialogOpen == old(isDialogOpen) && editingMovie == old(editingMovie) && formData == old(formData)
    {
      isLoading := true;
    }

    /** The rest of `loadMovies`, once `getMovies` answers: the returned
        list, or no movies at all on failure; loading ends either way. */
    method FinishLoading(response: ApiResult<seq<Movie>>)
      modifies this
      ensures movies == if response.Ok? then response.data else []
      ensures !isLoading
      ensures searchTerm == old(searchTerm)
      ensures isDialogOpen == old(isDialogOpen) && editingMovie == old(editingMovie) && formData == old(formData)
    {
      movies := if response.Ok? then response.data else [];
      isLoading := false;
    }

    /** The request `handleSubmit` issues when the form is submitted: an
        update of the movie being edited (with its id, which may be
        missing), or else a creation, with the form as it is at that moment
        as body. */
    function SubmitRequest(): (r: Request)
      reads this
      ensures r.UpdateMovie? <==> editingMovie.Some?
      ensures r.CreateMovie? <==> editingMovie.None?
      ensures r.UpdateMovie? ==> r.id == editingMovie.value.id
      ensures !r.DeleteMovie? && r.body == formData
    {
      if editingMovie.Some? then UpdateMovie(editingMovie.value.id, formData) else CreateMovie(formData)
    }

    /** The rest of `handleSubmit`, once the API answers. On success the
        dialog closes, nothing is being edited any more, the form is blank
        again (whatever was typed while the request was pending) and a
        reload starts; on failure nothing changes. */
    method SubmitAnswered(outcome: ApiResult<()>, currentYear: int)
      modifies this
      ensures outcome.Ok? ==> !isDialogOpen && editingMovie.None? && formData == BlankForm(currentYear) && isLoading
      ensures outcome.Failed? ==> isDialogOpen == old(isDialogOpen) && editingMovie == old(editingMovie) && formData == old(formData) && isLoading == old(isLoading)
      ensures movies == old(movies) && searchTerm == old(searchTerm)
    {
      if outcome.Ok? {
        isDialogOpen := false;
        editingMovie := None;
        ResetForm(currentYear);
        StartLoading();
      }
    }

    /** `handleEdit`: remembers the movie, fills the form from it and opens
        the dialog. */
    method Edit(m: Movie, currentYear: int)
      modifies this
      ensures editingMovie == Some(m) && formData == FormFromMovie(m, currentYear) && isDialogOpen
      ensures movies == old(movies) && searchTerm == old(searchTerm) && isLoading == old(isLoading)
    {
      editingMovie := Some(m);
      formData := FormFromMovie(m, currentYear);
      isDialogOpen := true;
    }

    /** `handleDelete`: asks for the deletion of the given id (the card's
        movie id, which may be missing); on success a reload starts, on
        failure nothing changes. The list itself changes only when the
        reload answers. */
    method Delete(id: Option<int>, outcome: ApiResult<()>) returns (request: Request)
      modifies this
      ensures request == DeleteMovie(id)
      ensures isLoading == (outcome.Ok? || old(isLoading))
      ensures movies == old(movies) && searchTerm == old(searchTerm)
      ensures isDialogOpen == old(isDialogOpen) && editingMovie == old(editingMovie) && formData == old(formData)
    {
      request := DeleteMovie(id);
      if outcome.Ok? {
        StartLoading();
      }
    }

    /** `resetForm`. */
    method ResetForm(currentYear: int)
      modifies this
      ensures formData == BlankForm(currentYear)
      ensures movies == old(movies) && searchTerm == old(searchTerm) && isLoading == old(isLoading)
      ensures isDialogOpen == old(isDialogOpen) && editingMovie == old(editingMovie)
    {
      formData := BlankForm(currentYear);
    }

    /** `openCreateDialog`: nothing being edited, a blank form, dialog open. */
    method OpenCreateDialog(currentYear: int)
      modifies this
      ensures editingMovie.None? && formData == BlankForm(currentYear) && isDialogOpen
      ensures movies == old(movies) && searchTerm == old(searchTerm) && isLoading == old(isLoading)
    {
      editingMovie := None;
      ResetForm(currentYear);
      isDialogOpen := true;
    }

    /** The dialog's own open/close control and its cancel button; closing
        this way keeps the movie being edited and the form. */
    method SetDialogOpen(open: bool)
      modifies this
      ensures isDialogOpen == open
      ensures movies == old(movies) && searchTerm == old(searchTerm) && isLoading == old(isLoading)
      ensures editingMovie == old(editingMovie) && formData == old(formData)
    {
      isDialogOpen := open;
    }

    /** Typing in the search box. */
    method SetSearchTerm(term: string)
      modifies this
      ensures searchTerm == term
      ensures movies == old(movies) && isLoading == old(isLoading)
      ensures isDialogOpen == old(isDialogOpen) && editingMovie == old(editingMovie) && formData == old(formData)
    {
      searchTerm := term;
    }

    /** Typing in (or toggling) one input of the form. */
    method EditField(e: FormEdit)
      modifies this
      ensures formData == ApplyEdit(old(formData), e)
      ensures movies == old(movies) && searchTerm == old(searchTerm) && isLoading == old(isLoading)
      ensures isDialogOpen == old(isDialogOpen) && editingMovie == old(editingMovie)
    {
      formData := ApplyEdit(formData, e);
    }

    /** `filteredMovies`: the loaded movies whose lower-cased title or genre
        contains the lower-cased search term, in order. */
    function FilteredMovies(lower: string -> string): (r: seq<Movie>)
      reads this
      ensures IsSubsequence(r, movies)
      ensures forall i | 0 <= i < |r| :: Matches(r[i], searchTerm, lower)
      ensures forall m :: multiset(r)[m] == if Matches(m, searchTerm, lower) then multiset(movies)[m] else 0
    {
      Search(movies, searchTerm, lower)
    }

    /** The main area: a loading notice while loading; otherwise the cards
        of the filtered movies, or, when there are none, a message naming
        the term (or saying that there are no movies at all, with a button
        to create the first one, when the term is empty). */
    function View(lower: string -> string): (v: Listing)
      reads this
      ensures v.Loading? <==> isLoading
      ensures v.Empty? <==> !isLoading && FilteredMovies(lower) == []
      ensures v.Cards? ==> v.movies == FilteredMovies(lower) && v.movies != []
      ensures v.Empty? ==> (v.offersCreate <==> searchTerm == "")
      ensures v.Empty? && searchTerm == "" ==> v.message == "Nenhum filme cadastrado"
    {
      var found := FilteredMovies(lower);
      if isLoading then Loading
      else if found == [] then
        if searchTerm != "" then Empty("Nenhum filme encontrado para \"" + searchTerm + "\"", false)
        else Empty("Nenhum filme cadastrado", true)
      else Cards(found)
    }
  }

  /** With an empty search term the screen offers to create the first movie
      only when no movie is loaded, and otherwise lists all of them. */
  lemma EmptyTermListsAll(screen: AdminScreen, lower: string -> string)
    requires lower("") == ""
    requires screen.searchTerm == "" && !screen.isLoading
    ensures screen.View(lower).Empty? <==> screen.movies == []
    ensures screen.movies != [] ==> screen.View(lower) == Cards(screen.movies)
  {
    SearchEmptyTerm(screen.movies, lower);
  }
}
