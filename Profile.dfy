/** The account page (`Profile`): the user record with its edit mode, the
    avatar initials and the favourites counter. */
module Profile {
  import opened Prelude
  import opened Decimal

  datatype UserProfile = UserProfile(
    name: string,
    email: string,
    phone: string,
    bio: string,
    plan: string,
    joinDate: string)

  const InitialProfile := UserProfile(
    "João Silva",
    "joao@email.com",
    "(11) 99999-9999",
    "Amante de filmes de ação e ficção científica",
    "Premium",
    "Janeiro 2024")

  // ---------------------------------------------------------------------
  // Avatar initials

  /** `n[0]` joined as text: the first character, or nothing for an empty
      piece (`undefined` joins as the empty string). */
  function FirstChar(piece: string): string {
    if piece == "" then "" else [piece[0]]
  }

  /** `pieces.map(n => n[0]).join('')`. */
  function Firsts(pieces: seq<string>): string {
    if pieces == [] then "" else FirstChar(pieces[0]) + Firsts(pieces[1..])
  }

  /** The number of non-empty pieces. */
  function CountNonEmpty(pieces: seq<string>): nat {
    if pieces == [] then 0 else (if pieces[0] == "" then 0 else 1) + CountNonEmpty(pieces[1..])
  }

  /** The characters of `s` that begin a word: not a space, and either at
      the start (when `atStart`) or right after a space. */
  function WordStarts(s: string, atStart: bool): string {
    if s == [] then ""
    else (if s[0] != ' ' && atStart then [s[0]] else "") + WordStarts(s[1..], s[0] == ' ')
  }

  /** The avatar fallback text: the first letter of each space-separated
      part of the name; one letter per non-empty part. */
  function Initials(name: string): (r: string)
    ensures |r| == CountNonEmpty(Split(name, ' '))
  {
    FirstsLength(Split(name, ' '));
    Firsts(Split(name, ' '))
  }

  lemma {:induction false} FirstsLength(pieces: seq<string>)
    ensures |Firsts(pieces)| == CountNonEmpty(pieces)
  {
    if pieces != [] {
      FirstsLength(pieces[1..]);
    }
  }

  /** The initials are exactly the word-initial characters of the name:
      leading, trailing and doubled spaces contribute nothing. */
  lemma InitialsAreWordStarts(name: string)
    ensures Initials(name) == WordStarts(name, true)
  {
    SplitWordStarts(name);
  }

  lemma {:induction false} SplitWordStarts(s: string)
    ensures Firsts(Split(s, ' ')) == WordStarts(s, true)
    ensures Firsts(Split(s, ' ')[1..]) == WordStarts(s, false)
  {
    if s != [] {
      var rest := Split(s[1..], ' ');
      SplitWordStarts(s[1..]);
      if s[0] == ' ' {
        assert Split(s, ' ') == [""] + rest;
        assert ([""] + rest)[1..] == rest;
      } else {
        var pieces := [[s[0]] + rest[0]] + rest[1..];
        assert Split(s, ' ') == pieces;
        assert pieces[1..] == rest[1..];
      }
    }
  }

  /** Two words separated by one space give their two first letters. */
  lemma InitialsOfTwoWords(first: string, last: string)
    requires first != "" && last != ""
    requires ' ' !in first && ' ' !in last
    ensures Initials(first + " " + last) == [first[0], last[0]]
  {
    SplitAfter(first, ' ', last);
    SplitWhole(last, ' ');
    assert first + " " + last == first + [' '] + last;
    assert Split(first + " " + last, ' ') == [first, last];
    assert [first, last][1..] == [last];
    assert [last][1..] == [];
    assert Firsts([last]) == [last[0]];
    assert Firsts([first, last]) == [first[0]] + Firsts([last]);
  }

  /** The initial profile shows "JS". */
  lemma InitialProfileInitials()
    ensures Initials(InitialProfile.name) == "JS"
  {
    var first, last := "João", "Silva";
    assert InitialProfile.name == first + " " + last;
    InitialsOfTwoWords(first, last);
  }

  // ---------------------------------------------------------------------
  // Field edits

  /** One input of the personal-information card changing its value. */
  datatype ProfileEdit =
    | SetName(name: string)
    | SetEmail(email: string)
    | SetPhone(phone: string)
    | SetBio(bio: string)

  /** `setProfile(prev => ({ ...prev, field: value }))`: the edited field
      takes the new value and every other field keeps its value. */
  function ApplyEdit(p: UserProfile, e: ProfileEdit): (r: UserProfile)
    ensures r.plan == p.plan && r.joinDate == p.joinDate
    ensures r.name == (if e.SetName? then e.name else p.name)
    ensures r.email == (if e.SetEmail? then e.email else p.email)
    ensures r.phone == (if e.SetPhone? then e.phone else p.phone)
    ensures r.bio == (if e.SetBio? then e.bio else p.bio)
  {
    match e
    case SetName(v) => p.(name := v)
    case SetEmail(v) => p.(email := v)
    case SetPhone(v) => p.(phone := v)
    case SetBio(v) => p.(bio := v)
  }

  function ApplyEdits(p: UserProfile, edits: seq<ProfileEdit>): UserProfile
    decreases |edits|
  {
    if edits == [] then p else ApplyEdits(ApplyEdit(p, edits[0]), edits[1..])
  }

  /** No sequence of edits changes the plan or the join date. */
  lemma {:induction false} EditsKeepPlanAndJoinDate(p: UserProfile, edits: seq<ProfileEdit>)
    decreases |edits|
    ensures ApplyEdits(p, edits).plan == p.plan
    ensures ApplyEdits(p, edits).joinDate == p.joinDate
  {
    if edits != [] {
      EditsKeepPlanAndJoinDate(ApplyEdit(p, edits[0]), edits[1..]);
    }
  }

  // ---------------------------------------------------------------------
  // Favourites

  const Favorites := ["Ação Explosiva", "Futuro Cyberpunk", "Aventura Mágica"]

  /** The favourites counter: the number of favourites, printed in
      decimal. */
  function FavoritesCount(favorites: seq<string>): (r: string)
    ensures AllDigits(r) && ParseNat(r) == |favorites|
  {
    ParseNatToString(|favorites|);
    NatToString(|favorites|)
  }

  lemma FavoritesCountShown()
    ensures FavoritesCount(Favorites) == "3"
  {
  }

  // ---------------------------------------------------------------------
  // The screen

  class ProfileScreen {
    var isEditing: bool
    var profile: UserProfile

    /** The plan and the join date are those the page starts with. */
    ghost predicate Valid()
      reads this
    {
      profile.plan == InitialProfile.plan && profile.joinDate == InitialProfile.joinDate
    }

    constructor ()
      ensures Valid()
      ensures !isEditing && profile == InitialProfile
    {
      isEditing := false;
      profile := InitialProfile;
    }

    /** The header button: "Editar" enters edit mode; "Salvar"
        (`handleSave`) leaves it. The profile is not touched. */
    method PressHeaderButton()
      requires Valid()
      modifies this
      ensures Valid()
      ensures isEditing == !old(isEditing)
      ensures profile == old(profile)
    {
      isEditing := !isEditing;
    }

    /** Typing in one input; the inputs are enabled only in edit mode. */
    method Edit(e: ProfileEdit)
      requires Valid() && isEditing
      modifies this
      ensures Valid()
      ensures profile == ApplyEdit(old(profile), e)
      ensures isEditing
    {
      profile := ApplyEdit(profile, e);
    }

    function AvatarText(): (r: string)
      reads this
      ensures r == WordStarts(profile.name, true)
    {
      InitialsAreWordStarts(profile.name);
      Initials(profile.name)
    }
  }
}
