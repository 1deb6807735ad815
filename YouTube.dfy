/** The YouTube URL normaliser that both the watch screen and the trailer
    player define (`getYouTubeEmbedUrl`). Both copies use the same pattern

      (?:youtube\.com\/(?:[^\/]+\/.+\/|(?:v|e(?:mbed)?)\/|.*[?&]v=)|youtu\.be\/)([^"&?\/\s]{11})

    and differ only in the query string appended to the embed URL, so the
    model is one function with the query string as a parameter.

    The specification of a match is declarative: `IsCapture(s, k)` says that
    an 11-character id starts at `k` and that one of the recognised prefixes
    ends exactly there. The executable search replays the order in which a
    backtracking matcher tries the alternatives (leftmost start; at a start,
    the channel form, then `v/`/`embed/`/`e/`, then the query form; greedy
    `.+` and `.*` take the last candidate), and its contract ties each answer
    to the declarative predicate. */
module YouTube {
  import opened Prelude

  const EmbedBase := "https://www.youtube.com/embed/"
  const IdLength := 11

  /** The JavaScript `\s` class. */
  predicate IsSpace(c: char) {
    c == ' ' || '\t' <= c <= '\r' || c == '\U{00A0}' || c == '\U{1680}'
    || '\U{2000}' <= c <= '\U{200A}' || c == '\U{2028}' || c == '\U{2029}'
    || c == '\U{202F}' || c == '\U{205F}' || c == '\U{3000}' || c == '\U{FEFF}'
  }

  /** The characters that `.` does not match. */
  predicate IsLineTerminator(c: char) {
    c == '\n' || c == '\r' || c == '\U{2028}' || c == '\U{2029}'
  }

  /** The class `[^"&?\/\s]` of the id characters. */
  predicate IsIdChar(c: char) {
    c != '"' && c != '&' && c != '?' && c != '/' && !IsSpace(c)
  }

  /** An id of exactly 11 id characters starts at `k`. */
  predicate IdAt(s: string, k: int) {
    0 <= k && k + IdLength <= |s| && forall i | k <= i < k + IdLength :: IsIdChar(s[i])
  }

  predicate LiteralAt(s: string, p: int, lit: string) {
    0 <= p && p + |lit| <= |s| && s[p..p + |lit|] == lit
  }

  predicate NoSlash(s: string, lo: int, hi: int)
    requires 0 <= lo <= hi <= |s|
  {
    forall i | lo <= i < hi :: s[i] != '/'
  }

  predicate NoLineTerminator(s: string, lo: int, hi: int)
    requires 0 <= lo <= hi <= |s|
  {
    forall i | lo <= i < hi :: !IsLineTerminator(s[i])
  }

  // ---------------------------------------------------------------------
  // Declarative specification of a match

  /** `[^\/]+\/`: the segment from `q` up to the slash at `j`. */
  predicate SegmentEnd(s: string, q: int, j: int) {
    0 <= q < j < |s| && NoSlash(s, q, j) && s[j] == '/'
  }

  /** `.+\/` after the slash at `j`, ending just before `k`. */
  predicate ChannelEnd(s: string, j: int, k: int) {
    0 <= j && j + 3 <= k <= |s| && NoLineTerminator(s, j + 1, k - 1) && s[k - 1] == '/'
  }

  /** `[^\/]+\/.+\/` from `q` to `k`. */
  ghost predicate ChannelPrefix(s: string, q: int, k: int) {
    exists j :: SegmentEnd(s, q, j) && ChannelEnd(s, j, k)
  }

  /** `(?:v|e(?:mbed)?)\/` from `q` to `k`. */
  ghost predicate ShortPrefix(s: string, q: int, k: int) {
    ((LiteralAt(s, q, "v/") || LiteralAt(s, q, "e/")) && k == q + 2)
    || (LiteralAt(s, q, "embed/") && k == q + 6)
  }

  /** `.*[?&]v=` from `q` to `k`. */
  predicate QueryPrefix(s: string, q: int, k: int) {
    0 <= q && q + 3 <= k <= |s| && NoLineTerminator(s, q, k - 3)
    && (s[k - 3] == '?' || s[k - 3] == '&') && s[k - 2] == 'v' && s[k - 1] == '='
  }

  /** One of the recognised prefixes occupies `s[p..k]`. */
  ghost predicate PrefixMatch(s: string, p: int, k: int) {
    (LiteralAt(s, p, "youtube.com/")
      && (ChannelPrefix(s, p + 12, k) || ShortPrefix(s, p + 12, k) || QueryPrefix(s, p + 12, k)))
    || (LiteralAt(s, p, "youtu.be/") && k == p + 9)
  }

  /** Some recognised prefix ends at `k` and an id starts there. */
  ghost predicate IsCapture(s: string, k: int) {
    exists p :: PrefixMatch(s, p, k) && IdAt(s, k)
  }

  ghost predicate HasCapture(s: string) {
    exists k :: IsCapture(s, k)
  }

  // ---------------------------------------------------------------------
  // The search a backtracking matcher performs

  /** The first '/' at or after `i`. */
  function FirstSlash(s: string, i: nat): (r: Option<nat>)
    requires i <= |s|
    decreases |s| - i
    ensures r.Some? ==> i <= r.value < |s| && s[r.value] == '/' && NoSlash(s, i, r.value)
    ensures r.None? ==> NoSlash(s, i, |s|)
  {
    if i == |s| then None
    else if s[i] == '/' then Some(i)
    else FirstSlash(s, i + 1)
  }

  /** Greedy `.+\/` after the slash at `j`: the last capture start not
      beyond `hi`. */
  function LastChannelEnd(s: string, j: nat, hi: nat): (r: Option<nat>)
    requires hi <= |s|
    ensures r.Some? ==> ChannelEnd(s, j, r.value) && IdAt(s, r.value) && r.value <= hi
    ensures r.Some? ==> forall k | r.value < k <= hi :: !(ChannelEnd(s, j, k) && IdAt(s, k))
    ensures r.None? ==> forall k | k <= hi :: !(ChannelEnd(s, j, k) && IdAt(s, k))
  {
    if hi < j + 3 then None
    else if ChannelEnd(s, j, hi) && IdAt(s, hi) then Some(hi)
    else LastChannelEnd(s, j, hi - 1)
  }

  /** The channel alternative at `q`. The greedy `[^\/]+` can only stop at
      the first slash. */
  function ChannelAt(s: string, q: nat): (r: Option<nat>)
    requires q <= |s|
    ensures r.Some? ==> ChannelPrefix(s, q, r.value) && IdAt(s, r.value)
    ensures r.None? ==> forall k :: !(ChannelPrefix(s, q, k) && IdAt(s, k))
  {
    match FirstSlash(s, q)
    case None =>
      assert forall j :: !SegmentEnd(s, q, j);
      None
    case Some(j) =>
      assert forall j' :: SegmentEnd(s, q, j') ==> j' == j;
      if j == q then None
      else
        var r := LastChannelEnd(s, j, |s|);
        assert r.Some? ==> SegmentEnd(s, q, j) && ChannelEnd(s, j, r.value);
        r
  }

  /** The `v/`, `embed/` and `e/` alternatives at `q`. */
  function ShortAt(s: string, q: nat): (r: Option<nat>)
    ensures r.Some? ==> ShortPrefix(s, q, r.value) && IdAt(s, r.value)
    ensures r.None? ==> forall k :: !(ShortPrefix(s, q, k) && IdAt(s, k))
  {
    if LiteralAt(s, q, "v/") && IdAt(s, q + 2) then Some(q + 2)
    else if LiteralAt(s, q, "embed/") && IdAt(s, q + 6) then Some(q + 6)
    else if LiteralAt(s, q, "e/") && IdAt(s, q + 2) then Some(q + 2)
    else None
  }

  /** Greedy `.*[?&]v=` from `q`: the last capture start not beyond `hi`. */
  function LastQueryEnd(s: string, q: nat, hi: nat): (r: Option<nat>)
    requires hi <= |s|
    ensures r.Some? ==> QueryPrefix(s, q, r.value) && IdAt(s, r.value) && r.value <= hi
    ensures r.Some? ==> forall k | r.value < k <= hi :: !(QueryPrefix(s, q, k) && IdAt(s, k))
    ensures r.None? ==> forall k | k <= hi :: !(QueryPrefix(s, q, k) && IdAt(s, k))
  {
    if hi < q + 3 then None
    else if QueryPrefix(s, q, hi) && IdAt(s, hi) then Some(hi)
    else LastQueryEnd(s, q, hi - 1)
  }

  lemma PrefixesExclusive(s: string, p: int)
    requires LiteralAt(s, p, "youtube.com/")
    ensures !LiteralAt(s, p, "youtu.be/")
  {
    assert s[p + 5] == "youtube.com/"[5];
  }

  /** The pattern tried at start `p`; the capture start when it matches. */
  function MatchAt(s: string, p: nat): (r: Option<nat>)
    requires p <= |s|
    ensures r.Some? ==> PrefixMatch(s, p, r.value) && IdAt(s, r.value)
    ensures r.None? ==> forall k :: !(PrefixMatch(s, p, k) && IdAt(s, k))
  {
    if LiteralAt(s, p, "youtube.com/") then
      PrefixesExclusive(s, p);
      var q := p + 12;
      match ChannelAt(s, q)
      case Some(k) => Some(k)
      case None =>
        match ShortAt(s, q)
        case Some(k) => Some(k)
        case None => LastQueryEnd(s, q, |s|)
    else if LiteralAt(s, p, "youtu.be/") && IdAt(s, p + 9) then Some(p + 9)
    else None
  }

  /** The leftmost start from `p` on at which the pattern matches. */
  function FindFrom(s: string, p: nat): (r: Option<nat>)
    requires p <= |s|
    decreases |s| - p
    ensures r.Some? ==> IsCapture(s, r.value)
    ensures r.None? ==> forall p', k | p <= p' :: !(PrefixMatch(s, p', k) && IdAt(s, k))
  {
    match MatchAt(s, p)
    case Some(k) => Some(k)
    case None =>
      if p == |s| then
        assert forall p', k | p < p' :: !PrefixMatch(s, p', k);
        None
      else FindFrom(s, p + 1)
  }

  /** The search answers with the match at the leftmost start that has
      one. */
  lemma {:induction false} FindFromLeftmost(s: string, p: nat)
    requires p <= |s|
    decreases |s| - p
    ensures FindFrom(s, p).Some? ==> exists p' :: FirstMatch(s, p, p') && MatchAt(s, p') == FindFrom(s, p)
  {
    if MatchAt(s, p).Some? {
      assert FirstMatch(s, p, p);
    } else if p < |s| {
      FindFromLeftmost(s, p + 1);
      if FindFrom(s, p + 1).Some? {
        var p' :| FirstMatch(s, p + 1, p') && MatchAt(s, p') == FindFrom(s, p + 1);
        assert FirstMatch(s, p, p');
      }
    }
  }

  /** No start from `p` up to (not including) `p'` matches. */
  predicate FirstMatch(s: string, p: nat, p': nat) {
    p <= p' <= |s| && forall p'' | p <= p'' < p' :: MatchAt(s, p'').None?
  }

  /** `url.match(youtubeRegex)?.[1]`: the captured video id, if any. */
  function FindId(url: string): (r: Option<string>)
    ensures r.Some? ==> exists k :: IsCapture(url, k) && r.value == url[k..k + IdLength]
    ensures r.Some? ==> exists p, k :: FirstMatch(url, 0, p) && MatchAt(url, p) == Some(k) && r.value == url[k..k + IdLength]
    ensures r.None? <==> !HasCapture(url)
  {
    match FindFrom(url, 0)
    case Some(k) =>
      assert IdAt(url, k);
      FindFromLeftmost(url, 0);
      Some(url[k..k + IdLength])
    case None =>
      assert forall k :: !IsCapture(url, k);
      None
  }

  /** `getYouTubeEmbedUrl`: the embed URL for the captured id followed by
      `query`, or the input itself when nothing matches. Never fails. */
  function EmbedUrl(url: string, query: string): (r: string)
    ensures HasCapture(url) ==>
      exists k :: IsCapture(url, k) && r == EmbedBase + url[k..k + IdLength] + query
    ensures !HasCapture(url) ==> r == url
  {
    match FindId(url)
    case Some(id) => EmbedBase + id + query
    case None => url
  }

  /** The two copies capture the same id from every input: only the query
      string differs. */
  lemma VariantsAgree(url: string, query1: string, query2: string)
    ensures HasCapture(url) ==>
      var n := |EmbedBase| + IdLength;
      n <= |EmbedUrl(url, query1)| && n <= |EmbedUrl(url, query2)|
      && EmbedUrl(url, query1)[..n] == EmbedUrl(url, query2)[..n]
    ensures !HasCapture(url) ==> EmbedUrl(url, query1) == EmbedUrl(url, query2) == url
  {
  }

  // ---------------------------------------------------------------------
  // Normalising an embed URL again

  /** A query string that adds no '/' and no `?v=` or `&v=`. */
  predicate InertQuery(t: string) {
    && (forall i | 0 <= i < |t| :: t[i] != '/')
    && (forall i | 0 <= i < |t| - 2 :: !(t[i] == '?' || t[i] == '&') || t[i + 1] != 'v' || t[i + 2] != '=')
  }

  /** A query string with neither a '/' nor a 'v' in it is inert. */
  lemma InertWithoutSlashOrV(t: string)
    requires '/' !in t && 'v' !in t
    ensures InertQuery(t)
  {
    forall i | 0 <= i < |t| - 2
      ensures !(t[i] == '?' || t[i] == '&') || t[i + 1] != 'v' || t[i + 2] != '='
    {
      assert t[i + 1] in t;
    }
  }

  predicate IsVideoId(id: string) {
    |id| == IdLength && forall i | 0 <= i < |id| :: IsIdChar(id[i])
  }

  lemma LiteralChars(s: string, p: int, lit: string)
    ensures LiteralAt(s, p, lit) ==> forall i | 0 <= i < |lit| :: s[p + i] == lit[i]
  {
    if LiteralAt(s, p, lit) {
      forall i | 0 <= i < |lit| ensures s[p + i] == lit[i] {
        assert s[p..p + |lit|][i] == lit[i];
      }
    }
  }

  /** The first and last characters of a literal found at `p`. */
  lemma LiteralEnds(s: string, p: int, lit: string)
    ensures LiteralAt(s, p, lit) && |lit| > 0 ==> s[p] == lit[0] && s[p + |lit| - 1] == lit[|lit| - 1]
  {
    LiteralChars(s, p, lit);
  }

  /** Where the slashes and the `?v=`/`&v=` markers of an embed URL can be. */
  lemma EmbedShape(id: string, query: string)
    requires IsVideoId(id) && InertQuery(query)
    ensures var s := EmbedBase + id + query;
      && |s| == |EmbedBase| + IdLength + |query|
      && (forall i | 0 <= i < |s| :: s[i] == '/' ==> i == 6 || i == 7 || i == 23 || i == 29)
      && (forall i | 0 <= i < |s| - 2 :: !(s[i] == '?' || s[i] == '&') || s[i + 1] != 'v' || s[i + 2] != '=')
      && s[15] == 't' && s[18] == 'e' && s[21] == 'o' && s[24] == 'e' && s[25] == 'm'
  {
    var s := EmbedBase + id + query;
    var b := |EmbedBase|;
    assert b == 30;
    forall i | 0 <= i < |s|
      ensures s[i] == '/' ==> i == 6 || i == 7 || i == 23 || i == 29
      ensures s[i] == '?' || s[i] == '&' ==> b + IdLength <= i
    {
      if i < b {
        assert s[i] == EmbedBase[i];
      } else if i < b + IdLength {
        assert s[i] == id[i - b];
      } else {
        assert s[i] == query[i - b - IdLength];
      }
    }
    forall i | b + IdLength <= i < |s| - 2
      ensures !(s[i] == '?' || s[i] == '&') || s[i + 1] != 'v' || s[i + 2] != '='
    {
      var j := i - b - IdLength;
      assert s[i] == query[j] && s[i + 1] == query[j + 1] && s[i + 2] == query[j + 2];
    }
    assert s[..b] == EmbedBase;
  }

  /** In an embed URL, the only capture is the id after `embed/`. */
  lemma {:induction false} EmbedCaptureUnique(id: string, query: string, p: int, k: int)
    requires IsVideoId(id) && InertQuery(query)
    requires PrefixMatch(EmbedBase + id + query, p, k) && IdAt(EmbedBase + id + query, k)
    ensures k == |EmbedBase|
  {
    var s := EmbedBase + id + query;
    EmbedShape(id, query);
    LiteralEnds(s, p, "youtube.com/");
    LiteralEnds(s, p, "youtu.be/");
    LiteralEnds(s, p + 12, "v/");
    LiteralEnds(s, p + 12, "e/");
    if LiteralAt(s, p, "youtube.com/") {
      if ChannelPrefix(s, p + 12, k) {
        assert false;
      } else if QueryPrefix(s, p + 12, k) {
        assert false;
      }
    } else {
      assert false;
    }
  }

  /** When the capture at `k` is the only possible one, the normaliser
      uses the id found there. */
  lemma UniqueCaptureEmbeds(s: string, k: int, query: string)
    requires IsCapture(s, k)
    requires forall p, j | PrefixMatch(s, p, j) && IdAt(s, j) :: j == k
    ensures EmbedUrl(s, query) == EmbedBase + s[k..k + IdLength] + query
  {
    assert HasCapture(s);
    var j :| IsCapture(s, j) && EmbedUrl(s, query) == EmbedBase + s[j..j + IdLength] + query;
    var p :| PrefixMatch(s, p, j) && IdAt(s, j);
  }

  /** The pieces of the embed prefix that the link patterns look for. */
  lemma EmbedBaseFacts(w: string)
    requires w == "https://www.youtube.com/embed/"
    ensures |w| == 30 && w[12..24] == "youtube.com/" && w[24..30] == "embed/"
  {
  }

  lemma EmbedCapture(id: string, query: string)
    requires IsVideoId(id)
    ensures IsCapture(EmbedBase + id + query, |EmbedBase|)
  {
    var s := EmbedBase + id + query;
    var b := |EmbedBase|;
    assert s[..b] == EmbedBase;
    EmbedBaseFacts(EmbedBase);
    assert s[12..24] == EmbedBase[12..24];
    assert s[24..30] == EmbedBase[24..30];
    assert ShortPrefix(s, 24, b);
    assert IdAt(s, b) by {
      assert forall i | b <= i < b + IdLength :: s[i] == id[i - b];
    }
    assert PrefixMatch(s, 12, b);
  }

  /** Normalising an already normalised URL gives the same embed URL, with
      whichever query string the normalising copy appends. */
  lemma EmbedUrlRenormalizes(id: string, query: string, query2: string)
    requires IsVideoId(id) && InertQuery(query)
    ensures EmbedUrl(EmbedBase + id + query, query2) == EmbedBase + id + query2
  {
    var s := EmbedBase + id + query;
    var b := |EmbedBase|;
    EmbedCapture(id, query);
    forall p, j | PrefixMatch(s, p, j) && IdAt(s, j)
      ensures j == b
    {
      EmbedCaptureUnique(id, query, p, j);
    }
    UniqueCaptureEmbeds(s, b, query2);
    assert s[b..b + IdLength] == id;
  }

  // ---------------------------------------------------------------------
  // The two link shapes the catalogue uses

  const ShortLinkBase := "https://youtu.be/"
  const WatchLinkBase := "https://www.youtube.com/watch?v="

  /** The pieces of the two link prefixes that the link patterns look for. */
  lemma ShortBaseFacts(w: string)
    requires w == "https://youtu.be/"
    ensures |w| == 17 && w[8..17] == "youtu.be/"
  {
  }

  lemma WatchBaseFacts(w: string)
    requires w == "https://www.youtube.com/watch?v="
    ensures |w| == 32 && w[12..24] == "youtube.com/" && w[24..29] == "watch"
    ensures w[29] == '?' && w[30] == 'v' && w[31] == '='
  {
  }

  /** Where the slashes of a short link are. */
  lemma ShortLinkShape(id: string)
    requires IsVideoId(id)
    ensures var s := ShortLinkBase + id;
      && |s| == |ShortLinkBase| + IdLength
      && (forall i | 0 <= i < |s| :: s[i] == '/' ==> i == 6 || i == 7 || i == 16)
      && s[5] == ':'
  {
    var s := ShortLinkBase + id;
    var b := |ShortLinkBase|;
    assert b == 17;
    forall i | 0 <= i < |s|
      ensures s[i] == '/' ==> i == 6 || i == 7 || i == 16
    {
      if i < b {
        assert s[i] == ShortLinkBase[i];
      } else {
        assert s[i] == id[i - b];
      }
    }
    assert s[..b] == ShortLinkBase;
  }

  lemma ShortLinkCapture(id: string)
    requires IsVideoId(id)
    ensures IsCapture(ShortLinkBase + id, |ShortLinkBase|)
  {
    var s := ShortLinkBase + id;
    var b := |ShortLinkBase|;
    assert s[..b] == ShortLinkBase;
    ShortBaseFacts(ShortLinkBase);
    assert s[8..17] == ShortLinkBase[8..17];
    assert IdAt(s, b) by {
      assert forall i | b <= i < b + IdLength :: s[i] == id[i - b];
    }
    assert PrefixMatch(s, 8, b);
  }

  /** In a short link, the only capture is the id after `youtu.be/`. */
  lemma ShortCaptureUnique(id: string, p: int, k: int)
    requires IsVideoId(id)
    requires PrefixMatch(ShortLinkBase + id, p, k) && IdAt(ShortLinkBase + id, k)
    ensures k == |ShortLinkBase|
  {
    var s := ShortLinkBase + id;
    ShortLinkShape(id);
    LiteralEnds(s, p, "youtube.com/");
    LiteralEnds(s, p, "youtu.be/");
  }

  /** A `youtu.be` short link normalises to the embed URL of its id. */
  lemma ShortLinkNormalizes(id: string, query: string)
    requires IsVideoId(id)
    ensures EmbedUrl(ShortLinkBase + id, query) == EmbedBase + id + query
  {
    var s := ShortLinkBase + id;
    var b := |ShortLinkBase|;
    ShortLinkCapture(id);
    forall p, j | PrefixMatch(s, p, j) && IdAt(s, j)
      ensures j == b
    {
      ShortCaptureUnique(id, p, j);
    }
    UniqueCaptureEmbeds(s, b, query);
    assert s[b..b + IdLength] == id;
  }

  /** Where the slashes and the '?' and '&' of a `watch?v=` link are. */
  lemma WatchLinkShape(id: string)
    requires IsVideoId(id)
    ensures var s := WatchLinkBase + id;
      && |s| == |WatchLinkBase| + IdLength
      && (forall i | 0 <= i < |s| :: s[i] == '/' ==> i == 6 || i == 7 || i == 23)
      && (forall i | 0 <= i < |s| :: s[i] == '?' || s[i] == '&' ==> i == 29)
      && s[15] == 't' && s[24] == 'w'
  {
    var s := WatchLinkBase + id;
    var b := |WatchLinkBase|;
    assert b == 32;
    forall i | 0 <= i < |s|
      ensures s[i] == '/' ==> i == 6 || i == 7 || i == 23
      ensures s[i] == '?' || s[i] == '&' ==> i == 29
    {
      if i < b {
        assert s[i] == WatchLinkBase[i];
      } else {
        assert s[i] == id[i - b];
      }
    }
    assert s[..b] == WatchLinkBase;
  }

  /** In a `watch?v=` link, the only capture is the id after `v=`. */
  lemma WatchCaptureUnique(id: string, p: int, k: int)
    requires IsVideoId(id)
    requires PrefixMatch(WatchLinkBase + id, p, k) && IdAt(WatchLinkBase + id, k)
    ensures k == |WatchLinkBase|
  {
    var s := WatchLinkBase + id;
    WatchLinkShape(id);
    LiteralEnds(s, p, "youtube.com/");
    LiteralEnds(s, p, "youtu.be/");
    LiteralEnds(s, p + 12, "v/");
    LiteralEnds(s, p + 12, "e/");
    LiteralEnds(s, p + 12, "embed/");
  }

  lemma WatchLinkCapture(id: string)
    requires IsVideoId(id)
    ensures IsCapture(WatchLinkBase + id, |WatchLinkBase|)
  {
    var s := WatchLinkBase + id;
    var b := |WatchLinkBase|;
    assert s[..b] == WatchLinkBase;
    WatchBaseFacts(WatchLinkBase);
    assert s[12..24] == WatchLinkBase[12..24];
    assert s[24..29] == WatchLinkBase[24..29];
    assert s[29] == '?' && s[30] == 'v' && s[31] == '=';
    assert NoLineTerminator(s, 24, 29);
    assert QueryPrefix(s, 24, b);
    assert IdAt(s, b) by {
      assert forall i | b <= i < b + IdLength :: s[i] == id[i - b];
    }
    assert PrefixMatch(s, 12, b);
  }

  /** A `watch?v=` link normalises to the embed URL of its id. */
  lemma WatchLinkNormalizes(id: string, query: string)
    requires IsVideoId(id)
    ensures EmbedUrl(WatchLinkBase + id, query) == EmbedBase + id + query
  {
    var s := WatchLinkBase + id;
    var b := |WatchLinkBase|;
    WatchLinkCapture(id);
    forall p, j | PrefixMatch(s, p, j) && IdAt(s, j)
      ensures j == b
    {
      WatchCaptureUnique(id, p, j);
    }
    UniqueCaptureEmbeds(s, b, query);
    assert s[b..b + IdLength] == id;
  }
}
