/** The full-screen watch page (`WatchNow`): its embed URL, its clock text
    and the playback state driven by button presses and timer events. */
module WatchNow {
  import opened Prelude
  import opened Decimal
  import opened YouTube

  /** The query string this copy of `getYouTubeEmbedUrl` appends,
      `?autoplay=1&rel=0&controls=0&showinfo=0&modestbranding=1`, written
      in three pieces. */
  const WatchQuery := "?autoplay=1&rel=0" + "&controls=0&showinfo=0" + "&modestbranding=1"

  /** The fixed running time, 2 h 2 min in seconds. */
  const Duration: nat := 7320

  const DefaultTitle := "Filme"

  /** The `title` query parameter, or "Filme" when it is missing or empty. */
  function MovieTitle(param: Option<string>): (r: string)
    ensures r != ""
    ensures param.Some? && param.value != "" ==> r == param.value
    ensures param.None? || param.value == "" ==> r == DefaultTitle
  {
    if param.Some? && param.value != "" then param.value else DefaultTitle
  }

  /** The `videoUrl` query parameter, or "" when it is missing. */
  function VideoUrlParam(param: Option<string>): (r: string)
    ensures r == "" <==> param.None? || param.value == ""
    ensures r != "" ==> param == Some(r)
  {
    if param.Some? then param.value else ""
  }

  /** `embedUrl`: empty for an empty video URL, without consulting the
      normaliser; otherwise the normalised URL. */
  function WatchEmbedUrl(videoUrl: string): (r: string)
    ensures r == "" <==> videoUrl == ""
    ensures videoUrl != "" ==> r == EmbedUrl(videoUrl, WatchQuery)
  {
    if videoUrl == "" then "" else EmbedUrl(videoUrl, WatchQuery)
  }

  lemma WatchQueryChars(a: string, b: string, c: string)
    requires a == "?autoplay=1&rel=0" && b == "&controls=0&showinfo=0" && c == "&modestbranding=1"
    ensures '/' !in a + b + c && 'v' !in a + b + c
  {
    assert '/' !in a && '/' !in b && '/' !in c;
    assert 'v' !in a && 'v' !in b && 'v' !in c;
  }

  /** The page's query string adds neither a path segment nor a `v=`
      parameter. */
  lemma WatchQueryInert()
    ensures InertQuery(WatchQuery)
  {
    WatchQueryChars("?autoplay=1&rel=0", "&controls=0&showinfo=0", "&modestbranding=1");
    InertWithoutSlashOrV(WatchQuery);
  }

  /** Every recognised short link becomes the embed URL of its id. */
  lemma WatchEmbedShortLink(id: string)
    requires IsVideoId(id)
    ensures WatchEmbedUrl(ShortLinkBase + id) == EmbedBase + id + WatchQuery
  {
    ShortLinkNormalizes(id, WatchQuery);
  }

  /** Every `watch?v=` link becomes the embed URL of its id. */
  lemma WatchEmbedWatchLink(id: string)
    requires IsVideoId(id)
    ensures WatchEmbedUrl(WatchLinkBase + id) == EmbedBase + id + WatchQuery
  {
    WatchLinkNormalizes(id, WatchQuery);
  }

  /** A URL this page already produced is kept as it is. */
  lemma WatchEmbedStable(id: string)
    requires IsVideoId(id)
    ensures WatchEmbedUrl(EmbedBase + id + WatchQuery) == EmbedBase + id + WatchQuery
  {
    WatchQueryInert();
    EmbedUrlRenormalizes(id, WatchQuery, WatchQuery);
  }

  /** What fills the screen: the player frame when there is an embed URL,
      otherwise the title card with the play state written under it. */
  datatype Backdrop =
    | Frame(src: string, caption: string)
    | TitleCard(heading: string, status: string)

  function ScreenBackdrop(videoUrl: string, title: string, isPlaying: bool): (b: Backdrop)
    ensures b.Frame? <==> videoUrl != ""
    ensures b.Frame? ==> b.src == EmbedUrl(videoUrl, WatchQuery) && b.caption == "Assistindo - " + title
    ensures b.TitleCard? ==> b.heading == title && b.status == (if isPlaying then "Reproduzindo..." else "Pausado")
  {
    var embed := WatchEmbedUrl(videoUrl);
    if embed != "" then Frame(embed, "Assistindo - " + title)
    else TitleCard(title, if isPlaying then "Reproduzindo..." else "Pausado")
  }

  // ---------------------------------------------------------------------
  // The clock text

  /** `n.toString().padStart(2, '0')`. */
  function Pad2(n: nat): (r: string)
    ensures AllDigits(r)
    ensures n < 100 ==> |r| == 2
  {
    PadStart(NatToString(n), 2, '0')
  }

  /** `formatTime`: `H:MM:SS` from one hour on, `M:SS` below it. The text
      is a well-formed clock reading (`ClockFields`), with three fields
      exactly from one hour on, whose base-60 value is the input. */
  function FormatTime(seconds: nat): (r: string)
    ensures ClockFields(Split(r, ':'))
    ensures |Split(r, ':')| == 3 <==> seconds >= 3600
    ensures ClockValue(Split(r, ':')) == seconds
  {
    var hours := seconds / 3600;
    var minutes := (seconds % 3600) / 60;
    var secs := seconds % 60;
    ClockParts(seconds);
    if hours > 0 then
      HoursFields(hours, minutes, secs);
      ClockText3(NatToString(hours), Pad2(minutes), Pad2(secs));
      NatToString(hours) + ":" + Pad2(minutes) + ":" + Pad2(secs)
    else
      MinutesFields(minutes, secs);
      ClockText2(NatToString(minutes), Pad2(secs));
      NatToString(minutes) + ":" + Pad2(secs)
  }

  predicate DigitFields(fields: seq<string>) {
    forall i | 0 <= i < |fields| :: AllDigits(fields[i])
  }

  /** The number of seconds a list of colon-separated digit fields denotes,
      read in base 60 with the last field as seconds. */
  function ClockValue(fields: seq<string>): nat
    requires DigitFields(fields)
  {
    if fields == [] then 0
    else ClockValue(fields[..|fields| - 1]) * 60 + ParseNat(fields[|fields| - 1])
  }

  /** Reads a clock text back: the value of its fields when they are all
      digits, nothing otherwise. */
  function ParseClock(t: string): (r: Option<nat>)
    ensures r.Some? <==> DigitFields(Split(t, ':'))
  {
    var fields := Split(t, ':');
    if DigitFields(fields) then Some(ClockValue(fields)) else None
  }

  lemma NoColon(s: string)
    requires AllDigits(s)
    ensures ':' !in s
  {
    assert forall i | 0 <= i < |s| :: s[i] != ':';
  }

  /** Two-digit padding keeps the value and leaves a single leading zero
      only below ten. */
  lemma Pad2Value(n: nat)
    requires n < 60
    ensures ParseNat(Pad2(n)) == n
    ensures Pad2(n)[0] == '0' <==> n < 10
  {
    var d := NatToString(n);
    ParseNatToString(n);
    if n < 10 {
      assert Pad2(n) == "0" + d;
      ParseNatLeadingZero(d);
    } else {
      assert Pad2(n) == d;
    }
  }

  /** Digit fields joined with ':' split back into the same fields. */
  lemma ClockText2(a: string, b: string)
    requires AllDigits(a) && AllDigits(b)
    ensures Split(a + ":" + b, ':') == [a, b]
  {
    NoColon(a);
    NoColon(b);
    SplitWhole(b, ':');
    assert a + ":" + b == a + [':'] + b;
    SplitAfter(a, ':', b);
  }

  lemma ClockText3(a: string, b: string, c: string)
    requires AllDigits(a) && AllDigits(b) && AllDigits(c)
    ensures Split(a + ":" + b + ":" + c, ':') == [a, b, c]
  {
    NoColon(a);
    ClockText2(b, c);
    assert a + ":" + b + ":" + c == a + [':'] + (b + ":" + c);
    SplitAfter(a, ':', b + ":" + c);
  }

  /** A well-formed clock reading, split at ':': `M:SS` or `H:MM:SS`, all
      digits, seconds (and minutes after hours) two digits below 60, the
      leading field without a leading zero and hours, when present, not
      zero. */
  predicate ClockFields(f: seq<string>) {
    && (|f| == 2 || |f| == 3)
    && DigitFields(f)
    && |f[0]| >= 1
    && (forall i | 1 <= i < |f| :: |f[i]| == 2 && ParseNat(f[i]) < 60)
    && (f[0][0] == '0' ==> f[0] == "0")
    && (|f| == 3 ==> f[0][0] != '0')
  }

  lemma HoursFields(h: nat, m: nat, x: nat)
    requires h > 0 && m < 60 && x < 60
    ensures ClockFields([NatToString(h), Pad2(m), Pad2(x)])
    ensures ClockValue([NatToString(h), Pad2(m), Pad2(x)]) == (h * 60 + m) * 60 + x
  {
    Pad2Value(m);
    Pad2Value(x);
    ParseNatToString(h);
    ClockValueThree(NatToString(h), Pad2(m), Pad2(x));
  }

  lemma MinutesFields(m: nat, x: nat)
    requires m < 60 && x < 60
    ensures ClockFields([NatToString(m), Pad2(x)])
    ensures ClockValue([NatToString(m), Pad2(x)]) == m * 60 + x
  {
    Pad2Value(x);
    ParseNatToString(m);
    ClockValueTwo(NatToString(m), Pad2(x));
  }

  /** Hours, minutes and seconds as `formatTime` computes them make up the
      whole time. */
  lemma ClockParts(seconds: nat)
    ensures (seconds % 3600) / 60 < 60 && seconds % 60 < 60
    ensures seconds == ((seconds / 3600) * 60 + (seconds % 3600) / 60) * 60 + seconds % 60
    ensures seconds / 3600 > 0 <==> seconds >= 3600
  {
    var h, r := seconds / 3600, seconds % 3600;
    var m, x := r / 60, r % 60;
    assert seconds == h * 3600 + r;
    assert r == m * 60 + x;
    assert seconds == (h * 60 + m) * 60 + x;
    DivMod60(seconds, h * 60 + m, x);
  }

  lemma ClockValueTwo(a: string, b: string)
    requires AllDigits(a) && AllDigits(b)
    ensures DigitFields([a, b])
    ensures ClockValue([a, b]) == ParseNat(a) * 60 + ParseNat(b)
  {
    assert [a, b][..1] == [a] && [a][..0] == [];
    assert ClockValue([a]) == ParseNat(a);
  }

  lemma ClockValueThree(a: string, b: string, c: string)
    requires AllDigits(a) && AllDigits(b) && AllDigits(c)
    ensures DigitFields([a, b, c])
    ensures ClockValue([a, b, c]) == (ParseNat(a) * 60 + ParseNat(b)) * 60 + ParseNat(c)
  {
    assert [a, b, c][..2] == [a, b];
    ClockValueTwo(a, b);
  }

  /** Reading back the text gives the number of seconds it was made from. */
  lemma FormatTimeRoundTrip(seconds: nat)
    ensures ParseClock(FormatTime(seconds)) == Some(seconds)
  {
  }

  /** Two times print alike only when they are the same time. */
  lemma FormatTimeInjective(s1: nat, s2: nat)
    requires FormatTime(s1) == FormatTime(s2)
    ensures s1 == s2
  {
    FormatTimeRoundTrip(s1);
    FormatTimeRoundTrip(s2);
  }

  /** `formatTime` of a time given as hours, minutes and seconds. */
  lemma FormatTimeOf(seconds: nat, h: nat, m: nat, x: nat)
    requires m < 60 && x < 60
    requires seconds == h * 3600 + m * 60 + x
    ensures FormatTime(seconds) ==
      if h > 0 then NatToString(h) + ":" + Pad2(m) + ":" + Pad2(x)
      else NatToString(m) + ":" + Pad2(x)
  {
    DivMod3600(seconds, h, m * 60 + x);
    DivMod60(m * 60 + x, m, x);
    DivMod60(seconds, h * 60 + m, x);
  }

  lemma DivMod3600(n: int, q: int, r: int)
    requires 0 <= r < 3600 && n == q * 3600 + r
    ensures n / 3600 == q && n % 3600 == r
  {
  }

  lemma DivMod60(n: int, q: int, r: int)
    requires 0 <= r < 60 && n == q * 60 + r
    ensures n / 60 == q && n % 60 == r
  {
  }

  /** A single digit prints as itself, and padded with one zero. */
  lemma SingleDigit(n: nat)
    requires n < 10
    ensures NatToString(n) == [DigitChar(n)]
    ensures Pad2(n) == ['0', DigitChar(n)]
  {
    assert Pad2(n) == "0" + [DigitChar(n)];
  }

  lemma FormatTimeZero(seconds: nat)
    requires seconds == 0
    ensures FormatTime(seconds) == "0:00"
  {
    FormatTimeOf(seconds, 0, 0, 0);
    SingleDigit(0);
  }

  lemma FormatTimeMinute(seconds: nat)
    requires seconds == 65
    ensures FormatTime(seconds) == "1:05"
  {
    FormatTimeOf(seconds, 0, 1, 5);
    SingleDigit(1);
    SingleDigit(5);
  }

  lemma FormatTimeHour(seconds: nat)
    requires seconds == 3661
    ensures FormatTime(seconds) == "1:01:01"
  {
    FormatTimeOf(seconds, 1, 1, 1);
    SingleDigit(1);
  }

  /** The fixed duration prints as "2:02:00". */
  lemma FormatTimeDuration(seconds: nat)
    requires seconds == Duration
    ensures FormatTime(seconds) == "2:02:00"
  {
    FormatTimeOf(seconds, 2, 2, 0);
    SingleDigit(2);
    SingleDigit(0);
  }

  // ---------------------------------------------------------------------
  // The clock

  /** One interval callback: `Math.min(prev + 1, duration)`. */
  function Advance(t: nat, duration: nat): (r: nat)
    ensures t < duration ==> r == t + 1
    ensures t >= duration ==> r == duration
  {
    if t + 1 < duration then t + 1 else duration
  }

  /** The clock after `n` callbacks. */
  function AfterTicks(t: nat, n: nat, duration: nat): nat
    decreases n
  {
    if n == 0 then t else AfterTicks(Advance(t, duration), n - 1, duration)
  }

  /** From the start, `n` callbacks show `min(n, duration)` seconds. */
  lemma {:induction false} TicksFromStart(n: nat, duration: nat)
    ensures AfterTicks(0, n, duration) == if n < duration then n else duration
  {
    TicksFrom(0, n, duration);
  }

  lemma {:induction false} TicksFrom(t: nat, n: nat, duration: nat)
    requires t <= duration
    decreases n
    ensures AfterTicks(t, n, duration) == if t + n < duration then t + n else duration
  {
    if n > 0 {
      TicksFrom(Advance(t, duration), n - 1, duration);
    }
  }

  /** Once the end is reached, further callbacks leave the clock there. */
  lemma {:induction false} TicksAtEnd(n: nat, duration: nat)
    ensures AfterTicks(duration, n, duration) == duration
  {
    if n > 0 {
      TicksAtEnd(n - 1, duration);
    }
  }

  /** The playback state of the page. */
  class Player {
    var isPlaying: bool
    var isMuted: bool
    var showControls: bool
    var currentTime: nat
    const duration: nat

    ghost predicate Valid()
      reads this
    {
      currentTime <= duration
    }

    /** Playing, unmuted, controls shown, at second 0 of 7320. */
    constructor ()
      ensures Valid()
      ensures isPlaying && !isMuted && showControls
      ensures currentTime == 0 && duration == Duration
    {
      isPlaying := true;
      isMuted := false;
      showControls := true;
      currentTime := 0;
      duration := Duration;
    }

    /** The one-second interval, which runs only while playing; reaching
        the end does not stop playback. */
    method Tick()
      requires Valid()
      modifies this
      ensures Valid()
      ensures currentTime == if old(isPlaying) then Advance(old(currentTime), duration) else old(currentTime)
      ensures isPlaying == old(isPlaying) && isMuted == old(isMuted) && showControls == old(showControls)
    {
      if isPlaying {
        currentTime := if currentTime + 1 < duration then currentTime + 1 else duration;
      }
    }

    /** Either play/pause button. */
    method TogglePlay()
      requires Valid()
      modifies this
      ensures Valid()
      ensures isPlaying == !old(isPlaying)
      ensures isMuted == old(isMuted) && showControls == old(showControls) && currentTime == old(currentTime)
    {
      isPlaying := !isPlaying;
    }

    /** The volume button. */
    method ToggleMute()
      requires Valid()
      modifies this
      ensures Valid()
      ensures isMuted == !old(isMuted)
      ensures isPlaying == old(isPlaying) && showControls == old(showControls) && currentTime == old(currentTime)
    {
      isMuted := !isMuted;
    }

    /** Moving the pointer over the page shows the controls. */
    method PointerMove()
      requires Valid()
      modifies this
      ensures Valid()
      ensures showControls
      ensures isPlaying == old(isPlaying) && isMuted == old(isMuted) && currentTime == old(currentTime)
    {
      showControls := true;
    }

    /** The three-second timeout that hides the controls. */
    method HideControls()
      requires Valid()
      modifies this
      ensures Valid()
      ensures !showControls
      ensures isPlaying == old(isPlaying) && isMuted == old(isMuted) && currentTime == old(currentTime)
    {
      showControls := false;
    }

    /** The two time labels under the progress bar. */
    function TimeLabels(): (labels: (string, string))
      reads this
      ensures ParseClock(labels.0) == Some(currentTime)
      ensures ParseClock(labels.1) == Some(duration)
      ensures ClockFields(Split(labels.0, ':')) && ClockFields(Split(labels.1, ':'))
    {
      FormatTimeRoundTrip(currentTime);
      FormatTimeRoundTrip(duration);
      (FormatTime(currentTime), FormatTime(duration))
    }
  }
}
