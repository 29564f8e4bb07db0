/** The presence record served by the Lanyard API, and the helpers of
    utils/lanyard.js that turn it into what the status card shows: a status
    colour, an activity icon, an `m:ss` clock and a Spotify progress
    percentage. Every helper is a pure function; the current time, which the
    source reads from Date.now(), is a parameter. */
module Lanyard {
  import opened JsBuiltins

  // ---------------------------------------------------------------------------
  // The presence record
  // ---------------------------------------------------------------------------

  datatype Assets = Assets(largeImage: Option<string>, smallImage: Option<string>)

  /** Epoch milliseconds; 0 and absence are both falsy in the source. */
  datatype Timestamps = Timestamps(start: Option<int>, end: Option<int>)

  /** One entry of `activities`; `kind` is the numeric `type` field
      (0 a game, 4 a custom status). */
  datatype Activity = Activity(
    name: Option<string>,
    kind: int,
    state: Option<string>,
    details: Option<string>,
    applicationId: Option<string>,
    assets: Option<Assets>,
    timestamps: Option<Timestamps>)

  datatype User = User(
    id: Option<string>,
    username: Option<string>,
    avatar: Option<string>,
    discriminator: Option<string>)

  datatype Spotify = Spotify(
    song: Option<string>,
    artist: Option<string>,
    albumArtUrl: Option<string>,
    timestamps: Option<Timestamps>)

  datatype Presence = Presence(
    discordStatus: Option<string>,
    activities: Option<seq<Activity>>,
    discordUser: Option<User>,
    listeningToSpotify: bool,
    spotify: Option<Spotify>)

  /** JavaScript truthiness of an optional string: present and not empty. */
  predicate Truthy(s: Option<string>) {
    s.Some? && s.value != ""
  }

  // ---------------------------------------------------------------------------
  // getStatusColor
  // ---------------------------------------------------------------------------

  const Green := "bg-green-500"
  const Yellow := "bg-yellow-500"
  const Red := "bg-red-500"
  const Gray := "bg-gray-500"

  /** The colour of the presence dot. */
  function StatusColor(status: Option<string>): (r: string)
    ensures r == Green <==> status == Some("online")
    ensures r == Yellow <==> status == Some("idle")
    ensures r == Red <==> status == Some("dnd")
    ensures r == Gray <==> status !in {Some("online"), Some("idle"), Some("dnd")}
  {
    match status
    case Some("online") => Green
    case Some("idle") => Yellow
    case Some("dnd") => Red
    case _ => Gray
  }

  // ---------------------------------------------------------------------------
  // getActivityIcon
  // ---------------------------------------------------------------------------

  const SpotifyIcon := "https://i.scdn.co/image/ab67616d0000b273e5a25ed08d1e7e0fdd82ac29"
  const RobloxIcon := "https://dcdn.dstn.to/app-icons/1005469189907173486"
  const VsCodeIcon := "https://cdn.discordapp.com/app-assets/383226320970055681/1359299282380918886.png"

  /** `activity?.name?.toLowerCase().includes(key)`. */
  predicate NameMentions(a: Option<Activity>, key: string) {
    a.Some? && a.value.name.Some? && Includes(ToLower(a.value.name.value), key)
  }

  /** `activity?.application_id && activity?.assets?.large_image`. */
  predicate HasAppAsset(a: Option<Activity>) {
    a.Some? && Truthy(a.value.applicationId) &&
    a.value.assets.Some? && Truthy(a.value.assets.value.largeImage)
  }

  function AppAssetUrl(applicationId: string, image: string): string {
    "https://cdn.discordapp.com/app-assets/" + applicationId + "/" + image + ".png"
  }

  /** The icon of an activity: the first rule that applies, in the order
      Spotify, Roblox, Visual Studio Code, the activity's own large image;
      None (null) when none applies. */
  function ActivityIcon(a: Option<Activity>): (r: Option<string>)
    ensures NameMentions(a, "spotify") ==> r == Some(SpotifyIcon)
    ensures !NameMentions(a, "spotify") && NameMentions(a, "roblox") ==> r == Some(RobloxIcon)
    ensures (!NameMentions(a, "spotify") && !NameMentions(a, "roblox") &&
             NameMentions(a, "visual studio code")) ==> r == Some(VsCodeIcon)
    ensures r.None? <==>
              !NameMentions(a, "spotify") && !NameMentions(a, "roblox") &&
              !NameMentions(a, "visual studio code") && !HasAppAsset(a)
  {
    if NameMentions(a, "spotify") then Some(SpotifyIcon)
    else if NameMentions(a, "roblox") then Some(RobloxIcon)
    else if NameMentions(a, "visual studio code") then Some(VsCodeIcon)
    else if HasAppAsset(a) then
      Some(AppAssetUrl(a.value.applicationId.value, a.value.assets.value.largeImage.value))
    else None
  }

  /** The name rules ignore letter case: renaming an activity to the
      lower-cased form of its name does not change its icon. */
  lemma ActivityIconIgnoresCase(a: Activity)
    requires a.name.Some?
    ensures ActivityIcon(Some(a)) == ActivityIcon(Some(a.(name := Some(ToLower(a.name.value)))))
  {
    ToLowerIdempotent(a.name.value);
  }

  /** When no name rule applies, the icon is the activity's own large image. */
  lemma ActivityIconFallsBackToAsset(a: Activity)
    requires !NameMentions(Some(a), "spotify") && !NameMentions(Some(a), "roblox")
    requires !NameMentions(Some(a), "visual studio code") && HasAppAsset(Some(a))
    ensures ActivityIcon(Some(a)) == Some(AppAssetUrl(a.applicationId.value, a.assets.value.largeImage.value))
  {
  }

  // ---------------------------------------------------------------------------
  // formatTime and formatElapsedTime
  // ---------------------------------------------------------------------------

  /** formatTime(seconds): Math.floor(seconds / 60), a colon, then
      Math.floor(seconds % 60) padded to two characters with '0'. */
  function FormatTime(seconds: real): string
  {
    var mins := Floor(seconds / 60.0);
    var secs := Floor(JsRem(seconds, 60.0));
    IntToString(mins) + ":" + PadStart2(IntToString(secs))
  }

  /** On a whole, non-negative number of seconds n the clock shows
      n div 60, a colon and n mod 60 on two digits. */
  lemma FormatWholeSeconds(n: nat)
    ensures FormatTime(n as real) == Digits(n / 60) + ":" + PadStart2(Digits(n % 60))
  {
    var q, r := n / 60, n % 60;
    assert n == 60 * q + r;
    assert (n as real) / 60.0 == q as real + (r as real) / 60.0;
    assert Floor((n as real) / 60.0) == q;
    assert Trunc((n as real) / 60.0) == q;
    assert JsRem(n as real, 60.0) == r as real;
  }

  /** Only the whole part of a non-negative number of seconds is shown. */
  lemma FormatTimeFloors(x: real)
    requires x >= 0.0
    ensures FormatTime(x) == FormatTime(x.Floor as real)
  {
    var n := x.Floor;
    var q, r := n / 60, n % 60;
    assert n == 60 * q + r;
    assert q as real <= x / 60.0 < q as real + 1.0;
    assert Floor(x / 60.0) == q;
    assert Floor(n as real / 60.0) == q;
    assert JsRem(x, 60.0) == x - 60.0 * q as real;
    assert Floor(JsRem(x, 60.0)) == r;
    assert JsRem(n as real, 60.0) == r as real;
  }

  /** Reads an `m:ss` clock back as a number of seconds: minutes in decimal,
      a colon, exactly two digits of seconds below 60. */
  function ParseClock(s: string): Option<nat>
  {
    if |s| < 4 || s[|s| - 3] != ':' then None
    else
      var m, a, b := s[..|s| - 3], s[|s| - 2], s[|s| - 1];
      if (forall i :: 0 <= i < |m| ==> IsDigit(m[i])) &&
         IsDigit(a) && IsDigit(b) && 10 * DigitValue(a) + DigitValue(b) < 60
      then Some(60 * DigitsValue(m) + 10 * DigitValue(a) + DigitValue(b))
      else None
  }

  /** Seconds below 60 are printed as their tens digit and their units digit. */
  lemma TwoDigitSeconds(r: nat)
    requires r < 60
    ensures PadStart2(Digits(r)) == [DigitChar(r / 10), DigitChar(r % 10)]
  {
    if r >= 10 {
      assert Digits(r) == Digits(r / 10) + [DigitChar(r % 10)];
    }
  }

  /** Any decimal minutes, a colon and two digits below 60 read back. */
  lemma ParseClockParts(m: string, a: char, b: char)
    requires |m| > 0 && forall i :: 0 <= i < |m| ==> IsDigit(m[i])
    requires IsDigit(a) && IsDigit(b) && 10 * DigitValue(a) + DigitValue(b) < 60
    ensures ParseClock(m + [':', a, b]) == Some(60 * DigitsValue(m) + 10 * DigitValue(a) + DigitValue(b))
  {
    var s := m + [':', a, b];
    assert s[..|s| - 3] == m;
    assert s[|s| - 3] == ':' && s[|s| - 2] == a && s[|s| - 1] == b;
  }

  /** The digit written for d reads back as d. */
  lemma DigitValueOfChar(d: nat)
    requires d < 10
    ensures DigitValue(DigitChar(d)) == d
  {
  }

  /** Appending ":" and then two characters appends the three characters. */
  lemma ColonThenTwo(m: string, a: char, b: char)
    ensures m + ":" + [a, b] == m + [':', a, b]
  {
  }

  /** The clock of q minutes and r < 60 seconds, character by character. */
  lemma ClockText(q: nat, r: nat)
    requires r < 60
    ensures Digits(q) + ":" + PadStart2(Digits(r)) == Digits(q) + [':', DigitChar(r / 10), DigitChar(r % 10)]
  {
    TwoDigitSeconds(r);
    ColonThenTwo(Digits(q), DigitChar(r / 10), DigitChar(r % 10));
  }

  /** The digits of q, a colon and the two digits of r < 60 read back as 60 q + r. */
  lemma ParseClockDigits(q: nat, r: nat)
    requires r < 60
    ensures ParseClock(Digits(q) + [':', DigitChar(r / 10), DigitChar(r % 10)]) == Some(60 * q + r)
  {
    var t, u := r / 10, r % 10;
    DigitsRoundTrip(q);
    DigitValueOfChar(t);
    DigitValueOfChar(u);
    ParseClockParts(Digits(q), DigitChar(t), DigitChar(u));
  }

  /** A clock of q minutes and r < 60 seconds reads back as 60 q + r. */
  lemma ParseClockOfParts(q: nat, r: nat)
    requires r < 60
    ensures ParseClock(Digits(q) + ":" + PadStart2(Digits(r))) == Some(60 * q + r)
  {
    ClockText(q, r);
    ParseClockDigits(q, r);
  }

  /** The clock of n seconds, n div 60 and n mod 60, reads back as n. */
  lemma ParseClockOfClock(n: nat)
    ensures ParseClock(Digits(n / 60) + ":" + PadStart2(Digits(n % 60))) == Some(n)
  {
    var q, r := n / 60, n % 60;
    assert n == 60 * q + r && r < 60;
    ParseClockOfParts(q, r);
  }

  /** Reading the clock back gives the number of seconds that was formatted,
      so the seconds field is always two digits below 60. */
  lemma FormatTimeRoundTrip(n: nat)
    ensures ParseClock(FormatTime(n as real)) == Some(n)
  {
    FormatWholeSeconds(n);
    ParseClockOfClock(n);
  }

  /** formatElapsedTime(start): whole seconds since `start` (milliseconds),
      rounded down, as a clock. */
  function FormatElapsedTime(start: int, now: int): string
  {
    var elapsed := Floor(((now - start) as real) / 1000.0);
    FormatTime(elapsed as real)
  }

  /** The rounding is integer division of the elapsed milliseconds by 1000,
      rounded towards minus infinity; for a start in the past this is the
      clock of the whole elapsed seconds. */
  lemma FormatElapsedIsWholeSeconds(start: int, now: int)
    ensures FormatElapsedTime(start, now) == FormatTime(((now - start) / 1000) as real)
    ensures now >= start ==>
              ParseClock(FormatElapsedTime(start, now)) == Some((now - start) / 1000)
  {
    var q := (now - start) / 1000;
    FloorMillis(now - start);
    assert FormatElapsedTime(start, now) == FormatTime(q as real);
    if now >= start {
      FormatTimeRoundTrip(q);
    }
  }

  /** Math.floor of milliseconds over 1000 is integer division rounding
      towards minus infinity. */
  lemma FloorMillis(d: int)
    ensures Floor((d as real) / 1000.0) == d / 1000
  {
    var q, r := d / 1000, d % 1000;
    assert d == 1000 * q + r && 0 <= r < 1000;
    assert (d as real) / 1000.0 == q as real + (r as real) / 1000.0;
  }

  // ---------------------------------------------------------------------------
  // getSpotifyProgress
  // ---------------------------------------------------------------------------

  /** `Math.min(100, Math.max(0, (elapsed / total) * 100))`, with the
      divisions by zero of JavaScript: a positive elapsed over 0 is +Infinity
      (100 after clamping), a negative one -Infinity (0), and 0 / 0 is NaN,
      which stays NaN through Math.max and Math.min (None). */
  function ClampedPercent(elapsed: int, total: int): (r: Option<real>)
    ensures r.Some? ==> 0.0 <= r.value <= 100.0
    ensures r.None? <==> elapsed == 0 && total == 0
    ensures total > 0 && elapsed <= 0 ==> r == Some(0.0)
    ensures total > 0 && elapsed >= total ==> r == Some(100.0)
    ensures total > 0 && 0 <= elapsed <= total ==> r == Some((elapsed as real / total as real) * 100.0)
  {
    if total == 0 then
      if elapsed > 0 then Some(100.0) else if elapsed < 0 then Some(0.0) else None
    else
      var p := (elapsed as real / total as real) * 100.0;
      Some(if p > 100.0 then 100.0 else if p < 0.0 then 0.0 else p)
  }

  /** A later moment never shows less progress on the same track. */
  lemma ClampedPercentMonotone(e1: int, e2: int, total: int)
    requires total > 0 && e1 <= e2
    ensures ClampedPercent(e1, total).value <= ClampedPercent(e2, total).value
  {
    assert e1 as real / total as real <= e2 as real / total as real;
  }

  /** getSpotifyProgress(timestamps) at time `now`: 0 when either end is
      missing or zero, otherwise the elapsed share of the track clamped to
      [0, 100]. */
  function SpotifyProgress(ts: Option<Timestamps>, now: int): (r: Option<real>)
    ensures r.Some? ==> 0.0 <= r.value <= 100.0
    ensures ts.None? || !NonZero(ts.value.start) || !NonZero(ts.value.end) ==> r == Some(0.0)
    ensures ts.Some? && NonZero(ts.value.start) && NonZero(ts.value.end) ==>
              r == ClampedPercent(now - ts.value.start.value, ts.value.end.value - ts.value.start.value)
  {
    if ts.None? || !NonZero(ts.value.start) || !NonZero(ts.value.end) then Some(0.0)
    else
      var start, end := ts.value.start.value, ts.value.end.value;
      ClampedPercent(now - start, end - start)
  }

  /** A present, non-zero timestamp (its JavaScript truthiness). */
  predicate NonZero(t: Option<int>) {
    t.Some? && t.value != 0
  }

  /** For a track whose end follows its start the progress is a number in
      [0, 100], 0 until the start, 100 from the end on, and never goes back
      as time passes. */
  lemma SpotifyProgressOfTrack(start: int, end: int, now: int, later: int)
    requires start != 0 && end != 0 && end > start && now <= later
    ensures var ts := Some(Timestamps(Some(start), Some(end)));
            SpotifyProgress(ts, now).Some? &&
            (now <= start ==> SpotifyProgress(ts, now) == Some(0.0)) &&
            (now >= end ==> SpotifyProgress(ts, now) == Some(100.0)) &&
            SpotifyProgress(ts, now).value <= SpotifyProgress(ts, later).value
  {
    ClampedPercentMonotone(now - start, later - start, end - start);
  }
}
