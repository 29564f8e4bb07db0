/** The live status card of components/DiscordStatus.js: the state it keeps
    between polls of the presence endpoint, the reducer that applies one poll
    outcome, the placeholder condition, and the expressions its view computes
    from the presence record (custom status, game rows, default avatar,
    progress-bar width, elapsed clocks). The component's own copies of
    getStatusColor, getActivityIcon and formatTime are identical to those of
    utils/lanyard.js and are modelled once, in module Lanyard. */
module DiscordStatus {
  import opened JsBuiltins
  import opened Lanyard

  // ---------------------------------------------------------------------------
  // Poll state and its reducer
  // ---------------------------------------------------------------------------

  /** The three state cells `discordData`, `hasError` and `loading`. */
  datatype CardState = CardState(discordData: Option<Presence>, hasError: bool, loading: bool)

  /** Before the first poll: no data, no error, loading. */
  const Initial := CardState(None, false, true)

  /** What one poll came back with: a parsed envelope `{ success, data }`, or
      an exception from fetch or from reading the body as JSON. */
  datatype PollOutcome =
    | Envelope(success: bool, data: Option<Presence>)
    | Thrown

  predicate IsSuccess(o: PollOutcome) {
    o.Envelope? && o.success
  }

  /** One run of fetchDiscordStatus. The source replaces the data only when
      the payload's JSON text differs from the current data's; here records
      are compared for equality. Either way the data becomes the payload. */
  function Poll(s: CardState, o: PollOutcome): (t: CardState)
    ensures IsSuccess(o) ==> t.discordData == o.data && !t.hasError
    ensures !IsSuccess(o) ==> t.discordData == s.discordData && t.hasError
    ensures !t.loading
  {
    match o
    case Envelope(success, payload) =>
      if success then
        var kept := if s.discordData != payload then payload else s.discordData;
        CardState(kept, false, false)
      else
        CardState(s.discordData, true, false)
    case Thrown =>
      CardState(s.discordData, true, false)
  }

  /** The card shows its pulsing placeholder instead of the presence. */
  predicate ShowsPlaceholder(s: CardState) {
    s.loading || s.hasError || s.discordData.None?
  }

  /** After any poll the placeholder is shown exactly when the poll did not
      bring a presence record; one good poll is enough to leave it. */
  lemma PlaceholderAfterPoll(s: CardState, o: PollOutcome)
    ensures ShowsPlaceholder(Poll(s, o)) <==> !(IsSuccess(o) && o.data.Some?)
  {
  }

  /** Applies the outcomes of successive polls in order. */
  function PollAll(s: CardState, outcomes: seq<PollOutcome>): CardState
    decreases |outcomes|
  {
    if |outcomes| == 0 then s else PollAll(Poll(s, outcomes[0]), outcomes[1..])
  }

  /** The payload of the last successful poll, or `current` when none was. */
  function LastPayload(current: Option<Presence>, outcomes: seq<PollOutcome>): Option<Presence>
  {
    if |outcomes| == 0 then current
    else if IsSuccess(outcomes[|outcomes| - 1]) then outcomes[|outcomes| - 1].data
    else LastPayload(current, outcomes[..|outcomes| - 1])
  }

  lemma {:induction false} PollAllAppend(s: CardState, outcomes: seq<PollOutcome>, o: PollOutcome)
    ensures PollAll(s, outcomes + [o]) == Poll(PollAll(s, outcomes), o)
    decreases |outcomes|
  {
    if |outcomes| > 0 {
      assert (outcomes + [o])[1..] == outcomes[1..] + [o];
      PollAllAppend(Poll(s, outcomes[0]), outcomes[1..], o);
    }
  }

  /** After any run of polls the card holds the last successful payload,
      failures in between never lose it, the error flag reflects only the
      latest poll, and loading is over as soon as one poll has finished. */
  lemma {:induction false} PollsKeepLastPayload(s: CardState, outcomes: seq<PollOutcome>)
    ensures PollAll(s, outcomes).discordData == LastPayload(s.discordData, outcomes)
    ensures |outcomes| > 0 ==>
              PollAll(s, outcomes).hasError == !IsSuccess(outcomes[|outcomes| - 1]) &&
              !PollAll(s, outcomes).loading
  {
    if |outcomes| > 0 {
      var init, last := outcomes[..|outcomes| - 1], outcomes[|outcomes| - 1];
      assert outcomes == init + [last];
      PollAllAppend(s, init, last);
      PollsKeepLastPayload(s, init);
    }
  }

  /** The card opens on its placeholder and keeps it until the latest poll
      has brought a presence record. */
  lemma PlaceholderUntilRecord(outcomes: seq<PollOutcome>)
    ensures ShowsPlaceholder(PollAll(Initial, outcomes)) <==>
              |outcomes| == 0 ||
              !(IsSuccess(outcomes[|outcomes| - 1]) && outcomes[|outcomes| - 1].data.Some?)
  {
    if |outcomes| > 0 {
      var init, last := outcomes[..|outcomes| - 1], outcomes[|outcomes| - 1];
      assert outcomes == init + [last];
      PollAllAppend(Initial, init, last);
      PlaceholderAfterPoll(PollAll(Initial, init), last);
    }
  }

  // ---------------------------------------------------------------------------
  // Custom status
  // ---------------------------------------------------------------------------

  /** `activities.find(a => a.type === kind)`, as the index of the first match. */
  function FirstOfKind(acts: seq<Activity>, kind: int): (r: Option<nat>)
    ensures r.Some? ==> r.value < |acts| && acts[r.value].kind == kind &&
                        forall j :: 0 <= j < r.value ==> acts[j].kind != kind
    ensures r.None? ==> forall j :: 0 <= j < |acts| ==> acts[j].kind != kind
  {
    if |acts| == 0 then None
    else if acts[0].kind == kind then Some(0)
    else
      match FirstOfKind(acts[1..], kind)
      case None => None
      case Some(i) => Some(i + 1)
  }

  /** `discord_status` is "offline", absent or empty. */
  predicate Offline(data: Option<Presence>) {
    data.None? || data.value.discordStatus == Some("offline") || !Truthy(data.value.discordStatus)
  }

  /** getCustomStatus: the `state` of the first activity of type 4, or None
      when the user is offline or that state is missing or empty. */
  function CustomStatus(data: Option<Presence>): (r: Option<string>)
    ensures r.Some? ==> r.value != ""
    ensures Offline(data) ==> r.None?
    ensures !Offline(data) && data.value.activities.Some? ==>
              var acts := data.value.activities.value;
              match FirstOfKind(acts, 4)
              case None => r.None?
              case Some(i) => r == (if Truthy(acts[i].state) then acts[i].state else None)
    ensures !Offline(data) && data.value.activities.None? ==> r.None?
  {
    var first :=
      if data.Some? && data.value.activities.Some? then
        match FirstOfKind(data.value.activities.value, 4)
        case None => None
        case Some(i) => Some(data.value.activities.value[i])
      else None;
    var customStatus := if first.Some? then first.value.state else None;
    if Offline(data) || !Truthy(customStatus) then None else customStatus
  }

  // ---------------------------------------------------------------------------
  // Game rows
  // ---------------------------------------------------------------------------

  /** `activities.filter(activity => activity.type === 0)`. */
  function GameRows(acts: seq<Activity>): (rows: seq<Activity>)
    ensures |rows| <= |acts|
    ensures forall a :: a in rows <==> a in acts && a.kind == 0
  {
    if |acts| == 0 then []
    else if acts[0].kind == 0 then [acts[0]] + GameRows(acts[1..])
    else GameRows(acts[1..])
  }

  /** The filter keeps the games in their original order: the rows are the
      games of the first k activities followed by those of the rest. */
  lemma {:induction false} GameRowsAppend(a: seq<Activity>, b: seq<Activity>)
    ensures GameRows(a + b) == GameRows(a) + GameRows(b)
  {
    if |a| == 0 {
      assert a + b == b;
    } else {
      assert (a + b)[0] == a[0] && (a + b)[1..] == a[1..] + b;
      GameRowsAppend(a[1..], b);
    }
  }

  // ---------------------------------------------------------------------------
  // Avatar
  // ---------------------------------------------------------------------------

  /** `parseInt(discriminator || '0') % 5`, None standing for NaN. */
  function DefaultAvatarIndex(discriminator: Option<string>): (r: Option<int>)
    ensures r.Some? ==> -5 < r.value < 5
  {
    var text := if Truthy(discriminator) then discriminator.value else "0";
    match ParseInt(text)
    case None => None
    case Some(v) => Some(if v >= 0 then v % 5 else -((-v) % 5))
  }

  /** A missing or empty discriminator selects the first default avatar. */
  lemma DefaultAvatarIndexMissing(discriminator: Option<string>)
    requires !Truthy(discriminator)
    ensures DefaultAvatarIndex(discriminator) == Some(0)
  {
    assert ParseInt("0") == Some(0) by {
      ParseIntOfDigits("0");
      assert "0"[..0] == "";
      assert DigitsValue("0") == 0;
    }
  }

  /** A discriminator made of digits selects the default avatar of its value
      modulo 5. */
  lemma DefaultAvatarIndexOfDigits(d: string)
    requires d != "" && forall i :: 0 <= i < |d| ==> IsDigit(d[i])
    ensures DefaultAvatarIndex(Some(d)) == Some(DigitsValue(d) % 5)
    ensures 0 <= DefaultAvatarIndex(Some(d)).value < 5
  {
    ParseIntOfDigits(d);
  }

  /** The text a JavaScript template prints for an optional string. */
  function TemplateText(s: Option<string>): string {
    if s.Some? then s.value else "undefined"
  }

  /** The avatar image: the user's own when `avatar` is set, otherwise one of
      the five default avatars. */
  function AvatarUrl(p: Presence): string
  {
    var user := p.discordUser;
    if user.Some? && Truthy(user.value.avatar) then
      "https://cdn.discordapp.com/avatars/" + TemplateText(user.value.id) + "/" + user.value.avatar.value + ".png"
    else
      var index := DefaultAvatarIndex(if user.Some? then user.value.discriminator else None);
      "https://cdn.discordapp.com/embed/avatars/" + (if index.Some? then IntToString(index.value) else "NaN") + ".png"
  }

  /** Without an avatar, a user whose discriminator is missing or a string of
      digits gets one of the five default images 0.png to 4.png. */
  lemma DefaultAvatarUrl(p: Presence)
    requires p.discordUser.None? || !Truthy(p.discordUser.value.avatar)
    requires p.discordUser.Some? ==>
               var d := p.discordUser.value.discriminator;
               d.Some? ==> forall i :: 0 <= i < |d.value| ==> IsDigit(d.value[i])
    ensures exists k :: 0 <= k < 5 && AvatarUrl(p) == "https://cdn.discordapp.com/embed/avatars/" + [DigitChar(k)] + ".png"
  {
    var d := if p.discordUser.Some? then p.discordUser.value.discriminator else None;
    if d.Some? && d.value != "" {
      DefaultAvatarIndexOfDigits(d.value);
    } else {
      DefaultAvatarIndexMissing(d);
    }
    var k := DefaultAvatarIndex(d).value;
    assert 0 <= k < 5;
    assert IntToString(k) == [DigitChar(k)];
  }

  // ---------------------------------------------------------------------------
  // Spotify row and elapsed clocks
  // ---------------------------------------------------------------------------

  /** The width of the progress bar: the same clamped percentage as
      getSpotifyProgress but without its guard, so a missing timestamp makes
      the arithmetic NaN (None). */
  function ProgressWidth(sp: Option<Spotify>, now: int): (r: Option<real>)
    ensures r.Some? ==> 0.0 <= r.value <= 100.0
  {
    if sp.None? || sp.value.timestamps.None? then None
    else
      var ts := sp.value.timestamps.value;
      if ts.start.None? || ts.end.None? then None
      else ClampedPercent(now - ts.start.value, ts.end.value - ts.start.value)
  }

  /** When both timestamps are present and non-zero the bar agrees with
      getSpotifyProgress. */
  lemma ProgressWidthAgrees(sp: Spotify, now: int)
    requires sp.timestamps.Some? && NonZero(sp.timestamps.value.start) && NonZero(sp.timestamps.value.end)
    ensures ProgressWidth(Some(sp), now) == SpotifyProgress(sp.timestamps, now)
  {
  }

  /** `formatTime((currentTime - start) / 1000)`: the clock of a moment
      `start` (milliseconds), shown beside a song or a game. */
  function ElapsedLabel(now: int, start: int): string
  {
    FormatTime(((now - start) as real) / 1000.0)
  }

  /** For a start in the past the card's clock is formatElapsedTime's. */
  lemma ElapsedLabelAgrees(now: int, start: int)
    requires now >= start
    ensures ElapsedLabel(now, start) == FormatElapsedTime(start, now)
  {
    FormatTimeFloors(((now - start) as real) / 1000.0);
  }
}
