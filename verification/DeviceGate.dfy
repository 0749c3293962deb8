/** The replay and rate gate every device request passes, against the history of the requests it
    accepted. One clock, in seconds; a nonce row stands for its hash, which no two nonces share. */
module DeviceGate {
  import opened Options

  type DeviceId = nat

  /** `timestamp` is `None` if the header is not an integer. */
  datatype Request = Request(device: DeviceId, timestamp: Option<int>, nonce: string)

  datatype NonceKey = NonceKey(device: DeviceId, nonce: string)
  datatype WindowKey = WindowKey(device: DeviceId, minute: int)

  datatype Gate = Gate(nonces: map<NonceKey, real>, windows: map<WindowKey, int>)

  datatype Verdict = Accepted | ReplayRejected | OrganizationInactive | RateLimited

  const SKEW: int := 60
  const NONCE_SECONDS := 600.0
  const WINDOW_SECONDS := 600.0

  function Minute(now: real): int { (now / 60.0).Floor }

  function Abs(x: int): int { if x < 0 then -x else x }

  predicate InTime(request: Request, now: real) {
    request.timestamp.Some? && Abs(now.Floor - request.timestamp.value) <= SKEW && 16 <= |request.nonce| <= 128
  }

  function PurgedNonces(nonces: map<NonceKey, real>, now: real): map<NonceKey, real> {
    map key | key in nonces && nonces[key] >= now :: nonces[key]
  }

  function PurgedWindows(windows: map<WindowKey, int>, now: real): map<WindowKey, int> {
    map key | key in windows && key.minute as real * 60.0 >= now - WINDOW_SECONDS :: windows[key]
  }

  function WindowCount(windows: map<WindowKey, int>, key: WindowKey): int {
    if key in windows then windows[key] else 0
  }

  /** The first request of a minute is counted whatever the limit. */
  predicate HasRoom(windows: map<WindowKey, int>, key: WindowKey, limit: int) {
    key in windows ==> windows[key] < limit
  }

  function NonceKeyOf(request: Request): NonceKey { NonceKey(request.device, request.nonce) }

  /** `limit` is `None` if the organization is not active. A refusal rolls the purges back too. */
  function Consume(gate: Gate, request: Request, now: real, limit: Option<int>): (Gate, Verdict) {
    if !InTime(request, now) then (gate, ReplayRejected)
    else
      var nonces, windows := PurgedNonces(gate.nonces, now), PurgedWindows(gate.windows, now);
      var window := WindowKey(request.device, Minute(now));
      if NonceKeyOf(request) in nonces then (gate, ReplayRejected)
      else if limit.None? then (gate, OrganizationInactive)
      else if !HasRoom(windows, window, limit.value) then (gate, RateLimited)
      else
        (Gate(nonces[NonceKeyOf(request) := now + NONCE_SECONDS], windows[window := WindowCount(windows, window) + 1]), Accepted)
  }

  // ----- the history -----

  datatype Entry = Entry(request: Request, at: real)

  function Extended(history: seq<Entry>, request: Request, now: real, verdict: Verdict): seq<Entry> {
    if verdict.Accepted? then history + [Entry(request, now)] else history
  }

  /** The nonce was accepted from this device no longer ago than a nonce row lives. */
  ghost predicate Recent(history: seq<Entry>, key: NonceKey, now: real) {
    exists i :: 0 <= i < |history| && NonceKeyOf(history[i].request) == key && now <= history[i].at + 600.0
  }

  function CountMinute(history: seq<Entry>, key: WindowKey): nat {
    if history == [] then 0
    else
      var last := history[|history| - 1];
      CountMinute(history[..|history| - 1], key) + if WindowKey(last.request.device, Minute(last.at)) == key then 1 else 0
  }

  predicate NonceLive(nonces: map<NonceKey, real>, key: NonceKey, now: real) { key in nonces && now <= nonces[key] }

  ghost predicate NoncesMatch(nonces: map<NonceKey, real>, history: seq<Entry>, clock: real) {
    forall key, at :: at >= clock ==> (NonceLive(nonces, key, at) <==> Recent(history, key, at))
  }

  /** The windows that are not old enough to be purged count the history's minutes. */
  ghost predicate WindowsMatch(windows: map<WindowKey, int>, history: seq<Entry>, clock: real) {
    && (forall key :: key in windows ==> windows[key] >= 1)
    && forall key: WindowKey :: key.minute >= Minute(clock) ==> WindowCount(windows, key) == CountMinute(history, key)
  }

  ghost predicate NoLaterThan(history: seq<Entry>, clock: real) {
    forall i :: 0 <= i < |history| ==> history[i].at <= clock
  }

  /** The gate's tables stand for the history at every time from `clock` on. */
  ghost predicate Represents(gate: Gate, history: seq<Entry>, clock: real) {
    && NoncesMatch(gate.nonces, history, clock)
    && WindowsMatch(gate.windows, history, clock)
    && NoLaterThan(history, clock)
  }

  lemma MinuteGrows(a: real, b: real)
    requires a <= b
    ensures Minute(a) <= Minute(b)
    ensures Minute(a) as real * 60.0 <= a < Minute(a) as real * 60.0 + 60.0
  {
    assert (a / 60.0).Floor as real <= a / 60.0 < (a / 60.0).Floor as real + 1.0;
    assert (b / 60.0).Floor as real <= b / 60.0 < (b / 60.0).Floor as real + 1.0;
    assert a / 60.0 <= b / 60.0;
  }

  lemma PurgeKeepsNonces(nonces: map<NonceKey, real>, history: seq<Entry>, clock: real, now: real)
    requires NoncesMatch(nonces, history, clock) && clock <= now
    ensures NoncesMatch(PurgedNonces(nonces, now), history, now)
  {
    forall key, at | at >= now
      ensures NonceLive(PurgedNonces(nonces, now), key, at) <==> Recent(history, key, at)
    {
      assert NonceLive(PurgedNonces(nonces, now), key, at) <==> NonceLive(nonces, key, at);
    }
  }

  lemma PurgeKeepsWindows(windows: map<WindowKey, int>, history: seq<Entry>, clock: real, now: real)
    requires WindowsMatch(windows, history, clock) && clock <= now
    ensures WindowsMatch(PurgedWindows(windows, now), history, now)
    ensures forall key: WindowKey :: key.minute >= Minute(now) ==>
              (key in PurgedWindows(windows, now) <==> key in windows) && WindowCount(PurgedWindows(windows, now), key) == WindowCount(windows, key)
  {
    MinuteGrows(clock, now);
    MinuteGrows(now, now);
    forall key: WindowKey | key.minute >= Minute(now)
      ensures (key in PurgedWindows(windows, now) <==> key in windows)
      ensures WindowCount(PurgedWindows(windows, now), key) == WindowCount(windows, key) == CountMinute(history, key)
    {
      assert key.minute as real >= Minute(now) as real;
    }
  }

  lemma LaterRepresents(gate: Gate, history: seq<Entry>, clock: real, now: real)
    requires Represents(gate, history, clock) && clock <= now
    ensures Represents(gate, history, now)
  {
    MinuteGrows(clock, now);
  }

  lemma NewNonce(nonces: map<NonceKey, real>, history: seq<Entry>, request: Request, now: real)
    requires NoncesMatch(nonces, history, now) && NoLaterThan(history, now)
    ensures NoncesMatch(nonces[NonceKeyOf(request) := now + NONCE_SECONDS], history + [Entry(request, now)], now)
  {
    var next, after := nonces[NonceKeyOf(request) := now + NONCE_SECONDS], history + [Entry(request, now)];
    forall key, at | at >= now
      ensures NonceLive(next, key, at) <==> Recent(after, key, at)
    {
      assert NonceLive(nonces, key, at) <==> Recent(history, key, at);
      if key == NonceKeyOf(request) {
        if Recent(after, key, at) {
          assert at <= now + NONCE_SECONDS;
        } else {
          assert after[|history|] == Entry(request, now);
        }
      } else {
        if Recent(history, key, at) {
          var i :| 0 <= i < |history| && NonceKeyOf(history[i].request) == key && at <= history[i].at + NONCE_SECONDS;
          assert after[i] == history[i];
        }
      }
    }
  }

  lemma NewCount(windows: map<WindowKey, int>, history: seq<Entry>, request: Request, now: real)
    requires WindowsMatch(windows, history, now)
    ensures
      var key := WindowKey(request.device, Minute(now));
      WindowsMatch(windows[key := WindowCount(windows, key) + 1], history + [Entry(request, now)], now)
  {
    var after := history + [Entry(request, now)];
    assert after[..|after| - 1] == history;
  }

  /** The gate decides by its two pruned tables exactly as the full history would: it accepts a
      request just if its timestamp is within a minute and its nonce in order, the device has not used
      the nonce in the last ten minutes, the organization is active, and the calendar minute has
      room; a refusal names the first of these that fails. */
  lemma ConsumeRefines(gate: Gate, history: seq<Entry>, clock: real, request: Request, now: real, limit: Option<int>)
    requires Represents(gate, history, clock) && clock <= now
    ensures
      var (after, verdict) := Consume(gate, request, now, limit);
      var used := CountMinute(history, WindowKey(request.device, Minute(now)));
      var inTime := request.timestamp.Some? && -60 <= now.Floor - request.timestamp.value <= 60 && 16 <= |request.nonce| <= 128;
      var unused := inTime && !Recent(history, NonceKeyOf(request), now);
      && Represents(after, Extended(history, request, now, verdict), now)
      && (verdict == ReplayRejected <==> !unused)
      && (verdict == OrganizationInactive <==> unused && limit.None?)
      && (verdict == RateLimited <==> unused && limit.Some? && used != 0 && used >= limit.value)
      && (verdict == Accepted <==> unused && limit.Some? && (used == 0 || used < limit.value))
      && (!verdict.Accepted? ==> after == gate)
  {
    hide NoncesMatch, WindowsMatch, Recent, CountMinute, PurgedNonces, PurgedWindows, Minute;
    LaterRepresents(gate, history, clock, now);
    PurgedDecide(gate, history, clock, request, now);
    var nonces, windows := PurgedNonces(gate.nonces, now), PurgedWindows(gate.windows, now);
    NewNonce(nonces, history, request, now);
    NewCount(windows, history, request, now);
  }

  /** What an accepted request leaves of the tables: its own rows, and of the others those that have not
      expired and those not older than ten minutes. */
  lemma AcceptedTables(gate: Gate, request: Request, now: real, limit: Option<int>)
    requires Consume(gate, request, now, limit).1.Accepted?
    ensures
      var after := Consume(gate, request, now, limit).0;
      var nonce, window := NonceKey(request.device, request.nonce), WindowKey(request.device, Minute(now));
      && nonce in after.nonces && after.nonces[nonce] == now + 600.0
      && (forall key :: key != nonce ==> (key in after.nonces <==> key in gate.nonces && gate.nonces[key] >= now))
      && (forall key :: key != nonce && key in after.nonces ==> after.nonces[key] == gate.nonces[key])
      && window in after.windows
      && (forall key :: key != window ==> (key in after.windows <==> key in gate.windows && key.minute as real * 60.0 >= now - 600.0))
      && (forall key :: key != window && key in after.windows ==> after.windows[key] == gate.windows[key])
  {
  }

  /** The purged tables stand for the history, and so hold what decides the request. */
  lemma PurgedDecide(gate: Gate, history: seq<Entry>, clock: real, request: Request, now: real)
    requires Represents(gate, history, clock) && clock <= now
    ensures
      var nonces, windows := PurgedNonces(gate.nonces, now), PurgedWindows(gate.windows, now);
      var window := WindowKey(request.device, Minute(now));
      && NoncesMatch(nonces, history, now) && WindowsMatch(windows, history, now)
      && (NonceKeyOf(request) in nonces <==> Recent(history, NonceKeyOf(request), now))
      && WindowCount(windows, window) == CountMinute(history, window)
      && (window in windows ==> windows[window] >= 1)
  {
    var nonces, windows := PurgedNonces(gate.nonces, now), PurgedWindows(gate.windows, now);
    var window := WindowKey(request.device, Minute(now));
    PurgeKeepsNonces(gate.nonces, history, clock, now);
    PurgeKeepsWindows(gate.windows, history, clock, now);
    hide Recent, CountMinute, Minute;
    assert NonceLive(nonces, NonceKeyOf(request), now) <==> NonceKeyOf(request) in nonces;
    assert window.minute >= Minute(now) && WindowCount(windows, window) == CountMinute(history, window);
  }

  // ----- runs -----

  /** A request, or the hourly job that purges nonce rows. */
  datatype Event = Incoming(request: Request, now: real, limit: Option<int>) | PurgeJob(now: real)

  function Step(gate: Gate, history: seq<Entry>, event: Event): (Gate, seq<Entry>) {
    match event
    case Incoming(request, now, limit) =>
      var (after, verdict) := Consume(gate, request, now, limit);
      (after, Extended(history, request, now, verdict))
    case PurgeJob(now) => (gate.(nonces := PurgedNonces(gate.nonces, now)), history)
  }

  function RunGate(gate: Gate, history: seq<Entry>, events: seq<Event>): (Gate, seq<Entry>)
    decreases |events|
  {
    if events == [] then (gate, history)
    else
      var (after, longer) := Step(gate, history, events[0]);
      RunGate(after, longer, events[1..])
  }

  ghost predicate Ordered(events: seq<Event>, clock: real)
    decreases |events|
  {
    events != [] ==> events[0].now >= clock && Ordered(events[1..], events[0].now)
  }

  ghost predicate LimitsWithin(events: seq<Event>, limit: int) {
    forall i :: 0 <= i < |events| && events[i].Incoming? && events[i].limit.Some? ==> events[i].limit.value <= limit
  }

  ghost predicate NoReplay(history: seq<Entry>) {
    forall i, j :: 0 <= i < j < |history| ==> history[i].request != history[j].request
  }

  ghost predicate AllInTime(history: seq<Entry>) {
    forall i :: 0 <= i < |history| ==> InTime(history[i].request, history[i].at)
  }

  ghost predicate MinutesWithin(history: seq<Entry>, limit: int) {
    forall key :: CountMinute(history, key) <= if limit < 1 then 1 else limit
  }

  /** A timestamp is in time for two minutes and a second at most, far less than a nonce lives. */
  lemma ReplayIsRecent(history: seq<Entry>, request: Request, now: real, i: nat)
    requires AllInTime(history) && NoLaterThan(history, now) && InTime(request, now)
    requires i < |history| && history[i].request == request
    ensures Recent(history, NonceKeyOf(request), now)
  {
    var at := history[i].at;
    assert InTime(history[i].request, at);
    assert now.Floor - at.Floor <= 120;
    assert now < now.Floor as real + 1.0 && at.Floor as real <= at;
    assert NonceKeyOf(history[i].request) == NonceKeyOf(request) && now <= at + NONCE_SECONDS;
  }

  lemma AcceptedKeeps(history: seq<Entry>, request: Request, now: real, limit: int, allowed: int)
    requires NoReplay(history) && AllInTime(history) && MinutesWithin(history, limit) && NoLaterThan(history, now)
    requires InTime(request, now) && !Recent(history, NonceKeyOf(request), now) && allowed <= limit
    requires
      var used := CountMinute(history, WindowKey(request.device, Minute(now)));
      used == 0 || used < allowed
    ensures NoReplay(history + [Entry(request, now)]) && AllInTime(history + [Entry(request, now)])
    ensures MinutesWithin(history + [Entry(request, now)], limit)
  {
    var after := history + [Entry(request, now)];
    assert after[..|after| - 1] == history;
    forall i | 0 <= i < |history|
      ensures history[i].request != request
    {
      if history[i].request == request {
        ReplayIsRecent(history, request, now, i);
      }
    }
  }

  lemma StepKeeps(gate: Gate, history: seq<Entry>, clock: real, event: Event, limit: int)
    requires Represents(gate, history, clock) && event.now >= clock
    requires NoReplay(history) && AllInTime(history) && MinutesWithin(history, limit)
    requires event.Incoming? && event.limit.Some? ==> event.limit.value <= limit
    ensures
      var (after, longer) := Step(gate, history, event);
      && Represents(after, longer, event.now)
      && NoReplay(longer) && AllInTime(longer) && MinutesWithin(longer, limit)
  {
    LaterRepresents(gate, history, clock, event.now);
    match event {
      case Incoming(request, now, allowed) =>
        ConsumeRefines(gate, history, clock, request, now, allowed);
        hide Consume, NoReplay, AllInTime, MinutesWithin, NoncesMatch, WindowsMatch, Recent, CountMinute;
        if Consume(gate, request, now, allowed).1.Accepted? {
          AcceptedKeeps(history, request, now, limit, allowed.value);
        }
      case PurgeJob(now) =>
        PurgeKeepsNonces(gate.nonces, history, clock, now);
    }
  }

  /** In every run the same device, timestamp and nonce are accepted at most once, although nonce
      rows expire; and no device gets more requests accepted in a calendar minute than the highest
      limit in force, or one if that is lower. */
  lemma {:induction false} AtMostOnce(gate: Gate, history: seq<Entry>, clock: real, events: seq<Event>, limit: int)
    requires Represents(gate, history, clock) && Ordered(events, clock) && LimitsWithin(events, limit)
    requires NoReplay(history) && AllInTime(history) && MinutesWithin(history, limit)
    ensures
      var (after, longer) := RunGate(gate, history, events);
      NoReplay(longer) && AllInTime(longer) && MinutesWithin(longer, limit)
    decreases |events|
  {
    if events != [] {
      StepKeeps(gate, history, clock, events[0], limit);
      var (after, longer) := Step(gate, history, events[0]);
      hide NoReplay, AllInTime, MinutesWithin, Represents, Step;
      AtMostOnce(after, longer, events[0].now, events[1..], limit);
    }
  }

  lemma EmptyRepresents(clock: real, limit: int)
    ensures Represents(Gate(map[], map[]), [], clock)
    ensures NoReplay([]) && AllInTime([]) && MinutesWithin([], limit)
  {
  }

  /** So it is from empty tables on. */
  lemma AtMostOnceFromStart(clock: real, events: seq<Event>, limit: int)
    requires Ordered(events, clock) && LimitsWithin(events, limit)
    ensures
      var history := RunGate(Gate(map[], map[]), [], events).1;
      NoReplay(history) && AllInTime(history) && MinutesWithin(history, limit)
  {
    EmptyRepresents(clock, limit);
    AtMostOnce(Gate(map[], map[]), [], clock, events, limit);
  }

  // ----- the tables in place -----

  class DeviceTables {
    var nonces: map<NonceKey, real>
    var windows: map<WindowKey, int>

    constructor ()
      ensures nonces == map[] && windows == map[]
    {
      nonces, windows := map[], map[];
    }

    /** A refused request leaves both tables, and so its own nonce, as they were. */
    method ConsumeDeviceNonce(request: Request, now: real, limit: Option<int>) returns (verdict: Verdict)
      modifies this
      ensures (Gate(nonces, windows), verdict) == Consume(old(Gate(nonces, windows)), request, now, limit)
      ensures verdict != Accepted ==> nonces == old(nonces) && windows == old(windows)
    {
      if request.timestamp.None? {
        return ReplayRejected;
      }
      if Abs(now.Floor - request.timestamp.value) > SKEW || !(16 <= |request.nonce| <= 128) {
        return ReplayRejected;
      }
      var savedNonces, savedWindows := nonces, windows;
      nonces := PurgedNonces(nonces, now);
      windows := PurgedWindows(windows, now);
      var key := NonceKey(request.device, request.nonce);
      if key in nonces {
        verdict := ReplayRejected;
      } else {
        nonces := nonces[key := now + NONCE_SECONDS];
        var window := WindowKey(request.device, Minute(now));
        if limit.None? {
          verdict := OrganizationInactive;
        } else if window !in windows {
          windows := windows[window := 1];
          verdict := Accepted;
        } else if windows[window] < limit.value {
          windows := windows[window := windows[window] + 1];
          verdict := Accepted;
        } else {
          verdict := RateLimited;
        }
      }
      if verdict != Accepted {
        nonces, windows := savedNonces, savedWindows;
      }
    }
  }
}
