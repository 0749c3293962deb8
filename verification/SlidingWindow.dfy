/** The per-key sliding-window counter, against the history of everything it ever accepted. Times
    are readings of one monotonic clock. */
module SlidingWindow {

  /** How many of the accepted times lie in the closed interval from `low` to `high`. */
  function CountIn(history: seq<real>, low: real, high: real): (n: nat)
    ensures n <= |history|
  {
    if history == [] then 0
    else CountIn(history[..|history| - 1], low, high) + if low <= history[|history| - 1] <= high then 1 else 0
  }

  /** The rule the counter is meant to apply, on the full history. */
  predicate Allowed(history: seq<real>, maxRequests: int, window: real, now: real) {
    CountIn(history, now - window, now) < maxRequests
  }

  function Accept(history: seq<real>, maxRequests: int, window: real, now: real): seq<real> {
    if Allowed(history, maxRequests, window, now) then history + [now] else history
  }

  function AcceptAll(history: seq<real>, maxRequests: int, window: real, times: seq<real>): seq<real>
    decreases |times|
  {
    if times == [] then history
    else AcceptAll(Accept(history, maxRequests, window, times[0]), maxRequests, window, times[1..])
  }

  ghost predicate Nondecreasing(times: seq<real>) {
    forall i, j :: 0 <= i < j < |times| ==> times[i] <= times[j]
  }

  ghost predicate NoneAfter(history: seq<real>, now: real) {
    forall i :: 0 <= i < |history| ==> history[i] <= now
  }

  predicate Within(count: nat, maxRequests: int) { count == 0 || count <= maxRequests }

  /** No closed interval as long as the window holds more than the maximum. */
  ghost predicate RateOk(history: seq<real>, maxRequests: int, window: real) {
    forall low, high :: high - low <= window ==> Within(CountIn(history, low, high), maxRequests)
  }

  lemma {:induction false} CountSmaller(history: seq<real>, low: real, high: real, low': real, high': real)
    requires low' <= low && NoneAfter(history, high')
    ensures CountIn(history, low, high) <= CountIn(history, low', high')
  {
    if history != [] {
      CountSmaller(history[..|history| - 1], low, high, low', high');
    }
  }

  lemma AcceptKeepsRate(history: seq<real>, maxRequests: int, window: real, now: real)
    requires RateOk(history, maxRequests, window) && NoneAfter(history, now)
    ensures RateOk(Accept(history, maxRequests, window, now), maxRequests, window)
  {
    var next := Accept(history, maxRequests, window, now);
    if next != history {
      assert next[..|next| - 1] == history;
      forall low, high | high - low <= window
        ensures Within(CountIn(next, low, high), maxRequests)
      {
        if low <= now <= high {
          CountSmaller(history, low, high, now - window, now);
        } else {
          assert CountIn(next, low, high) == CountIn(history, low, high);
        }
      }
    }
  }

  /** Whatever the request times, no closed interval of the window's length ever holds more than
      the maximum of accepted ones. */
  lemma {:induction false} RateAlwaysOk(history: seq<real>, maxRequests: int, window: real, times: seq<real>)
    requires RateOk(history, maxRequests, window) && Nondecreasing(history + times)
    ensures RateOk(AcceptAll(history, maxRequests, window, times), maxRequests, window)
    decreases |times|
  {
    if times != [] {
      var all := history + times;
      assert all[|history|] == times[0];
      assert forall i :: 0 <= i < |history| ==> all[i] == history[i];
      AcceptKeepsRate(history, maxRequests, window, times[0]);
      var next := Accept(history, maxRequests, window, times[0]);
      forall i, j | 0 <= i < j < |next + times[1..]|
        ensures (next + times[1..])[i] <= (next + times[1..])[j]
      {
        var shift := if next == history then 1 else 0;
        assert (next + times[1..])[i] == all[if i < |history| then i else i + shift];
        assert (next + times[1..])[j] == all[if j < |history| then j else j + shift];
      }
      RateAlwaysOk(next, maxRequests, window, times[1..]);
    }
  }

  lemma {:induction false} CountNone(history: seq<real>, low: real, high: real)
    requires forall i :: 0 <= i < |history| ==> history[i] < low
    ensures CountIn(history, low, high) == 0
  {
    if history != [] {
      CountNone(history[..|history| - 1], low, high);
    }
  }

  /** In an ordered history the count is the length of what is left once the older times are gone. */
  lemma {:induction false} CountSuffix(history: seq<real>, dropped: nat, low: real, high: real)
    requires dropped <= |history|
    requires forall i :: 0 <= i < dropped ==> history[i] < low
    requires forall i :: dropped <= i < |history| ==> low <= history[i] <= high
    ensures CountIn(history, low, high) == |history| - dropped
  {
    if dropped == |history| {
      CountNone(history, low, high);
    } else {
      CountSuffix(history[..|history| - 1], dropped, low, high);
    }
  }

  /** A bucket is the end of its key's history, cut where times are too old for the clock. */
  ghost predicate BucketFits(bucket: seq<real>, history: seq<real>, cutoff: real) {
    && |bucket| <= |history| && bucket == history[|history| - |bucket|..]
    && forall i :: 0 <= i < |history| - |bucket| ==> history[i] < cutoff
  }

  ghost predicate HistoryOk(history: seq<real>, maxRequests: int, window: real, clock: real) {
    Nondecreasing(history) && NoneAfter(history, clock) && RateOk(history, maxRequests, window)
  }

  lemma AcceptKeepsHistory(history: seq<real>, maxRequests: int, window: real, now: real)
    requires HistoryOk(history, maxRequests, window, now)
    ensures HistoryOk(Accept(history, maxRequests, window, now), maxRequests, window, now)
  {
    AcceptKeepsRate(history, maxRequests, window, now);
  }

  ghost predicate EntryOk(bucket: seq<real>, history: seq<real>, maxRequests: int, window: real, clock: real) {
    BucketFits(bucket, history, clock - window) && HistoryOk(history, maxRequests, window, clock)
  }

  lemma EntryLater(bucket: seq<real>, history: seq<real>, maxRequests: int, window: real, clock: real, now: real)
    requires EntryOk(bucket, history, maxRequests, window, clock) && clock <= now
    ensures EntryOk(bucket, history, maxRequests, window, now)
  {
  }

  /** The pruned bucket, with the new request if there is room, is the entry of the new history. */
  lemma EntryAfter(bucket: seq<real>, history: seq<real>, maxRequests: int, window: real, now: real)
    requires EntryOk(bucket, history, maxRequests, window, now) && |bucket| == CountIn(history, now - window, now)
    ensures EntryOk(if |bucket| < maxRequests then bucket + [now] else bucket,
                    Accept(history, maxRequests, window, now), maxRequests, window, now)
  {
    hide RateOk;
    AcceptKeepsHistory(history, maxRequests, window, now);
  }

  ghost predicate TableOk(buckets: map<string, seq<real>>, accepted: map<string, seq<real>>, maxRequests: int, window: real, clock: real) {
    && buckets.Keys == accepted.Keys
    && forall key :: key in buckets ==> EntryOk(buckets[key], accepted[key], maxRequests, window, clock)
  }

  ghost function HistoryOf(accepted: map<string, seq<real>>, key: string): seq<real> {
    if key in accepted then accepted[key] else []
  }

  lemma TableLater(buckets: map<string, seq<real>>, accepted: map<string, seq<real>>, maxRequests: int, window: real, clock: real, now: real)
    requires TableOk(buckets, accepted, maxRequests, window, clock) && clock <= now
    ensures TableOk(buckets, accepted, maxRequests, window, now)
  {
    forall key | key in buckets
      ensures EntryOk(buckets[key], accepted[key], maxRequests, window, now)
    {
      EntryLater(buckets[key], accepted[key], maxRequests, window, clock, now);
    }
  }

  lemma TableSet(buckets: map<string, seq<real>>, accepted: map<string, seq<real>>, maxRequests: int, window: real, clock: real,
                 key: string, bucket: seq<real>, history: seq<real>)
    requires TableOk(buckets, accepted, maxRequests, window, clock)
    requires EntryOk(bucket, history, maxRequests, window, clock)
    ensures TableOk(buckets[key := bucket], accepted[key := history], maxRequests, window, clock)
  {
    hide EntryOk;
  }

  method Prune(bucket: seq<real>, ghost history: seq<real>, ghost maxRequests: int, ghost length: real, cutoff: real, ghost now: real)
    returns (window: seq<real>)
    requires EntryOk(bucket, history, maxRequests, length, now) && cutoff == now - length
    ensures EntryOk(window, history, maxRequests, length, now)
    ensures |window| == CountIn(history, cutoff, now)
  {
    window := bucket;
    while window != [] && window[0] < cutoff
      invariant BucketFits(window, history, cutoff)
    {
      window := window[1..];
    }
    ghost var dropped := |history| - |window|;
    assert dropped < |history| ==> history[dropped] == window[0];
    CountSuffix(history, dropped, cutoff, now);
  }

  /** One request against one bucket: drop what is too old, then append if there is room. */
  method Slide(bucket: seq<real>, ghost history: seq<real>, maxRequests: int, windowSeconds: nat, now: real)
    returns (allowed: bool, window: seq<real>)
    requires EntryOk(bucket, history, maxRequests, windowSeconds as real, now)
    ensures EntryOk(window, Accept(history, maxRequests, windowSeconds as real, now), maxRequests, windowSeconds as real, now)
    ensures allowed <==> Allowed(history, maxRequests, windowSeconds as real, now)
  {
    hide EntryOk, Accept, CountIn;
    window := Prune(bucket, history, maxRequests, windowSeconds as real, now - windowSeconds as real, now);
    EntryAfter(window, history, maxRequests, windowSeconds as real, now);
    allowed := |window| < maxRequests;
    if allowed {
      window := window + [now];
    }
  }

  class SlidingWindowCounter {
    const maxRequests: int
    const windowSeconds: nat
    var buckets: map<string, seq<real>>
    ghost var accepted: map<string, seq<real>>
    ghost var clock: real

    ghost predicate Valid()
      reads this
    {
      TableOk(buckets, accepted, maxRequests, windowSeconds as real, clock)
    }

    ghost function History(key: string): seq<real>
      reads this
    {
      HistoryOf(accepted, key)
    }

    constructor (maxRequests: int, windowSeconds: nat, now: real)
      ensures Valid() && this.maxRequests == maxRequests && this.windowSeconds == windowSeconds && clock == now
      ensures forall key :: History(key) == []
    {
      this.maxRequests, this.windowSeconds := maxRequests, windowSeconds;
      buckets, accepted, clock := map[], map[], now;
    }

    /** The pruned list answers as the full history would, and no other key is affected. */
    method IsAllowed(key: string, now: real) returns (allowed: bool)
      requires Valid() && now >= clock
      modifies this
      ensures Valid() && clock == now
      ensures allowed <==> Allowed(old(History(key)), maxRequests, windowSeconds as real, now)
      ensures accepted == old(accepted)[key := Accept(old(History(key)), maxRequests, windowSeconds as real, now)]
    {
      ghost var length := windowSeconds as real;
      TableLater(buckets, accepted, maxRequests, length, clock, now);
      EmptyOk(maxRequests, length, now);
      var window := if key in buckets then buckets[key] else [];
      ghost var history := HistoryOf(accepted, key);
      assert EntryOk(window, history, maxRequests, length, now);
      hide *;
      allowed, window := Slide(window, history, maxRequests, windowSeconds, now);
      ghost var after := Accept(history, maxRequests, length, now);
      TableSet(buckets, accepted, maxRequests, length, now, key, window, after);
      buckets := buckets[key := window];
      accepted := accepted[key := after];
      clock := now;
    }
  }

  lemma EmptyOk(maxRequests: int, window: real, now: real)
    ensures EntryOk([], [], maxRequests, window, now)
  {
    assert forall low, high :: CountIn([], low, high) == 0;
  }
}
