/**
 The sliding-window rate limiter for alerts (internal/alerts/alert_manager.go): pruned time windows, proved
 against a limiter that remembers everything it ever allowed.
 */
module AlertLimiter {
  import opened Intervals

  const BURST_SPAN := 10 * SECOND

  ghost predicate Sorted(ts: seq<int>) {
    forall i, j :: 0 <= i < j < |ts| ==> ts[i] <= ts[j]
  }

  /** How many times are at or after the cutoff, wherever they stand. */
  function CountSince(ts: seq<int>, cutoff: int): nat {
    if ts == [] then 0 else CountSince(ts[..|ts| - 1], cutoff) + if ts[|ts| - 1] >= cutoff then 1 else 0
  }

  // ---- The specification: keep the whole history and count by filtering ----

  datatype Limits = Limits(perMinute: int, perHour: int, burst: int)

  predicate WithinLimit(history: seq<int>, limit: int, now: int, span: int) {
    limit > 0 ==> CountSince(history, now - span) < limit
  }

  predicate Allows(l: Limits, history: seq<int>, now: int) {
    && WithinLimit(history, l.perMinute, now, MINUTE)
    && WithinLimit(history, l.perHour, now, HOUR)
    && WithinLimit(history, l.burst, now, BURST_SPAN)
  }

  /** The times allowed over a whole run of calls. */
  function Allowed(l: Limits, calls: seq<int>): seq<int> {
    if calls == [] then [] else
    var before, now := Allowed(l, calls[..|calls| - 1]), calls[|calls| - 1];
    if Allows(l, before, now) then before + [now] else before
  }

  // ---- Counting in sorted lists ----

  /** In a sorted list the counted times are a suffix. */
  lemma {:induction false} CountIsSuffix(ts: seq<int>, cutoff: int, k: nat)
    requires Sorted(ts) && k <= |ts|
    requires forall i :: 0 <= i < k ==> ts[i] < cutoff
    requires k < |ts| ==> ts[k] >= cutoff
    ensures CountSince(ts, cutoff) == |ts| - k
  {
    if ts != [] {
      var init := ts[..|ts| - 1];
      if k == |ts| {
        CountIsSuffix(init, cutoff, k - 1);
      } else {
        CountIsSuffix(init, cutoff, k);
      }
    }
  }

  /** Forgetting a prefix that lies before the cutoff does not change the count. */
  lemma {:induction false} ForgetOld(ts: seq<int>, cutoff: int, k: nat)
    requires k <= |ts| && forall i :: 0 <= i < k ==> ts[i] < cutoff
    ensures CountSince(ts[k..], cutoff) == CountSince(ts, cutoff)
  {
    if k == |ts| {
      if ts != [] {
        ForgetOld(ts[..|ts| - 1], cutoff, k - 1);
        assert ts[..|ts| - 1][k - 1..] == [];
      }
    } else {
      ForgetOld(ts[..|ts| - 1], cutoff, k);
      assert ts[k..][..|ts| - k - 1] == ts[..|ts| - 1][k..];
    }
  }

  // ---- The windows as they run ----

  class TimeWindow {
    const duration: int
    var timestamps: seq<int>

    constructor (duration: int)
      ensures this.duration == duration && timestamps == []
    {
      this.duration := duration;
      timestamps := [];
    }

    /** Drops the leading times older than the window; `k` says how many. */
    method Cleanup(now: int) returns (ghost k: nat)
      modifies this
      ensures k <= |old(timestamps)| && timestamps == old(timestamps)[k..]
      ensures forall i :: 0 <= i < k ==> old(timestamps)[i] < now - duration
      ensures timestamps != [] ==> timestamps[0] >= now - duration
    {
      var cutoff := now - duration;
      var i := 0;
      while i < |timestamps| && timestamps[i] < cutoff
        invariant i <= |timestamps|
        invariant forall j :: 0 <= j < i ==> timestamps[j] < cutoff
      {
        i := i + 1;
      }
      k := i;
      timestamps := timestamps[i..];
    }

    method Add(t: int) returns (ghost k: nat)
      modifies this
      ensures k <= |old(timestamps)| + 1 && timestamps == (old(timestamps) + [t])[k..]
      ensures forall i :: 0 <= i < k ==> (old(timestamps) + [t])[i] < t - duration
      ensures timestamps != [] ==> timestamps[0] >= t - duration
    {
      timestamps := timestamps + [t];
      k := Cleanup(t);
    }

    method Count(now: int) returns (n: nat, ghost k: nat)
      modifies this
      ensures k <= |old(timestamps)| && timestamps == old(timestamps)[k..] && n == |timestamps|
      ensures forall i :: 0 <= i < k ==> old(timestamps)[i] < now - duration
      ensures Sorted(old(timestamps)) ==> n == CountSince(old(timestamps), now - duration)
    {
      k := Cleanup(now);
      n := |timestamps|;
      if Sorted(old(timestamps)) {
        CountIsSuffix(old(timestamps), now - duration, k);
      }
    }

    /** Counts back from the newest time, stopping at the first one before the cutoff. */
    method CountRecent(now: int, span: int) returns (n: nat)
      ensures Sorted(timestamps) ==> n == CountSince(timestamps, now - span)
    {
      var cutoff := now - span;
      n := 0;
      while n < |timestamps| && timestamps[|timestamps| - 1 - n] >= cutoff
        invariant n <= |timestamps|
        invariant n > 0 ==> timestamps[|timestamps| - n] >= cutoff
      {
        n := n + 1;
      }
      if Sorted(timestamps) {
        CountIsSuffix(timestamps, cutoff, |timestamps| - n);
      }
    }
  }

  /** The window holds the end of the history, and what it has dropped is out of its reach for good. */
  ghost predicate Covers(stored: seq<int>, history: seq<int>, reach: int) {
    && |stored| <= |history|
    && stored == history[|history| - |stored|..]
    && forall i :: 0 <= i < |history| - |stored| ==> history[i] < reach
  }

  lemma CoverCount(stored: seq<int>, history: seq<int>, reach: int, cutoff: int)
    requires Covers(stored, history, reach) && reach <= cutoff
    ensures CountSince(stored, cutoff) == CountSince(history, cutoff)
  {
    ForgetOld(history, cutoff, |history| - |stored|);
  }

  lemma CoverPrune(stored: seq<int>, history: seq<int>, reach: int, later: int, k: nat)
    requires Covers(stored, history, reach) && reach <= later && k <= |stored|
    requires forall i :: 0 <= i < k ==> stored[i] < later
    ensures Covers(stored[k..], history, later)
  {
    var d := |history| - |stored|;
    assert stored[k..] == history[d + k..];
    forall i | 0 <= i < d + k
      ensures history[i] < later
    {
      assert i >= d ==> history[i] == stored[i - d];
    }
  }

  lemma CoverAppend(stored: seq<int>, history: seq<int>, reach: int, t: int)
    requires Covers(stored, history, reach)
    ensures Covers(stored + [t], history + [t], reach)
  {
    assert stored + [t] == (history + [t])[|history| - |stored|..];
  }

  lemma CoverSorted(stored: seq<int>, history: seq<int>, reach: int)
    requires Covers(stored, history, reach) && Sorted(history)
    ensures Sorted(stored)
  {
  }

  lemma {:induction false} AllowedStep(l: Limits, calls: seq<int>, now: int)
    requires Sorted(calls + [now])
    ensures var before := Allowed(l, calls);
            Allowed(l, calls + [now]) == if Allows(l, before, now) then before + [now] else before
    ensures Sorted(Allowed(l, calls)) && Sorted(Allowed(l, calls + [now]))
  {
    var more := calls + [now];
    assert more[..|calls|] == calls;
    assert forall i :: 0 <= i < |calls| ==> calls[i] == more[i] && more[i] <= more[|calls|];
    HistorySorted(l, calls, now);
  }

  /** The calls so far came in order, none after `at`, and `history` is what the specification allowed of them. */
  ghost predicate Recorded(l: Limits, calls: seq<int>, history: seq<int>, at: int) {
    history == Allowed(l, calls) && Sorted(calls) && (calls != [] ==> calls[|calls| - 1] <= at)
  }

  lemma RecordStep(l: Limits, calls: seq<int>, history: seq<int>, at: int, now: int)
    requires Recorded(l, calls, history, at) && at <= now
    ensures Sorted(history)
    ensures Allows(l, history, now) <==>
              && (l.perMinute <= 0 || CountIn(history, now - MINUTE, now) < l.perMinute)
              && (l.perHour <= 0 || CountIn(history, now - HOUR, now) < l.perHour)
              && (l.burst <= 0 || CountIn(history, now - 10 * SECOND, now) < l.burst)
    ensures Recorded(l, calls + [now], if Allows(l, history, now) then history + [now] else history, now)
  {
    SortedAppend(calls, now);
    AllowedStep(l, calls, now);
    HistorySorted(l, calls, now);
    SinceIsIn(history, now - MINUTE, now);
    SinceIsIn(history, now - HOUR, now);
    SinceIsIn(history, now - BURST_SPAN, now);
  }

  /** When no time is later than `now`, those since a cutoff are those up to `now`. */
  lemma {:induction false} SinceIsIn(ts: seq<int>, cutoff: int, now: int)
    requires forall i :: 0 <= i < |ts| ==> ts[i] <= now
    ensures CountSince(ts, cutoff) == CountIn(ts, cutoff, now)
  {
    if ts != [] {
      SinceIsIn(ts[..|ts| - 1], cutoff, now);
    }
  }

  class RateLimiter {
    const limits: Limits
    const minuteWindow: TimeWindow
    const hourWindow: TimeWindow
    /** Every call time so far, and the times among them that were allowed. */
    ghost var calls: seq<int>
    ghost var history: seq<int>

    /** As of time `at`, each window holds all it may still need of the history, within its own limit. */
    ghost predicate Holds(at: int)
      reads this, minuteWindow, hourWindow
    {
      && minuteWindow != hourWindow && minuteWindow.duration == MINUTE && hourWindow.duration == HOUR
      && Covers(minuteWindow.timestamps, history, at - MINUTE)
      && Covers(hourWindow.timestamps, history, at - HOUR)
      && (limits.perMinute > 0 ==> |minuteWindow.timestamps| <= limits.perMinute)
      && (limits.perHour > 0 ==> |hourWindow.timestamps| <= limits.perHour)
    }

    ghost predicate Valid(at: int)
      reads this, minuteWindow, hourWindow
    {
      Holds(at) && Recorded(limits, calls, history, at)
    }

    constructor (limits: Limits, now: int)
      ensures Valid(now) && this.limits == limits && calls == [] && fresh(minuteWindow) && fresh(hourWindow)
    {
      this.limits := limits;
      minuteWindow := new TimeWindow(MINUTE);
      hourWindow := new TimeWindow(HOUR);
      calls, history := [], [];
    }

    /** The three checks, in order; a window is pruned only when its check is made. */
    method Check(now: int, ghost at: int) returns (allowed: bool)
      requires Holds(at) && at <= now && Sorted(history)
      modifies minuteWindow, hourWindow
      ensures Holds(now)
      ensures allowed == Allows(limits, history, now)
      ensures allowed && limits.perMinute > 0 ==> |minuteWindow.timestamps| < limits.perMinute
      ensures allowed && limits.perHour > 0 ==> |hourWindow.timestamps| < limits.perHour
    {
      WiderCover(minuteWindow.timestamps, history, at - MINUTE, now - MINUTE);
      WiderCover(hourWindow.timestamps, history, at - HOUR, now - HOUR);
      var withinMinute := true;
      if limits.perMinute > 0 {
        withinMinute := CheckWindow(minuteWindow, limits.perMinute, now, history);
      }
      if !withinMinute {
        return false;
      }
      allowed := CheckHourAndBurst(now);
    }

    method CheckHourAndBurst(now: int) returns (ok: bool)
      requires Holds(now) && Sorted(history)
      modifies hourWindow
      ensures Holds(now)
      ensures ok == (WithinLimit(history, limits.perHour, now, HOUR) && WithinLimit(history, limits.burst, now, BURST_SPAN))
      ensures ok && limits.perHour > 0 ==> |hourWindow.timestamps| < limits.perHour
    {
      var withinHour := true;
      if limits.perHour > 0 {
        withinHour := CheckWindow(hourWindow, limits.perHour, now, history);
      }
      if !withinHour {
        return false;
      }
      ok := true;
      if limits.burst > 0 {
        ok := CheckBurst(minuteWindow, limits.burst, now, history);
      }
    }

    /** Decides exactly as the limiter that keeps its whole history, while storing no more than its limits. */
    method Allow(now: int, ghost at: int) returns (allowed: bool)
      requires Valid(at) && at <= now
      modifies this, minuteWindow, hourWindow
      ensures Valid(now) && calls == old(calls) + [now]
      ensures allowed == Allows(limits, old(history), now)
      ensures allowed <==>
                && (limits.perMinute <= 0 || CountIn(old(history), now - MINUTE, now) < limits.perMinute)
                && (limits.perHour <= 0 || CountIn(old(history), now - HOUR, now) < limits.perHour)
                && (limits.burst <= 0 || CountIn(old(history), now - 10 * SECOND, now) < limits.burst)
      ensures history == if allowed then old(history) + [now] else old(history)
    {
      RecordStep(limits, calls, history, at, now);
      allowed := Check(now, at);
      if allowed {
        Remember(now);
      }
      calls := calls + [now];
    }

    method Remember(now: int)
      requires Holds(now)
      requires limits.perMinute > 0 ==> |minuteWindow.timestamps| < limits.perMinute
      requires limits.perHour > 0 ==> |hourWindow.timestamps| < limits.perHour
      modifies this`history, minuteWindow, hourWindow
      ensures Holds(now) && history == old(history) + [now]
    {
      Store(minuteWindow, now, history);
      Store(hourWindow, now, history);
      history := history + [now];
    }
  }

  lemma SortedAppend(ts: seq<int>, t: int)
    requires Sorted(ts) && (ts != [] ==> ts[|ts| - 1] <= t)
    ensures Sorted(ts + [t])
  {
  }

  method CheckBurst(w: TimeWindow, limit: int, now: int, ghost history: seq<int>) returns (ok: bool)
    requires limit > 0 && Sorted(history) && w.duration >= BURST_SPAN && Covers(w.timestamps, history, now - w.duration)
    ensures ok == WithinLimit(history, limit, now, BURST_SPAN)
  {
    CoverSorted(w.timestamps, history, now - w.duration);
    CoverCount(w.timestamps, history, now - w.duration, now - BURST_SPAN);
    var recent := w.CountRecent(now, BURST_SPAN);
    ok := recent < limit;
  }

  lemma WiderCover(stored: seq<int>, history: seq<int>, reach: int, later: int)
    requires Covers(stored, history, reach) && reach <= later
    ensures Covers(stored, history, later)
  {
    CoverPrune(stored, history, reach, later, 0);
    assert stored[0..] == stored;
  }

  /** Prunes a window and compares its length with the limit. */
  method CheckWindow(w: TimeWindow, limit: int, now: int, ghost history: seq<int>) returns (ok: bool)
    requires limit > 0 && Sorted(history) && Covers(w.timestamps, history, now - w.duration)
    modifies w
    ensures ok == WithinLimit(history, limit, now, w.duration)
    ensures Covers(w.timestamps, history, now - w.duration)
    ensures |w.timestamps| <= |old(w.timestamps)| && (ok ==> |w.timestamps| < limit)
  {
    ghost var before, cutoff := w.timestamps, now - w.duration;
    CoverSorted(before, history, cutoff);
    CoverCount(before, history, cutoff, cutoff);
    var n, k := w.Count(now);
    CoverPrune(before, history, cutoff, cutoff, k);
    ok := n < limit;
  }

  method Store(w: TimeWindow, now: int, ghost history: seq<int>)
    requires Covers(w.timestamps, history, now - w.duration)
    modifies w
    ensures Covers(w.timestamps, history + [now], now - w.duration)
    ensures |w.timestamps| <= |old(w.timestamps)| + 1
  {
    ghost var before := w.timestamps;
    var k := w.Add(now);
    CoverAppend(before, history, now - w.duration, now);
    CoverPrune(before + [now], history + [now], now - w.duration, now - w.duration, k);
  }

  // ---- Properties of every run ----

  /** Allowed times come in order, none after the latest clock reading. */
  lemma {:induction false} HistorySorted(l: Limits, calls: seq<int>, now: int)
    requires Sorted(calls) && forall i :: 0 <= i < |calls| ==> calls[i] <= now
    ensures Sorted(Allowed(l, calls))
    ensures forall i :: 0 <= i < |Allowed(l, calls)| ==> Allowed(l, calls)[i] <= now
  {
    if calls != [] {
      HistorySorted(l, calls[..|calls| - 1], calls[|calls| - 1]);
    }
  }

  lemma {:induction false} CountInAtMostSince(ts: seq<int>, lo: int, hi: int, cutoff: int)
    requires cutoff <= lo
    ensures CountIn(ts, lo, hi) <= CountSince(ts, cutoff)
  {
    if ts != [] {
      CountInAtMostSince(ts[..|ts| - 1], lo, hi, cutoff);
    }
  }

  /** At every allowed time, fewer than `limit` allowed times lay in the span before it. */
  ghost predicate Respected(ts: seq<int>, limit: int, span: int) {
    ts != [] ==>
      var init, last := ts[..|ts| - 1], ts[|ts| - 1];
      Respected(init, limit, span) && CountSince(init, last - span) < limit
  }

  lemma RespectedStep(ts: seq<int>, now: int, limit: int, span: int)
    requires limit > 0 && Respected(ts, limit, span) && WithinLimit(ts, limit, now, span)
    ensures Respected(ts + [now], limit, span)
  {
    assert (ts + [now])[..|ts|] == ts;
  }

  /** A limit that every decision respected bounds every closed interval of its span. */
  lemma {:induction false} IntervalBound(ts: seq<int>, limit: int, span: int, lo: int)
    requires limit >= 0 && Respected(ts, limit, span)
    ensures CountIn(ts, lo, lo + span) <= limit
  {
    if ts != [] {
      var init, last := ts[..|ts| - 1], ts[|ts| - 1];
      IntervalBound(init, limit, span, lo);
      if lo <= last <= lo + span {
        CountInAtMostSince(init, lo, lo + span, last - span);
      }
    }
  }

  lemma {:induction false} RunRespects(l: Limits, calls: seq<int>, limit: int, span: int)
    requires limit > 0
    requires forall h, now :: Allows(l, h, now) ==> WithinLimit(h, limit, now, span)
    ensures Respected(Allowed(l, calls), limit, span)
  {
    if calls != [] {
      var before, now := Allowed(l, calls[..|calls| - 1]), calls[|calls| - 1];
      RunRespects(l, calls[..|calls| - 1], limit, span);
      if Allows(l, before, now) {
        RespectedStep(before, now, limit, span);
      }
    }
  }

  /** Over any run, every closed minute, hour and ten seconds holds at most the configured number of allowed alerts. */
  lemma EveryIntervalWithinLimits(l: Limits, calls: seq<int>, start: int)
    ensures l.perMinute > 0 ==> CountIn(Allowed(l, calls), start, start + MINUTE) <= l.perMinute
    ensures l.perHour > 0 ==> CountIn(Allowed(l, calls), start, start + HOUR) <= l.perHour
    ensures l.burst > 0 ==> CountIn(Allowed(l, calls), start, start + BURST_SPAN) <= l.burst
  {
    if l.perMinute > 0 {
      RunRespects(l, calls, l.perMinute, MINUTE);
      IntervalBound(Allowed(l, calls), l.perMinute, MINUTE, start);
    }
    if l.perHour > 0 {
      RunRespects(l, calls, l.perHour, HOUR);
      IntervalBound(Allowed(l, calls), l.perHour, HOUR, start);
    }
    if l.burst > 0 {
      RunRespects(l, calls, l.burst, BURST_SPAN);
      IntervalBound(Allowed(l, calls), l.burst, BURST_SPAN, start);
    }
  }
}
