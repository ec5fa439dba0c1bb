/**
 API keys (internal/auth/api_keys.go): validation and usage recording, and what the fixed-window rate limit
 guarantees when checking and counting are separate calls.
 */
module ApiKeys {
  import opened Common
  import opened Intervals
  import RecentList

  const MAX_RECENT := 10

  // ---- One key's rate limit ----

  /** The limit, the uses counted in the current window, and the time after which the window is over. */
  datatype Window = Window(limit: int, used: int, reset: int)

  /** Both the check and the count open a new window first if the current one is over. */
  function Refresh(w: Window, now: int): Window {
    if now > w.reset then w.(used := 0, reset := now + MINUTE) else w
  }

  predicate Limited(w: Window) {
    w.used >= w.limit
  }

  function CountUse(w: Window, now: int): Window {
    var current := Refresh(w, now);
    current.(used := current.used + 1)
  }

  // ---- The manager ----

  datatype Statistics = Statistics(totalRequests: int, successful: int, failed: int, lastIPs: seq<string>)

  datatype ApiKey = ApiKey(
    key: string, isActive: bool, expiresAt: Option<int>, window: Window,
    usageCount: int, lastUsedAt: Option<int>, statistics: Option<Statistics>)

  datatype Verdict = Accepted(id: string) | Deactivated | Expired | RateLimited | Unknown

  /** What validating a matching key answers; only an active, unexpired key has its window looked at. */
  function Judge(id: string, k: ApiKey, now: int): Verdict {
    if !k.isActive then Deactivated
    else if k.expiresAt.Some? && now > k.expiresAt.value then Expired
    else if Limited(Refresh(k.window, now)) then RateLimited
    else Accepted(id)
  }

  function Judged(k: ApiKey, now: int): ApiKey {
    if !k.isActive || (k.expiresAt.Some? && now > k.expiresAt.value) then k
    else k.(window := Refresh(k.window, now))
  }

  function Counted(s: Statistics, clientIP: string, success: bool): Statistics {
    Statistics(s.totalRequests + 1, s.successful + if success then 1 else 0, s.failed + if success then 0 else 1,
               RecentList.AddRecent(s.lastIPs, clientIP, MAX_RECENT))
  }

  function Recorded(k: ApiKey, clientIP: string, success: bool, enabled: bool, now: int): ApiKey {
    k.(usageCount := k.usageCount + 1, lastUsedAt := Some(now), window := CountUse(k.window, now),
       statistics := if enabled && k.statistics.Some? then Some(Counted(k.statistics.value, clientIP, success)) else k.statistics)
  }

  class Manager {
    var keys: map<string, ApiKey>
    const enableStatistics: bool

    constructor (keys: map<string, ApiKey>, enableStatistics: bool)
      ensures this.keys == keys && this.enableStatistics == enableStatistics
    {
      this.keys := keys;
      this.enableStatistics := enableStatistics;
    }

    /** Visits the keys in no particular order and judges the first whose value matches. */
    method ValidateAPIKey(keyValue: string, now: int) returns (verdict: Verdict, ghost id: string)
      modifies this
      ensures verdict == Unknown <==> forall k :: k in old(keys) ==> old(keys)[k].key != keyValue
      ensures verdict == Unknown ==> keys == old(keys)
      ensures verdict != Unknown ==>
                && id in old(keys) && old(keys)[id].key == keyValue
                && verdict == Judge(id, old(keys)[id], now)
                && keys == old(keys)[id := Judged(old(keys)[id], now)]
      ensures verdict != Unknown ==>
                var k := old(keys)[id];
                var expired := k.expiresAt.Some? && now > k.expiresAt.value;
                var over := now > k.window.reset;
                var free := if over then k.window.limit > 0 else k.window.used < k.window.limit;
                && (verdict == Accepted(id) <==> k.isActive && !expired && free)
                && (verdict == Deactivated <==> !k.isActive)
                && (verdict == Expired <==> k.isActive && expired)
                && (verdict == RateLimited <==> k.isActive && !expired && !free)
                && (keys[id] != k ==> k.isActive && !expired && over)
                && (k.isActive && !expired && over ==> keys[id] == k.(window := Window(k.window.limit, 0, now + MINUTE)))
      ensures Happens(enableStatistics, old(keys), if verdict == Unknown then NoMatch else Judging(id, verdict, now), keys)
    {
      id := "";
      var todo := keys.Keys;
      while todo != {}
        invariant todo <= keys.Keys && keys == old(keys)
        invariant forall k :: k in keys && k !in todo ==> keys[k].key != keyValue
        decreases todo
      {
        var candidate :| candidate in todo;
        todo := todo - {candidate};
        var apiKey := keys[candidate];
        if apiKey.key == keyValue {
          id := candidate;
          if !apiKey.isActive {
            assert keys == keys[id := apiKey];
            return Deactivated, id;
          }
          if apiKey.expiresAt.Some? && now > apiKey.expiresAt.value {
            assert keys == keys[id := apiKey];
            return Expired, id;
          }
          keys := keys[candidate := apiKey.(window := Refresh(apiKey.window, now))];
          return (if Limited(keys[candidate].window) then RateLimited else Accepted(candidate)), id;
        }
      }
      verdict := Unknown;
    }

    method RecordAPIKeyUsage(keyID: string, clientIP: string, success: bool, now: int) returns (found: bool)
      modifies this
      ensures found <==> keyID in old(keys)
      ensures keys == if found then old(keys)[keyID := Recorded(old(keys)[keyID], clientIP, success, enableStatistics, now)]
                      else old(keys)
      ensures found ==>
                var k, k' := old(keys)[keyID], keys[keyID];
                && k'.usageCount == k.usageCount + 1 && k'.lastUsedAt == Some(now)
                && (if now > k.window.reset then k'.window.used == 1 && k'.window.reset == now + MINUTE
                    else k'.window.used == k.window.used + 1 && k'.window.reset == k.window.reset)
                && k' == k.(usageCount := k'.usageCount, lastUsedAt := k'.lastUsedAt, window := k'.window, statistics := k'.statistics)
                && k'.window.limit == k.window.limit
                && (!enableStatistics || k.statistics == None ==> k'.statistics == k.statistics)
                && (enableStatistics && k.statistics.Some? ==>
                      var s, s' := k.statistics.value, k'.statistics;
                      && s'.Some? && s'.value.totalRequests == s.totalRequests + 1
                      && s'.value.successful - s.successful == (if success then 1 else 0)
                      && s'.value.failed - s.failed == (if success then 0 else 1)
                      && s'.value.lastIPs == RecentList.AddRecent(s.lastIPs, clientIP, 10))
      ensures found ==> Happens(enableStatistics, old(keys), Using(keyID, clientIP, success, now), keys)
    {
      if keyID !in keys {
        return false;
      }
      var apiKey := keys[keyID];
      apiKey := apiKey.(usageCount := apiKey.usageCount + 1, lastUsedAt := Some(now));
      apiKey := apiKey.(window := CountUse(apiKey.window, now));
      if enableStatistics && apiKey.statistics.Some? {
        var statistics := apiKey.statistics.value;
        statistics := statistics.(totalRequests := statistics.totalRequests + 1);
        if success {
          statistics := statistics.(successful := statistics.successful + 1);
        } else {
          statistics := statistics.(failed := statistics.failed + 1);
        }
        var ips := RecentList.AddToRecentList(statistics.lastIPs, clientIP, MAX_RECENT);
        apiKey := apiKey.(statistics := Some(statistics.(lastIPs := ips)));
      }
      keys := keys[keyID := apiKey];
      found := true;
    }
  }

  // ---- Runs of one key ----

  /** A recorded use: when it was recorded, and the end of the window it was counted in. */
  datatype Use = Use(time: int, window: int)

  /** One key, the validated uses not yet recorded, the uses recorded so far, and the clock. */
  datatype State = State(window: Window, inFlight: nat, log: seq<Use>, now: int)

  /** The clock moves to `now`; a use in flight may also be given up without being recorded. */
  datatype Step = Validate(now: int) | Record(now: int) | Abandon | Pass(now: int)

  predicate Enabled(s: State, step: Step) {
    match step
    case Validate(now) => s.now <= now
    case Record(now) => s.now <= now && s.inFlight > 0
    case Abandon => s.inFlight > 0
    case Pass(now) => s.now <= now
  }

  function Next(s: State, step: Step): State
    requires Enabled(s, step)
  {
    match step
    case Validate(now) =>
      var w := Refresh(s.window, now);
      s.(window := w, inFlight := if Limited(w) then s.inFlight else s.inFlight + 1, now := now)
    case Record(now) =>
      var w := CountUse(s.window, now);
      State(w, s.inFlight - 1, s.log + [Use(now, w.reset)], now)
    case Abandon => s.(inFlight := s.inFlight - 1)
    case Pass(now) => s.(now := now)
  }

  /** A run of a fresh key in which at most `callers` validated uses are ever waiting to be recorded. */
  ghost predicate Run(limit: int, callers: nat, states: seq<State>, steps: seq<Step>) {
    && |states| == |steps| + 1
    && states[0].window.limit == limit && states[0].window.used == 0
    && states[0].inFlight == 0 && states[0].log == []
    && forall i {:trigger steps[i]} :: 0 <= i < |steps| ==>
         Enabled(states[i], steps[i]) && states[i + 1] == Next(states[i], steps[i]) && states[i + 1].inFlight <= callers
  }

  function CountWindow(log: seq<Use>, window: int): nat {
    if log == [] then 0 else CountWindow(log[..|log| - 1], window) + if log[|log| - 1].window == window then 1 else 0
  }

  /** When the uses were recorded. */
  function Times(log: seq<Use>): seq<int> {
    if log == [] then [] else Times(log[..|log| - 1]) + [log[|log| - 1].time]
  }

  lemma CountLast(log: seq<Use>, lo: int, hi: int)
    requires log != []
    ensures CountIn(Times(log), lo, hi) ==
            CountIn(Times(log[..|log| - 1]), lo, hi) + if lo <= log[|log| - 1].time <= hi then 1 else 0
  {
    CountOneTime(Times(log[..|log| - 1]), log[|log| - 1].time, lo, hi);
  }

  lemma CountOneTime(ts: seq<int>, t: int, lo: int, hi: int)
    ensures CountIn(ts + [t], lo, hi) == CountIn(ts, lo, hi) + if lo <= t <= hi then 1 else 0
  {
    assert (ts + [t])[..|ts|] == ts;
  }

  lemma TimesOfOneMore(log: seq<Use>, u: Use)
    ensures Times(log + [u]) == Times(log) + [u.time]
  {
    assert (log + [u])[..|log|] == log;
  }

  /** A later use is in the same window or in one that opened after the earlier window was over. */
  ghost predicate Follows(a: Use, b: Use) {
    a.time <= b.time && (a.window == b.window || a.window < b.window - MINUTE <= b.time)
  }

  ghost predicate Chained(log: seq<Use>) {
    && (forall i, j :: 0 <= i < j < |log| ==> Follows(log[i], log[j]))
    && (forall i :: 0 <= i < |log| ==> log[i].time <= log[i].window)
  }

  ghost predicate Bounded(log: seq<Use>, bound: int) {
    forall w :: CountWindow(log, w) <= bound
  }

  /** Every logged use is in the current window, or in one that was over when the current one opened. */
  ghost predicate Current(s: State) {
    forall i :: 0 <= i < |s.log| ==>
      s.log[i].time <= s.now && (s.log[i].window == s.window.reset || s.log[i].window < s.window.reset - MINUTE <= s.now)
  }

  ghost predicate Inv(limit: int, callers: nat, s: State) {
    && s.window.limit == limit && s.window.used >= 0
    && CountWindow(s.log, s.window.reset) == s.window.used
    && Chained(s.log) && Current(s)
    && (limit <= 0 ==> s.log == [] && s.inFlight == 0)
    && (limit > 0 ==> s.window.used + s.inFlight <= limit + callers - 1 && Bounded(s.log, limit + callers - 1))
  }

  lemma {:induction false} NoUseInNewWindow(log: seq<Use>, window: int)
    requires forall i :: 0 <= i < |log| ==> log[i].window != window
    ensures CountWindow(log, window) == 0
  {
    if log != [] {
      NoUseInNewWindow(log[..|log| - 1], window);
    }
  }

  /** Opening a new window when the old one is over keeps the bookkeeping right. */
  lemma RefreshKeeps(limit: int, callers: nat, s: State, now: int)
    requires Inv(limit, callers, s) && s.now <= now && callers >= 1
    requires limit > 0 ==> s.inFlight <= callers
    ensures var s' := s.(window := Refresh(s.window, now), now := now);
            && s'.window.limit == limit && 0 <= s'.window.used <= s.window.used
            && CountWindow(s'.log, s'.window.reset) == s'.window.used && Current(s')
            && (limit > 0 ==> s'.window.used + s.inFlight <= limit + callers - 1)
            && now <= s'.window.reset
  {
    var s' := s.(window := Refresh(s.window, now), now := now);
    if now > s.window.reset {
      forall i | 0 <= i < |s.log|
        ensures s.log[i].window < s'.window.reset - MINUTE
      {
      }
      NoUseInNewWindow(s.log, s'.window.reset);
    }
  }

  lemma LogUse(log: seq<Use>, u: Use, bound: int)
    requires Chained(log) && Bounded(log, bound) && u.time <= u.window
    requires forall i :: 0 <= i < |log| ==> Follows(log[i], u)
    requires CountWindow(log, u.window) < bound
    ensures Chained(log + [u]) && Bounded(log + [u], bound)
    ensures CountWindow(log + [u], u.window) == CountWindow(log, u.window) + 1
  {
    CountOneMore(log, u, u.window);
    LogStaysChained(log, u);
    forall w
      ensures CountWindow(log + [u], w) <= bound
    {
      CountOneMore(log, u, w);
    }
  }

  lemma LogStaysChained(log: seq<Use>, u: Use)
    requires Chained(log) && u.time <= u.window && forall i :: 0 <= i < |log| ==> Follows(log[i], u)
    ensures Chained(log + [u])
  {
  }

  lemma CountOneMore(log: seq<Use>, u: Use, window: int)
    ensures CountWindow(log + [u], window) == CountWindow(log, window) + if u.window == window then 1 else 0
  {
    assert (log + [u])[..|log|] == log;
  }

  lemma RecordKeepsInv(limit: int, callers: nat, s: State, now: int)
    requires Inv(limit, callers, s) && Enabled(s, Record(now)) && 1 <= s.inFlight <= callers
    ensures Inv(limit, callers, Next(s, Record(now)))
  {
    RefreshKeeps(limit, callers, s, now);
    LogUse(s.log, Use(now, Refresh(s.window, now).reset), limit + callers - 1);
  }

  lemma StepKeepsInv(limit: int, callers: nat, s: State, step: Step)
    requires Inv(limit, callers, s) && Enabled(s, step) && callers >= 1
    requires s.inFlight <= callers && Next(s, step).inFlight <= callers
    ensures Inv(limit, callers, Next(s, step))
  {
    match step
    case Validate(now) => RefreshKeeps(limit, callers, s, now);
    case Record(now) => RecordKeepsInv(limit, callers, s, now);
    case Abandon =>
    case Pass(_) =>
  }

  lemma {:induction false} Reachable(limit: int, callers: nat, states: seq<State>, steps: seq<Step>, i: nat)
    requires Run(limit, callers, states, steps) && callers >= 1 && i < |states|
    ensures Inv(limit, callers, states[i]) && states[i].inFlight <= callers
  {
    if i > 0 {
      Reachable(limit, callers, states, steps, i - 1);
      StepKeepsInv(limit, callers, states[i - 1], steps[i - 1]);
    }
  }

  /**
   With at most `callers` uses between validation and recording, no window records more than
   `limit + callers - 1` uses; with one at a time, no more than the limit.
   */
  lemma EveryWindowBounded(limit: int, callers: nat, states: seq<State>, steps: seq<Step>, i: nat, window: int)
    requires Run(limit, callers, states, steps) && callers >= 1 && i < |states|
    ensures CountWindow(states[i].log, window) <= if limit > 0 then limit + callers - 1 else 0
  {
    Reachable(limit, callers, states, steps, i);
  }

  /** Uses in a closed minute fall into at most two windows. */
  lemma {:induction false} TwoWindows(log: seq<Use>, lo: int, a: int, b: int)
    requires forall i :: 0 <= i < |log| && lo <= log[i].time <= lo + MINUTE ==> log[i].window == a || log[i].window == b
    ensures CountIn(Times(log), lo, lo + MINUTE) <= CountWindow(log, a) + CountWindow(log, b)
  {
    if log != [] {
      CountLast(log, lo, lo + MINUTE);
      TwoWindows(log[..|log| - 1], lo, a, b);
    }
  }

  lemma {:induction false} NoneInside(log: seq<Use>, lo: int)
    requires forall i :: 0 <= i < |log| ==> !(lo <= log[i].time <= lo + MINUTE)
    ensures CountIn(Times(log), lo, lo + MINUTE) == 0
  {
    if log != [] {
      CountLast(log, lo, lo + MINUTE);
      NoneInside(log[..|log| - 1], lo);
    }
  }

  /** The windows of the first and the last use inside a closed minute are the only ones used inside it. */
  lemma IntervalInTwoWindows(log: seq<Use>, lo: int, i: nat, j: nat, k: nat)
    requires Chained(log) && i <= k <= j < |log|
    requires lo <= log[i].time && log[j].time <= lo + MINUTE
    ensures log[k].window == log[i].window || log[k].window == log[j].window
  {
    assert i < k ==> Follows(log[i], log[k]);
    assert k < j ==> Follows(log[k], log[j]);
  }

  lemma {:induction false} FirstInside(log: seq<Use>, lo: int) returns (i: nat)
    ensures i <= |log| && (i < |log| ==> lo <= log[i].time <= lo + MINUTE)
    ensures forall k :: 0 <= k < i ==> !(lo <= log[k].time <= lo + MINUTE)
  {
    i := 0;
    while i < |log| && !(lo <= log[i].time <= lo + MINUTE)
      invariant i <= |log| && forall k :: 0 <= k < i ==> !(lo <= log[k].time <= lo + MINUTE)
    {
      i := i + 1;
    }
  }

  lemma {:induction false} LastInside(log: seq<Use>, lo: int, i: nat) returns (j: nat)
    requires i < |log| && lo <= log[i].time <= lo + MINUTE
    ensures i <= j < |log| && lo <= log[j].time <= lo + MINUTE
    ensures forall k :: j < k < |log| ==> !(lo <= log[k].time <= lo + MINUTE)
  {
    j := |log| - 1;
    while !(lo <= log[j].time <= lo + MINUTE)
      invariant i <= j < |log| && forall k :: j < k < |log| ==> !(lo <= log[k].time <= lo + MINUTE)
      decreases j
    {
      j := j - 1;
    }
  }

  lemma ChainedInterval(log: seq<Use>, bound: int, lo: int)
    requires Chained(log) && Bounded(log, bound) && bound >= 0
    ensures CountIn(Times(log), lo, lo + MINUTE) <= 2 * bound
  {
    var i := FirstInside(log, lo);
    if i == |log| {
      NoneInside(log, lo);
    } else {
      var j := LastInside(log, lo, i);
      forall k | 0 <= k < |log| && lo <= log[k].time <= lo + MINUTE
        ensures log[k].window == log[i].window || log[k].window == log[j].window
      {
        IntervalInTwoWindows(log, lo, i, j, k);
      }
      TwoWindows(log, lo, log[i].window, log[j].window);
    }
  }

  /** No closed minute holds more than twice what one window may record. */
  lemma EveryMinuteBounded(limit: int, callers: nat, states: seq<State>, steps: seq<Step>, i: nat, start: int)
    requires Run(limit, callers, states, steps) && callers >= 1 && i < |states|
    ensures CountIn(Times(states[i].log), start, start + MINUTE) <= if limit > 0 then 2 * (limit + callers - 1) else 0
  {
    Reachable(limit, callers, states, steps, i);
    if limit > 0 {
      ChainedInterval(states[i].log, limit + callers - 1, start);
    }
  }

  // ---- The bound is attained ----

  ghost predicate Reached(limit: int, callers: nat, s: State) {
    exists states, steps :: Run(limit, callers, states, steps) && states[|steps|] == s
  }

  lemma ReachedNext(limit: int, callers: nat, s: State, step: Step)
    requires Reached(limit, callers, s) && Enabled(s, step) && Next(s, step).inFlight <= callers
    ensures Reached(limit, callers, Next(s, step))
  {
    var states, steps :| Run(limit, callers, states, steps) && states[|steps|] == s;
    var states', steps' := states + [Next(s, step)], steps + [step];
    forall i {:trigger steps'[i]} | 0 <= i < |steps'|
      ensures Enabled(states'[i], steps'[i]) && states'[i + 1] == Next(states'[i], steps'[i]) && states'[i + 1].inFlight <= callers
    {
      assert i < |steps| ==> steps'[i] == steps[i];
    }
    assert Run(limit, callers, states', steps');
  }

  lemma CountOneUse(log: seq<Use>, u: Use, lo: int, hi: int)
    ensures CountIn(Times(log + [u]), lo, hi) == CountIn(Times(log), lo, hi) + if lo <= u.time <= hi then 1 else 0
  {
    TimesOfOneMore(log, u);
    CountOneTime(Times(log), u.time, lo, hi);
  }

  /**
   A reached state whose window is open at the present instant, with `waiting` uses in flight and `count` uses recorded in
   the closed minute from `lo` on, in which the present instant lies.
   */
  ghost predicate Filling(limit: int, callers: nat, lo: int, s: State, waiting: nat, count: nat) {
    && Reached(limit, callers, s) && s.window.limit == limit && s.window.used >= 0 && s.inFlight == waiting
    && lo <= s.now <= lo + MINUTE && s.now <= s.window.reset
    && CountIn(Times(s.log), lo, lo + MINUTE) == count
  }

  lemma ValidateOne(limit: int, callers: nat, lo: int, s: State, waiting: nat, count: nat) returns (s': State)
    requires Filling(limit, callers, lo, s, waiting, count) && s.window.used < limit && waiting < callers
    ensures Filling(limit, callers, lo, s', waiting + 1, count) && s'.window == s.window && s'.now == s.now
  {
    s' := Next(s, Validate(s.now));
    ReachedNext(limit, callers, s, Validate(s.now));
  }

  lemma RecordOne(limit: int, callers: nat, lo: int, s: State, waiting: nat, count: nat) returns (s': State)
    requires Filling(limit, callers, lo, s, waiting, count) && 1 <= waiting <= callers
    ensures Filling(limit, callers, lo, s', waiting - 1, count + 1)
    ensures s'.window == s.window.(used := s.window.used + 1) && s'.now == s.now
  {
    s' := Next(s, Record(s.now));
    ReachedNext(limit, callers, s, Record(s.now));
    CountOneUse(s.log, Use(s.now, s.window.reset), lo, lo + MINUTE);
  }

  /** Uses one at a time, as long as they stay within the limit. */
  lemma {:induction false} OneByOne(limit: int, callers: nat, lo: int, s: State, count: nat, uses: nat) returns (s': State)
    requires Filling(limit, callers, lo, s, 0, count) && callers >= 1 && s.window.used + uses <= limit
    ensures Filling(limit, callers, lo, s', 0, count + uses)
    ensures s'.window == s.window.(used := s.window.used + uses) && s'.now == s.now
    decreases uses
  {
    if uses == 0 {
      s' := s;
    } else {
      var validated := ValidateOne(limit, callers, lo, s, 0, count);
      var recorded := RecordOne(limit, callers, lo, validated, 1, count);
      s' := OneByOne(limit, callers, lo, recorded, count + 1, uses - 1);
    }
  }

  /** Below the limit, any number of uses can be validated before any of them is recorded. */
  lemma {:induction false} ValidateMany(limit: int, callers: nat, lo: int, s: State, waiting: nat, count: nat) returns (s': State)
    requires Filling(limit, callers, lo, s, waiting, count) && s.window.used < limit && waiting <= callers
    ensures Filling(limit, callers, lo, s', callers, count) && s'.window == s.window && s'.now == s.now
    decreases callers - waiting
  {
    if waiting == callers {
      s' := s;
    } else {
      var validated := ValidateOne(limit, callers, lo, s, waiting, count);
      s' := ValidateMany(limit, callers, lo, validated, waiting + 1, count);
    }
  }

  lemma {:induction false} RecordMany(limit: int, callers: nat, lo: int, s: State, waiting: nat, count: nat) returns (s': State)
    requires Filling(limit, callers, lo, s, waiting, count) && waiting <= callers
    ensures Filling(limit, callers, lo, s', 0, count + waiting)
    ensures s'.window == s.window.(used := s.window.used + waiting) && s'.now == s.now
    decreases waiting
  {
    if waiting == 0 {
      s' := s;
    } else {
      var recorded := RecordOne(limit, callers, lo, s, waiting, count);
      s' := RecordMany(limit, callers, lo, recorded, waiting - 1, count + 1);
    }
  }

  /** An open window in which nothing was counted yet can be filled to the bound. */
  lemma FillWindow(limit: int, callers: nat, lo: int, s: State, count: nat) returns (s': State)
    requires Filling(limit, callers, lo, s, 0, count) && s.window.used == 0 && limit >= 1 && callers >= 1
    ensures Filling(limit, callers, lo, s', 0, count + limit + callers - 1)
    ensures s'.window == s.window.(used := limit + callers - 1) && s'.now == s.now
  {
    var serial := OneByOne(limit, callers, lo, s, count, limit - 1);
    var validated := ValidateMany(limit, callers, lo, serial, 0, count + limit - 1);
    s' := RecordMany(limit, callers, lo, validated, callers, count + limit - 1);
  }

  /** A fresh key in the last instant of its window. */
  lemma FreshKey(limit: int, callers: nat, now: int) returns (s: State)
    ensures Filling(limit, callers, now, s, 0, 0) && s.window == Window(limit, 0, now) && s.now == now
  {
    s := State(Window(limit, 0, now), 0, [], now);
    assert Run(limit, callers, [s], []);
  }

  /** For every limit and number of callers some run records as many uses in one window as the bound allows. */
  lemma BoundIsAttained(limit: int, callers: nat) returns (s: State)
    requires limit >= 1 && callers >= 1
    ensures Reached(limit, callers, s) && CountWindow(s.log, s.window.reset) == limit + callers - 1
  {
    var unused := FreshKey(limit, callers, 0);
    s := FillWindow(limit, callers, 0, unused, 0);
    var states, steps :| Run(limit, callers, states, steps) && states[|steps|] == s;
    Reachable(limit, callers, states, steps, |steps|);
  }

  /** After the last instant of a window, a validated and abandoned use opens the next one. */
  lemma NextWindow(limit: int, callers: nat, lo: int, s: State, count: nat) returns (s': State)
    requires Filling(limit, callers, lo, s, 0, count) && limit >= 1 && callers >= 1
    requires s.now == s.window.reset && s.now < lo + MINUTE
    ensures Filling(limit, callers, lo, s', 0, count) && s'.window.used == 0
  {
    var validated := Next(s, Validate(s.now + 1));
    ReachedNext(limit, callers, s, Validate(s.now + 1));
    ReachedNext(limit, callers, validated, Abandon);
    s' := Next(validated, Abandon);
  }

  /** For every limit and number of callers some run records twice the window's bound within one closed minute. */
  lemma MinuteBoundIsAttained(limit: int, callers: nat) returns (s: State, start: int)
    requires limit >= 1 && callers >= 1
    ensures Reached(limit, callers, s) && CountIn(Times(s.log), start, start + MINUTE) == 2 * (limit + callers - 1)
  {
    start := 0;
    var unused := FreshKey(limit, callers, start);
    var full := FillWindow(limit, callers, start, unused, 0);
    var next := NextWindow(limit, callers, start, full, limit + callers - 1);
    s := FillWindow(limit, callers, start, next, limit + callers - 1);
  }

  /** The configured limit holds in every window of every run exactly if uses never overlap. */
  lemma LimitHoldsIff(limit: int, callers: nat)
    requires limit >= 1 && callers >= 1
    ensures (forall s, window :: Reached(limit, callers, s) ==> CountWindow(s.log, window) <= limit) <==> callers == 1
  {
    if callers == 1 {
      forall s, window | Reached(limit, callers, s)
        ensures CountWindow(s.log, window) <= limit
      {
        var states, steps :| Run(limit, callers, states, steps) && states[|steps|] == s;
        EveryWindowBounded(limit, callers, states, steps, |steps|, window);
      }
    } else {
      var s := BoundIsAttained(limit, callers);
    }
  }

  // ---- From calls of the manager to runs of one key ----

  /** What a call of the manager did: judged a key, found none, or recorded a use; a caller may also give up a use. */
  datatype Event =
    | Judging(id: string, verdict: Verdict, now: int)
    | NoMatch
    | Using(id: string, clientIP: string, success: bool, now: int)
    | GivingUp(id: string)

  ghost predicate Happens(enabled: bool, before: map<string, ApiKey>, e: Event, after: map<string, ApiKey>) {
    match e
    case Judging(id, verdict, now) =>
      id in before && verdict == Judge(id, before[id], now) && after == before[id := Judged(before[id], now)]
    case NoMatch => after == before
    case Using(id, clientIP, success, now) =>
      id in before && after == before[id := Recorded(before[id], clientIP, success, enabled, now)]
    case GivingUp(_) => after == before
  }

  ghost predicate History(enabled: bool, keys: seq<map<string, ApiKey>>, events: seq<Event>) {
    && |keys| == |events| + 1
    && forall i {:trigger events[i]} :: 0 <= i < |events| ==> Happens(enabled, keys[i], events[i], keys[i + 1])
  }

  /** When uses of the key were recorded. */
  function UseTimes(events: seq<Event>, id: string): seq<int> {
    if events == [] then [] else
    var last := events[|events| - 1];
    UseTimes(events[..|events| - 1], id) + if last.Using? && last.id == id then [last.now] else []
  }

  /** How many accepted validations of the key are still without a recorded or given-up use. */
  function Granted(events: seq<Event>, id: string): int {
    if events == [] then 0 else
    var before, last := Granted(events[..|events| - 1], id), events[|events| - 1];
    match last
    case Judging(k, verdict, _) => if k == id && verdict == Accepted(id) then before + 1 else before
    case Using(k, _, _, _) => if k == id then before - 1 else before
    case GivingUp(k) => if k == id then before - 1 else before
    case NoMatch => before
  }

  /** The clock at the latest event that read it for the key. */
  function Latest(events: seq<Event>, id: string, from: int): int {
    if events == [] then from else
    var last := events[|events| - 1];
    if (last.Judging? || last.Using?) && last.id == id then last.now else Latest(events[..|events| - 1], id, from)
  }

  /**
   The clock does not run backwards, each recorded use was accepted before, and at most `callers` accepted ones are still
   waiting to be recorded.
   */
  ghost predicate Disciplined(events: seq<Event>, id: string, callers: nat, from: int) {
    events != [] ==>
      var init, last := events[..|events| - 1], events[|events| - 1];
      && Disciplined(init, id, callers, from) && Granted(events, id) <= callers
      && ((last.Judging? || last.Using?) && last.id == id ==> last.now >= Latest(init, id, from))
      && ((last.Using? || last.GivingUp?) && last.id == id ==> Granted(init, id) > 0)
  }

  /** Windows are at most a minute long. */
  ghost predicate Recent(s: State) {
    && s.window.reset <= s.now + MINUTE
    && forall i :: 0 <= i < |s.log| ==> s.log[i].window <= s.log[i].time + MINUTE
  }

  lemma RecentNext(s: State, step: Step)
    requires Recent(s) && Enabled(s, step)
    ensures Recent(Next(s, step))
  {
  }

  lemma LoggedTime(s: State, now: int)
    requires Enabled(s, Record(now))
    ensures Times(Next(s, Record(now)).log) == Times(s.log) + [now]
  {
    var log := Next(s, Record(now)).log;
    TimesOfOneMore(s.log, log[|log| - 1]);
  }

  /** A reached state agrees with a key, the times of its recorded uses and the number of uses in flight. */
  ghost predicate Tracks(limit: int, callers: nat, s: State, times: seq<int>, granted: int, key: ApiKey) {
    Reached(limit, callers, s) && Times(s.log) == times && s.inFlight == granted && s.window == key.window
  }

  /** Judging moves the window and, if the verdict is acceptance, grants a use. */
  lemma TracksJudging(limit: int, callers: nat, s: State, times: seq<int>, granted: int, id: string, k: ApiKey, now: int)
    returns (s': State)
    requires Tracks(limit, callers, s, times, granted, k) && s.now <= now
    requires (if Judge(id, k, now) == Accepted(id) then granted + 1 else granted) <= callers
    ensures Tracks(limit, callers, s', times, if Judge(id, k, now) == Accepted(id) then granted + 1 else granted, Judged(k, now))
    ensures s'.now == now && (Recent(s) ==> Recent(s'))
  {
    var verdict := Judge(id, k, now);
    if verdict.Accepted? || verdict.RateLimited? {
      s' := Next(s, Validate(now));
      ReachedNext(limit, callers, s, Validate(now));
      if Recent(s) {
        RecentNext(s, Validate(now));
      }
    } else {
      s' := Later(limit, callers, s, now);
    }
  }

  /** Time passes without a call that looks at the window. */
  lemma Later(limit: int, callers: nat, s: State, now: int) returns (s': State)
    requires Reached(limit, callers, s) && s.now <= now && s.inFlight <= callers
    ensures Reached(limit, callers, s') && s' == s.(now := now) && (Recent(s) ==> Recent(s'))
  {
    s' := Next(s, Pass(now));
    ReachedNext(limit, callers, s, Pass(now));
  }

  lemma TracksUsing(limit: int, callers: nat, s: State, times: seq<int>, granted: int, k: ApiKey, k': ApiKey, now: int)
    returns (s': State)
    requires Tracks(limit, callers, s, times, granted, k) && s.now <= now && 0 < granted <= callers
    requires k'.window == CountUse(k.window, now)
    ensures Tracks(limit, callers, s', times + [now], granted - 1, k')
    ensures s'.now == now && (Recent(s) ==> Recent(s'))
  {
    s' := Next(s, Record(now));
    ReachedNext(limit, callers, s, Record(now));
    LoggedTime(s, now);
    if Recent(s) {
      RecentNext(s, Record(now));
    }
  }

  lemma TracksGivingUp(limit: int, callers: nat, s: State, times: seq<int>, granted: int, k: ApiKey) returns (s': State)
    requires Tracks(limit, callers, s, times, granted, k) && 0 < granted <= callers
    ensures Tracks(limit, callers, s', times, granted - 1, k)
    ensures s'.now == s.now && (Recent(s) ==> Recent(s'))
  {
    s' := Next(s, Abandon);
    ReachedNext(limit, callers, s, Abandon);
  }

  /**
   In every history of calls of the manager, what happens to one unused key is a run: its window is that of the run's
   state, its recorded uses are those of the run, and the uses in flight are the accepted ones not yet recorded.
   */
  lemma {:induction false} HistoryIsRun(enabled: bool, keys: seq<map<string, ApiKey>>, events: seq<Event>, id: string,
                                        callers: nat, from: int) returns (s: State)
    requires History(enabled, keys, events) && id in keys[0] && keys[0][id].window.used == 0
    requires Disciplined(events, id, callers, from)
    ensures id in keys[|events|] && s.now == Latest(events, id, from)
    ensures Tracks(keys[0][id].window.limit, callers, s, UseTimes(events, id), Granted(events, id), keys[|events|][id])
    ensures keys[0][id].window.reset <= from + MINUTE ==> Recent(s)
  {
    var limit := keys[0][id].window.limit;
    if events == [] {
      s := State(keys[0][id].window, 0, [], from);
      assert Run(limit, callers, [s], []);
    } else {
      var n := |events| - 1;
      var init, e := events[..n], events[n];
      assert History(enabled, keys[..n + 1], init);
      var before := HistoryIsRun(enabled, keys[..n + 1], init, id, callers, from);
      assert Happens(enabled, keys[n], e, keys[n + 1]);
      var times, granted := UseTimes(init, id), Granted(init, id);
      assert times + [] == times;
      if e.NoMatch? || e.id != id {
        s := before;
      } else {
        match e
        case Judging(_, _, now) => s := TracksJudging(limit, callers, before, times, granted, id, keys[n][id], now);
        case Using(_, _, _, now) => s := TracksUsing(limit, callers, before, times, granted, keys[n][id], keys[n + 1][id], now);
        case GivingUp(_) => s := TracksGivingUp(limit, callers, before, times, granted, keys[n][id]);
      }
    }
  }

  lemma ReachedInv(limit: int, callers: nat, s: State)
    requires Reached(limit, callers, s) && callers >= 1
    ensures Inv(limit, callers, s)
  {
    var states, steps :| Run(limit, callers, states, steps) && states[|steps|] == s;
    Reachable(limit, callers, states, steps, |steps|);
  }

  /**
   Over every history of calls in which a use is recorded only after it was accepted, no closed minute holds more recorded
   uses of a key than twice what a window may record.
   */
  lemma UsesPerMinute(enabled: bool, keys: seq<map<string, ApiKey>>, events: seq<Event>, id: string, callers: nat,
                      from: int, time: int)
    requires History(enabled, keys, events) && id in keys[0] && keys[0][id].window.used == 0 && callers >= 1
    requires Disciplined(events, id, callers, from)
    ensures var limit := keys[0][id].window.limit;
            CountIn(UseTimes(events, id), time, time + MINUTE) <= if limit > 0 then 2 * (limit + callers - 1) else 0
  {
    var limit := keys[0][id].window.limit;
    var s := HistoryIsRun(enabled, keys, events, id, callers, from);
    var states, steps :| Run(limit, callers, states, steps) && states[|steps|] == s;
    EveryMinuteBounded(limit, callers, states, steps, |steps|, time);
  }

  /** The uses of a window that is not over lie in the minute before. */
  lemma {:induction false} WindowInMinute(log: seq<Use>, window: int, now: int)
    requires forall i :: 0 <= i < |log| && log[i].window == window ==> now - MINUTE <= log[i].time <= now
    ensures CountWindow(log, window) <= CountIn(Times(log), now - MINUTE, now)
  {
    if log != [] {
      CountLast(log, now - MINUTE, now);
      WindowInMinute(log[..|log| - 1], window, now);
    }
  }

  lemma LimitedMeansUsed(limit: int, callers: nat, s: State, now: int)
    requires Reached(limit, callers, s) && callers >= 1 && limit > 0 && Recent(s) && s.now <= now
    requires Limited(Refresh(s.window, now))
    ensures CountIn(Times(s.log), now - MINUTE, now) >= limit
  {
    ReachedInv(limit, callers, s);
    WindowInMinute(s.log, s.window.reset, now);
  }

  /** A key with a positive limit is refused for its rate only if that many uses were recorded in the minute before. */
  lemma RefusalMeansUses(enabled: bool, keys: seq<map<string, ApiKey>>, events: seq<Event>, id: string, callers: nat,
                         from: int, now: int)
    requires History(enabled, keys, events) && id in keys[0] && callers >= 1
    requires keys[0][id].window.used == 0 && keys[0][id].window.limit > 0 && keys[0][id].window.reset <= from + MINUTE
    requires Disciplined(events, id, callers, from) && now >= Latest(events, id, from)
    requires id in keys[|events|] && Judge(id, keys[|events|][id], now) == RateLimited
    ensures CountIn(UseTimes(events, id), now - MINUTE, now) >= keys[0][id].window.limit
  {
    var s := HistoryIsRun(enabled, keys, events, id, callers, from);
    LimitedMeansUsed(keys[0][id].window.limit, callers, s, now);
  }
}
