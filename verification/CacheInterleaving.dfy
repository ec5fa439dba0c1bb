/**
 Every interleaving of the backend's locked sections (cache/filesystem.go). A `Get` that finds an expired
 entry drops the read lock and takes the write lock, so its removal is a section of its own; an access-time
 update is a section that runs some time after the `Get` that scheduled it.
 */
module CacheInterleaving {
  import opened Common
  import opened CacheTypes
  import opened CacheFiles

  datatype State = State(
    files: Files,
    /** One element per `Get` that saw an expired entry and has not yet taken the write lock. */
    removals: multiset<string>,
    /** One element per scheduled access-time update. */
    updates: multiset<string>,
    now: int)

  datatype Step =
    | Put(key: string, data: Bytes, ttl: int)
    | Delete(key: string)
    | Clear
    | GetMiss(key: string)
    | GetHit(key: string)
    | GetExpired(key: string)
    | RemoveExpired(key: string)
    | UpdateAccessTime(key: string)
    | Wait(time: nat)

  ghost predicate Enabled(codec: Codec, s: State, step: Step) {
    match step
    case Put(key, _, _) => Storable(s.files, key)
    case Delete(key) => IsMeta(key) ==> key !in s.files
    case GetMiss(key) => LoadMeta(codec, s.files, key) == None || (key !in s.files && !Expired(LoadMeta(codec, s.files, key).value, s.now))
    case GetHit(key) => LoadMeta(codec, s.files, key).Some? && !Expired(LoadMeta(codec, s.files, key).value, s.now) && key in s.files
    case GetExpired(key) => LoadMeta(codec, s.files, key).Some? && Expired(LoadMeta(codec, s.files, key).value, s.now)
    case RemoveExpired(key) => key in s.removals
    case UpdateAccessTime(key) => key in s.updates
    case _ => true
  }

  ghost function Next(codec: Codec, s: State, step: Step): State {
    match step
    case Put(key, data, ttl) => s.(files := PutFiles(codec, s.files, key, data, ttl, s.now))
    case Delete(key) => s.(files := RemoveFiles(s.files, key))
    case Clear => s.(files := map[])
    case GetMiss(_) => s
    case GetHit(key) => s.(updates := s.updates + multiset{key})
    case GetExpired(key) => s.(removals := s.removals + multiset{key})
    case RemoveExpired(key) => s.(files := RemoveFiles(s.files, key), removals := s.removals - multiset{key})
    case UpdateAccessTime(key) => s.(files := TouchFiles(codec, s.files, key, s.now), updates := s.updates - multiset{key})
    case Wait(time) => s.(now := s.now + time)
  }

  ghost predicate Run(codec: Codec, states: seq<State>, steps: seq<Step>) {
    && codec.RoundTrips()
    && |states| == |steps| + 1
    && states[0].files == map[] && states[0].removals == states[0].updates == multiset{}
    && forall i {:trigger steps[i]} :: 0 <= i < |steps| ==> Takes(codec, states[i], steps[i], states[i + 1])
  }

  ghost predicate Takes(codec: Codec, s: State, step: Step, s': State) {
    Enabled(codec, s, step) && s' == Next(codec, s, step)
  }

  ghost predicate Inv(codec: Codec, s: State) {
    Layout(codec, s.files) && forall k :: k in s.removals ==> !IsMeta(k)
  }

  lemma StepKeepsInv(codec: Codec, s: State, step: Step)
    requires codec.RoundTrips() && Inv(codec, s) && Enabled(codec, s, step)
    ensures Inv(codec, Next(codec, s, step))
  {
    match step
    case Put(key, data, ttl) => PutKeepsLayout(codec, s.files, key, data, ttl, s.now);
    case Delete(key) => RemoveKeepsLayoutIff(codec, s.files, key);
    case GetExpired(key) => MetaMeansData(codec, s.files, key);
    case RemoveExpired(key) => RemoveKeepsLayoutIff(codec, s.files, key);
    case UpdateAccessTime(key) => TouchEntries(codec, s.files, key, s.now);
    case _ =>
  }

  lemma {:induction false} Reachable(codec: Codec, states: seq<State>, steps: seq<Step>, i: nat)
    requires Run(codec, states, steps) && i < |states|
    ensures Inv(codec, states[i])
  {
    if i > 0 {
      Reachable(codec, states, steps, i - 1);
      StepKeepsInv(codec, states[i - 1], steps[i - 1]);
    }
  }

  function Count(steps: seq<Step>, step: Step): nat {
    if steps == [] then 0 else Count(steps[..|steps| - 1], step) + if steps[|steps| - 1] == step then 1 else 0
  }

  /** The scheduled sections are those still pending and those carried out. */
  ghost predicate Balanced(s: State, steps: seq<Step>, key: string) {
    && Count(steps, GetHit(key)) == s.updates[key] + Count(steps, UpdateAccessTime(key))
    && Count(steps, GetExpired(key)) == s.removals[key] + Count(steps, RemoveExpired(key))
  }

  /** Every hit schedules one access-time update, and every expired `Get` one removal, and each is carried out at most once. */
  lemma {:induction false} SectionsScheduled(codec: Codec, states: seq<State>, steps: seq<Step>, i: nat, key: string)
    requires Run(codec, states, steps) && i < |states|
    ensures Balanced(states[i], steps[..i], key)
  {
    if i > 0 {
      SectionsScheduled(codec, states, steps, i - 1, key);
      BalancedNext(codec, states[i - 1], steps[i - 1], states[i], steps[..i - 1], key);
      assert steps[..i - 1] + [steps[i - 1]] == steps[..i];
    }
  }

  lemma BalancedNext(codec: Codec, s: State, step: Step, s': State, steps: seq<Step>, key: string)
    requires Takes(codec, s, step, s') && Balanced(s, steps, key)
    ensures Balanced(s', steps + [step], key)
  {
    ScheduledNext(codec, s, step, key);
    CountNext(steps, step, GetHit(key));
    CountNext(steps, step, UpdateAccessTime(key));
    CountNext(steps, step, GetExpired(key));
    CountNext(steps, step, RemoveExpired(key));
  }

  lemma CountNext(steps: seq<Step>, last: Step, step: Step)
    ensures Count(steps + [last], step) == Count(steps, step) + if last == step then 1 else 0
  {
    assert (steps + [last])[..|steps|] == steps;
  }

  lemma ScheduledNext(codec: Codec, s: State, step: Step, key: string)
    requires Enabled(codec, s, step)
    ensures var s' := Next(codec, s, step);
            && s'.updates[key] + (if step == UpdateAccessTime(key) then 1 else 0) == s.updates[key] + (if step == GetHit(key) then 1 else 0)
            && s'.removals[key] + (if step == RemoveExpired(key) then 1 else 0) == s.removals[key] + (if step == GetExpired(key) then 1 else 0)
  {
  }

  /** In every reachable state data and metadata files come in pairs, and the recorded size is the data's length. */
  lemma FilesInPairs(codec: Codec, states: seq<State>, steps: seq<Step>, i: nat, key: string)
    requires Run(codec, states, steps) && i < |states| && !IsMeta(key)
    ensures key in states[i].files <==> MetaPath(key) in states[i].files
    ensures key in states[i].files ==>
              var meta := LoadMeta(codec, states[i].files, key);
              meta.Some? && meta.value.key == key && meta.value.size == |states[i].files[key]|
    ensures Paired(codec, states[i].files)
  {
    Reachable(codec, states, steps, i);
    LayoutIsPaired(codec, states[i].files);
    SuffixPaths(key);
    MetaMeansData(codec, states[i].files, key);
    assert key in states[i].files ==> EntryOk(codec, states[i].files, key);
  }

  /** In every state each `Get` has exactly one way to go: a hit on a live entry, an expired one, or a miss. */
  lemma GetIsDecided(codec: Codec, s: State, key: string)
    requires codec.RoundTrips() && Inv(codec, s)
    ensures var e := Entries(codec, s.files);
            && (Enabled(codec, s, GetMiss(key)) <==> key !in e)
            && (Enabled(codec, s, GetHit(key)) <==> key in e && (e[key].ttl <= 0 || s.now <= e[key].createdAt + e[key].ttl))
            && (Enabled(codec, s, GetExpired(key)) <==> key in e && e[key].ttl > 0 && s.now > e[key].createdAt + e[key].ttl)
  {
    MetaMeansData(codec, s.files, key);
    assert key in KeySet(s.files) ==> EntryOk(codec, s.files, key);
  }

  /** The other sections are open to any caller, and the two delayed ones run exactly if one was scheduled. */
  lemma SectionsAreOpen(codec: Codec, s: State, key: string, data: Bytes, ttl: int, time: nat)
    requires Inv(codec, s)
    ensures !IsMeta(key) && TempPath(key) !in s.files ==> Enabled(codec, s, Put(key, data, ttl))
    ensures !IsMeta(key) ==> Enabled(codec, s, Delete(key))
    ensures Enabled(codec, s, Clear) && Enabled(codec, s, Wait(time))
    ensures Enabled(codec, s, RemoveExpired(key)) <==> s.removals[key] > 0
    ensures Enabled(codec, s, UpdateAccessTime(key)) <==> s.updates[key] > 0
  {
  }

  /** What one section does to the plain map. */
  lemma StepEntries(codec: Codec, s: State, step: Step)
    requires codec.RoundTrips() && Inv(codec, s) && Enabled(codec, s, step)
    ensures Inv(codec, Next(codec, s, step))
    ensures Entries(codec, Next(codec, s, step).files) ==
            var e := Entries(codec, s.files);
            match step
            case Put(key, data, ttl) => e[key := Entry(data, s.now, s.now, ttl)]
            case Delete(key) => e - {key}
            case Clear => map[]
            case RemoveExpired(key) => e - {key}
            case UpdateAccessTime(key) => if key in e then e[key := e[key].(accessedAt := s.now)] else e
            case _ => e
  {
    StepKeepsInv(codec, s, step);
    match step
    case Put(key, data, ttl) => PutEntries(codec, s.files, key, data, ttl, s.now);
    case Delete(key) => RemoveEntries(codec, s.files, key);
    case RemoveExpired(key) => RemoveEntries(codec, s.files, key);
    case UpdateAccessTime(key) => TouchEntries(codec, s.files, key, s.now);
    case _ =>
  }

  ghost predicate NoPut(steps: seq<Step>, i: nat, j: nat, key: string) {
    forall n :: i <= n < j <= |steps| ==> !(steps[n].Put? && steps[n].key == key)
  }

  /** A key that is gone stays gone until it is stored again: no late access-time update revives it. */
  lemma {:induction false} NoRevival(codec: Codec, states: seq<State>, steps: seq<Step>, i: nat, j: nat, key: string)
    requires Run(codec, states, steps) && i <= j < |states|
    requires !IsMeta(key) && key !in states[i].files && NoPut(steps, i, j, key)
    ensures key !in states[j].files && MetaPath(key) !in states[j].files
  {
    if i < j {
      NoRevival(codec, states, steps, i, j - 1, key);
      Reachable(codec, states, steps, j - 1);
      StepEntries(codec, states[j - 1], steps[j - 1]);
      assert key in states[j].files ==> key in Entries(codec, states[j].files);
    }
    FilesInPairs(codec, states, steps, j, key);
  }

  /** The key is absent or its entry has expired. */
  ghost predicate Dead(codec: Codec, s: State, key: string)
    requires Layout(codec, s.files)
  {
    var e := Entries(codec, s.files);
    key in e ==> e[key].Stale(s.now)
  }

  predicate Stores(step: Step, key: string) {
    step.Put? && step.key == key
  }

  predicate Removes(step: Step, key: string) {
    step.Clear? || ((step.Delete? || step.RemoveExpired?) && step.key == key)
  }

  /** Step `n` stored the key, and no step after it and before state `j` stored or removed it. */
  ghost predicate StoredAt(steps: seq<Step>, n: nat, j: nat, key: string) {
    && n < j <= |steps| && Stores(steps[n], key)
    && forall m :: n < m < j ==> !Stores(steps[m], key) && !Removes(steps[m], key)
  }

  /** The entry is what step `n` stored, but for its access time. */
  ghost predicate StoredBy(e: Entry, s: State, step: Step) {
    step.Put? && e.data == step.data && e.createdAt == s.now && e.ttl == step.ttl
  }

  /** The key is there exactly if some step stored it and none removed it since, and then as that step stored it. */
  ghost predicate Present(e: map<string, Entry>, states: seq<State>, steps: seq<Step>, j: nat, key: string)
    requires |states| == |steps| + 1
  {
    && (key in e <==> exists n: nat :: StoredAt(steps, n, j, key))
    && (forall n: nat :: StoredAt(steps, n, j, key) ==> StoredBy(e[key], states[n], steps[n]))
  }

  lemma PresentAfterStore(e: map<string, Entry>, states: seq<State>, steps: seq<Step>, i: nat, j: nat, key: string)
    requires |states| == |steps| + 1 && i < |steps| && j == i + 1 && Stores(steps[i], key)
    requires key in e && StoredBy(e[key], states[i], steps[i])
    ensures Present(e, states, steps, j, key)
  {
    assert StoredAt(steps, i, j, key);
    assert forall n: nat :: StoredAt(steps, n, j, key) ==> n == i;
  }

  lemma PresentAfterRemoval(e: map<string, Entry>, states: seq<State>, steps: seq<Step>, i: nat, j: nat, key: string)
    requires |states| == |steps| + 1 && i < |steps| && j == i + 1 && Removes(steps[i], key) && key !in e
    ensures Present(e, states, steps, j, key)
  {
    assert forall n: nat :: StoredAt(steps, n, j, key) ==> n == i;
  }

  lemma PresentStill(e: map<string, Entry>, e': map<string, Entry>, states: seq<State>, steps: seq<Step>, i: nat, j: nat, key: string)
    requires |states| == |steps| + 1 && i < |steps| && j == i + 1 && !Stores(steps[i], key) && !Removes(steps[i], key)
    requires Present(e, states, steps, i, key)
    requires (key in e <==> key in e') && (key in e ==> e'[key] == e[key].(accessedAt := e'[key].accessedAt))
    ensures Present(e', states, steps, j, key)
  {
    forall n: nat
      ensures StoredAt(steps, n, j, key) <==> StoredAt(steps, n, i, key)
    {
    }
  }

  /** In every interleaving, exactly the keys stored and not removed since are there, with the bytes last stored. */
  lemma {:induction false} PresentIff(codec: Codec, states: seq<State>, steps: seq<Step>, j: nat, key: string)
    requires Run(codec, states, steps) && j < |states|
    ensures Inv(codec, states[j]) && Present(Entries(codec, states[j].files), states, steps, j, key)
  {
    if j > 0 {
      PresentIff(codec, states, steps, j - 1, key);
      PresentNext(codec, states, steps, j - 1, key);
    }
  }

  lemma EntryStored(codec: Codec, s: State, step: Step, key: string)
    requires codec.RoundTrips() && Inv(codec, s) && Enabled(codec, s, step) && Stores(step, key)
    ensures var s' := Next(codec, s, step);
            Inv(codec, s') && key in Entries(codec, s'.files) && StoredBy(Entries(codec, s'.files)[key], s, step)
  {
    StepEntries(codec, s, step);
  }

  lemma EntryRemoved(codec: Codec, s: State, step: Step, key: string)
    requires codec.RoundTrips() && Inv(codec, s) && Enabled(codec, s, step) && Removes(step, key)
    ensures var s' := Next(codec, s, step);
            Inv(codec, s') && key !in Entries(codec, s'.files)
  {
    StepEntries(codec, s, step);
  }

  lemma PresentNext(codec: Codec, states: seq<State>, steps: seq<Step>, j: nat, key: string)
    requires codec.RoundTrips() && |states| == |steps| + 1 && j < |steps|
    requires Inv(codec, states[j]) && Takes(codec, states[j], steps[j], states[j + 1])
    requires Present(Entries(codec, states[j].files), states, steps, j, key)
    ensures Inv(codec, states[j + 1]) && Present(Entries(codec, states[j + 1].files), states, steps, j + 1, key)
  {
    if Stores(steps[j], key) {
      EntryStored(codec, states[j], steps[j], key);
      PresentAfterStore(Entries(codec, states[j + 1].files), states, steps, j, j + 1, key);
    } else if Removes(steps[j], key) {
      EntryRemoved(codec, states[j], steps[j], key);
      PresentAfterRemoval(Entries(codec, states[j + 1].files), states, steps, j, j + 1, key);
    } else {
      EntryKept(codec, states[j], steps[j], key);
      PresentStill(Entries(codec, states[j].files), Entries(codec, states[j + 1].files), states, steps, j, j + 1, key);
    }
  }

  /** A step that neither stores nor removes the key changes at most its access time. */
  lemma EntryKept(codec: Codec, s: State, step: Step, key: string)
    requires codec.RoundTrips() && Inv(codec, s) && Enabled(codec, s, step) && !Stores(step, key) && !Removes(step, key)
    ensures Inv(codec, Next(codec, s, step))
    ensures var e, e' := Entries(codec, s.files), Entries(codec, Next(codec, s, step).files);
            (key in e <==> key in e') && (key in e ==> e'[key] == e[key].(accessedAt := e'[key].accessedAt))
  {
    StepEntries(codec, s, step);
  }

  lemma {:induction false} TimePasses(codec: Codec, states: seq<State>, steps: seq<Step>, i: nat, j: nat)
    requires Run(codec, states, steps) && i <= j < |states|
    ensures states[i].now <= states[j].now
  {
    if i < j {
      TimePasses(codec, states, steps, i, j - 1);
      assert Takes(codec, states[j - 1], steps[j - 1], states[j]);
    }
  }

  lemma ExpiredStaysDead(codec: Codec, states: seq<State>, steps: seq<Step>, i: nat, j: nat, n: nat, key: string)
    requires Run(codec, states, steps) && i < j < |states| && steps[i] == GetExpired(key)
    requires n <= i && StoredAt(steps, n, j, key)
    ensures Outlived(states[n].now, steps[n].ttl, states[j].now)
  {
    assert StoredAt(steps, n, i, key);
    PresentIff(codec, states, steps, i, key);
    TimePasses(codec, states, steps, i, j);
    assert Takes(codec, states[i], steps[i], states[i + 1]);
    assert EntryOk(codec, states[i].files, key);
  }

  /**
   When the removal of an expired `Get` comes late, it deletes a live entry exactly if a step after that `Get` stored
   the key, nothing has stored or removed it since, and what was stored has not expired in turn.
   */
  lemma LateRemovalLosesIff(codec: Codec, states: seq<State>, steps: seq<Step>, i: nat, j: nat, key: string)
    requires Run(codec, states, steps) && i < j < |steps| && steps[i] == GetExpired(key) && steps[j] == RemoveExpired(key)
    ensures Inv(codec, states[j]) && key !in states[j + 1].files
    ensures !Dead(codec, states[j], key) <==>
            exists n :: i < n && StoredAt(steps, n, j, key) && !Outlived(states[n].now, steps[n].ttl, states[j].now)
  {
    PresentIff(codec, states, steps, j, key);
    assert Takes(codec, states[j], steps[j], states[j + 1]);
    forall n: nat | n <= i && StoredAt(steps, n, j, key)
      ensures Outlived(states[n].now, steps[n].ttl, states[j].now)
    {
      ExpiredStaysDead(codec, states, steps, i, j, n, key);
    }
  }

  lemma FreshPut(codec: Codec, s: State, key: string, data: Bytes)
    requires codec.RoundTrips() && Inv(codec, s) && Storable(s.files, key)
    ensures var after := Next(codec, s, Put(key, data, 1));
            && Inv(codec, after) && !Dead(codec, after, key)
            && LoadMeta(codec, after.files, key) == Some(CacheMetadata(key, |data|, s.now, s.now, 1))
  {
    PutEntries(codec, s.files, key, data, 1, s.now);
  }

  /** One more step at the end of a run. */
  lemma Extend(codec: Codec, states: seq<State>, steps: seq<Step>, step: Step) returns (states': seq<State>)
    requires Run(codec, states, steps) && Enabled(codec, states[|steps|], step)
    ensures Run(codec, states', steps + [step])
    ensures states'[..|states|] == states && states'[|states|] == Next(codec, states[|steps|], step)
  {
    states' := states + [Next(codec, states[|steps|], step)];
    forall i {:trigger (steps + [step])[i]} | 0 <= i < |steps + [step]|
      ensures Takes(codec, states'[i], (steps + [step])[i], states'[i + 1])
    {
      assert i < |steps| ==> (steps + [step])[i] == steps[i];
    }
  }

  lemma ExpiredGetRun(codec: Codec, key: string, data: Bytes) returns (states: seq<State>, steps: seq<Step>)
    requires codec.RoundTrips() && !IsMeta(key)
    ensures Run(codec, states, steps) && |steps| == 3
    ensures steps[2] == GetExpired(key) && key in states[3].removals && Storable(states[3].files, key)
  {
    LongerPaths(key);
    states := [State(map[], multiset{}, multiset{}, 0)];
    FreshPut(codec, states[0], key, data);
    states := Extend(codec, states, [], Put(key, data, 1));
    states := Extend(codec, states, [Put(key, data, 1)], Wait(2));
    states := Extend(codec, states, [Put(key, data, 1), Wait(2)], GetExpired(key));
    steps := [Put(key, data, 1), Wait(2), GetExpired(key)];
  }

  /** Without that proviso a delayed removal can delete a fresh entry: an expired `Get` overtaken by a `Put`. */
  lemma LateRemovalCanLoseFreshEntry(codec: Codec, key: string, data: Bytes)
    returns (states: seq<State>, steps: seq<Step>)
    requires codec.RoundTrips() && !IsMeta(key)
    ensures Run(codec, states, steps) && |steps| == 5
    ensures steps[2] == GetExpired(key) && steps[4] == RemoveExpired(key)
    ensures Inv(codec, states[4]) && !Dead(codec, states[4], key)
    ensures key !in states[5].files
  {
    states, steps := ExpiredGetRun(codec, key, data);
    Reachable(codec, states, steps, 3);
    FreshPut(codec, states[3], key, data);
    states := Extend(codec, states, steps, Put(key, data, 1));
    steps := steps + [Put(key, data, 1)];
    states := Extend(codec, states, steps, RemoveExpired(key));
    steps := steps + [RemoveExpired(key)];
  }
}
