/**
 A `Put` of the cache manager and a pass of the periodic evictor hold different locks (cache/manager.go,
 cache/eviction.go), so the locked sections they are made of interleave with each other and with those of other
 callers of the backend. The size bound of `Put` holds over every such interleaving.
 */
module CacheSections {
  import opened Common
  import opened CacheTypes
  import opened CacheFiles
  import opened CacheEviction
  import LruHeap
  import CacheManager

  /**
   Where one eviction by policy stands. It has read a cache size of `size` and wants `required` bytes; `clean` says that
   nothing was written since then.
   */
  datatype Pass =
    | Resting
    | Sized
    | Collecting(todo: set<string>, items: seq<CacheMetadata>)
    | Deleting(chosen: seq<CacheMetadata>, done: nat)
    | Ended

  datatype Eviction = Eviction(pass: Pass, size: nat, required: int, clean: bool)

  /** Where the `Put` that holds the manager's lock stands. */
  datatype Putting =
    | Idle
    | Begun(key: string, data: Bytes, ttl: int)
    | MakingRoom(key: string, data: Bytes, ttl: int, eviction: Eviction)
    | Ready(key: string, data: Bytes, ttl: int)

  /** `last` is the length of the data stored last; `doomed` are keys the evictor found expired and has yet to delete. */
  datatype State = State(files: Files, now: int, put: Putting, evictor: Eviction, doomed: set<string>, last: nat)

  /** One section of an eviction by policy: directory scan, one metadata read, selection, one deletion, and the end. */
  datatype Section = Scan(found: set<string>) | Look(key: string) | Select(chosen: seq<CacheMetadata>) | DeleteNext | End

  datatype Step =
    | PutBegin(key: string, data: Bytes, ttl: int)
    | PutSize
    | PutEvict(section: Section)
    | PutWrite
    | EvictorSize
    | EvictorEvict(section: Section)
    | EvictorRest
    | EvictorFind(key: string)
    | EvictorExpire(key: string)
    | Remove(key: string)
    | Clear
    | Touch(key: string)
    | Wait(time: nat)

  // ---- Sections ----

  ghost predicate CanEvict(files: Files, e: Eviction, section: Section) {
    match section
    case Scan(found) => e.pass.Sized? && (forall k :: k in found ==> Plain(k)) && (e.clean ==> ScanKeys(files) <= found)
    case Look(key) => e.pass.Collecting? && key in e.pass.todo
    case Select(chosen) => e.pass.Collecting? && e.pass.todo == {} && LruHeap.LruSelection(e.pass.items, chosen, e.required)
    case DeleteNext => e.pass.Deleting? && e.pass.done < |e.pass.chosen|
    case End => e.pass.Deleting? && e.pass.done == |e.pass.chosen|
  }

  ghost function AfterEvict(codec: Codec, files: Files, e: Eviction, section: Section): Eviction
    requires CanEvict(files, e, section)
  {
    match section
    case Scan(found) => e.(pass := Collecting(found, []))
    case Look(key) =>
      var found := LoadMeta(codec, files, key);
      e.(pass := Collecting(e.pass.todo - {key}, if found.Some? then e.pass.items + [found.value] else e.pass.items))
    case Select(chosen) => e.(pass := Deleting(chosen, 0))
    case DeleteNext => e.(pass := Deleting(e.pass.chosen, e.pass.done + 1))
    case End => e.(pass := Ended)
  }

  ghost function FilesAfterEvict(files: Files, e: Eviction, section: Section): Files
    requires CanEvict(files, e, section)
  {
    if section.DeleteNext? then RemoveFiles(files, e.pass.chosen[e.pass.done].key) else files
  }

  ghost predicate Enabled(codec: Codec, maxSize: int, s: State, step: Step) {
    match step
    case PutBegin(key, _, _) => s.put.Idle? && Storable(s.files, key)
    case PutSize => s.put.Begun?
    case PutEvict(section) => s.put.MakingRoom? && CanEvict(s.files, s.put.eviction, section)
    case PutWrite => s.put.Ready? || (s.put.MakingRoom? && s.put.eviction.pass.Ended?)
    case EvictorSize => s.evictor.pass.Resting?
    case EvictorEvict(section) => CanEvict(s.files, s.evictor, section)
    case EvictorRest => s.evictor.pass.Ended?
    case EvictorFind(key) => Plain(key) && LoadMeta(codec, s.files, key).Some? && Expired(LoadMeta(codec, s.files, key).value, s.now)
    case EvictorExpire(key) => key in s.doomed
    case Remove(key) => !IsMeta(key)
    case _ => true
  }

  ghost function Next(codec: Codec, maxSize: int, s: State, step: Step): State
    requires Enabled(codec, maxSize, s, step)
  {
    match step
    case PutBegin(key, data, ttl) => s.(put := Begun(key, data, ttl))
    case PutSize =>
      var size := TotalBytes(s.files);
      s.(put := if maxSize > 0 && size + |s.put.data| > maxSize
                then MakingRoom(s.put.key, s.put.data, s.put.ttl, Eviction(Sized, size, size + |s.put.data| - maxSize, true))
                else Ready(s.put.key, s.put.data, s.put.ttl))
    case PutEvict(section) =>
      s.(put := s.put.(eviction := AfterEvict(codec, s.files, s.put.eviction, section)),
         files := FilesAfterEvict(s.files, s.put.eviction, section))
    case PutWrite =>
      s.(put := Idle, files := PutFiles(codec, s.files, s.put.key, s.put.data, s.put.ttl, s.now),
         evictor := s.evictor.(clean := false), last := |s.put.data|)
    case EvictorSize =>
      var size := TotalBytes(s.files);
      if maxSize > 0 && size <= maxSize then s
      else s.(evictor := Eviction(Sized, size, size - CacheManager.NinetyPercent(maxSize), true))
    case EvictorEvict(section) =>
      s.(evictor := AfterEvict(codec, s.files, s.evictor, section), files := FilesAfterEvict(s.files, s.evictor, section))
    case EvictorRest => s.(evictor := s.evictor.(pass := Resting))
    case EvictorFind(key) => s.(doomed := s.doomed + {key})
    case EvictorExpire(key) => s.(doomed := s.doomed - {key}, files := RemoveFiles(s.files, key))
    case Remove(key) => s.(files := RemoveFiles(s.files, key))
    case Clear => s.(files := map[])
    case Touch(key) => s.(files := TouchFiles(codec, s.files, key, s.now))
    case Wait(time) => s.(now := s.now + time)
  }

  ghost predicate Takes(codec: Codec, maxSize: int, s: State, step: Step, s': State) {
    Enabled(codec, maxSize, s, step) && s' == Next(codec, maxSize, s, step)
  }

  ghost predicate Run(codec: Codec, maxSize: int, states: seq<State>, steps: seq<Step>) {
    && codec.RoundTrips() && |states| == |steps| + 1
    && states[0].files == map[] && states[0].put == Idle && states[0].evictor.pass == Resting && states[0].doomed == {}
    && forall i {:trigger steps[i]} :: 0 <= i < |steps| ==> Takes(codec, maxSize, states[i], steps[i], states[i + 1])
  }

  /** An evictor at rest that finds the cache above its limit sets out to bring it to ninety percent. */
  lemma EvictorBegins(codec: Codec, maxSize: int, s: State)
    requires s.evictor.pass.Resting? && TotalBytes(s.files) > maxSize > 0
    ensures Enabled(codec, maxSize, s, EvictorSize)
    ensures var e := Next(codec, maxSize, s, EvictorSize).evictor;
            && e.pass.Sized? && e.clean && e.size == TotalBytes(s.files)
            && 10 * (e.size - e.required) <= 9 * maxSize < 10 * (e.size - e.required + 1)
  {
  }

  /** Nothing but its own progress holds back a `Put`, an evictor or another caller of the backend. */
  lemma SectionsAreOpen(codec: Codec, maxSize: int, s: State, key: string, data: Bytes, ttl: int, time: nat)
    ensures s.put.Idle? && !IsMeta(key) && TempPath(key) !in s.files ==> Enabled(codec, maxSize, s, PutBegin(key, data, ttl))
    ensures s.put.Begun? ==> Enabled(codec, maxSize, s, PutSize)
    ensures s.put.Ready? ==> Enabled(codec, maxSize, s, PutWrite)
    ensures s.evictor.pass.Resting? ==> Enabled(codec, maxSize, s, EvictorSize)
    ensures !IsMeta(key) ==> Enabled(codec, maxSize, s, Remove(key))
    ensures Enabled(codec, maxSize, s, Clear) && Enabled(codec, maxSize, s, Touch(key)) && Enabled(codec, maxSize, s, Wait(time))
  {
  }

  /** One section of an eviction after the other can be taken: scan, each metadata read, each deletion, and the end. */
  lemma EvictionGoesOn(files: Files, e: Eviction, key: string)
    ensures e.pass.Sized? ==> CanEvict(files, e, Scan(ScanKeys(files)))
    ensures e.pass.Collecting? && key in e.pass.todo ==> CanEvict(files, e, Look(key))
    ensures e.pass.Deleting? && e.pass.done <= |e.pass.chosen| ==> CanEvict(files, e, DeleteNext) || CanEvict(files, e, End)
  {
  }

  // ---- What an eviction knows ----

  /** The recorded sizes of those entries that are no longer there. */
  ghost function Gone(files: Files, items: seq<CacheMetadata>): int {
    if items == [] then 0 else
    Gone(files, items[..|items| - 1]) + if items[|items| - 1].key in files then 0 else items[|items| - 1].size
  }

  /** Entries still there have the recorded size. */
  ghost predicate Faithful(files: Files, m: CacheMetadata) {
    Plain(m.key) && m.size >= 0 && (m.key in files ==> m.size == |files[m.key]|)
  }

  ghost predicate AllFaithful(files: Files, items: seq<CacheMetadata>) {
    DistinctKeys(items) && forall i :: 0 <= i < |items| ==> Faithful(files, items[i])
  }

  /** With nothing written since it began, an eviction accounts for every byte it has seen go. */
  ghost predicate OnTrack(files: Files, e: Eviction) {
    e.clean ==>
      match e.pass
      case Resting => true
      case Sized => TotalBytes(files) <= e.size
      case Collecting(todo, items) =>
        && AllFaithful(files, items) && (forall k :: k in todo ==> Plain(k) && k !in KeysOf(items))
        && ScanKeys(files) <= todo + KeysOf(items)
        && TotalBytes(files) + Gone(files, items) <= e.size
      case Deleting(chosen, done) =>
        && AllFaithful(files, chosen) && done <= |chosen| && (forall i :: 0 <= i < done ==> chosen[i].key !in files)
        && (LruHeap.TotalSize(chosen) >= e.required || ScanKeys(files) <= KeysOf(chosen))
        && TotalBytes(files) + Gone(files, chosen) <= e.size
      case Ended => MadeRoom(files, e)
  }

  ghost predicate MadeRoom(files: Files, e: Eviction) {
    TotalBytes(files) <= e.size - e.required || ScanKeys(files) == {}
  }

  /** No file is new or has changed its data, and `key` may be the only one that went. */
  ghost predicate LosesAtMost(codec: Codec, files: Files, after: Files, key: string) {
    && Layout(codec, files) && Layout(codec, after)
    && KeySet(after) <= KeySet(files) && KeySet(files) - {key} <= KeySet(after)
    && forall k :: k in KeySet(after) ==> after[k] == files[k]
  }

  lemma LossInBytes(codec: Codec, files: Files, after: Files, key: string)
    requires LosesAtMost(codec, files, after, key)
    ensures TotalBytes(after) == TotalBytes(files) - if key in KeySet(files) && key !in after then |files[key]| else 0
  {
    SumAgree(files, after, KeySet(after));
    if key in KeySet(files) && key !in after {
      SumRemove(files, KeySet(files), key);
      assert KeySet(after) == KeySet(files) - {key};
    } else {
      assert KeySet(after) == KeySet(files);
    }
  }

  lemma PlainIsKey(files: Files, key: string)
    requires Plain(key)
    ensures key in files <==> key in KeySet(files)
  {
  }

  /** What goes from the files goes to the account. */
  lemma {:induction false} GoneAfterLoss(codec: Codec, files: Files, after: Files, key: string, items: seq<CacheMetadata>)
    requires LosesAtMost(codec, files, after, key) && AllFaithful(files, items)
    ensures AllFaithful(after, items)
    ensures Gone(after, items) <= Gone(files, items) + if key in KeySet(files) && key !in after then |files[key]| else 0
    ensures key !in KeysOf(items) ==> Gone(after, items) == Gone(files, items)
  {
    if items != [] {
      var init, last := items[..|items| - 1], items[|items| - 1];
      GoneAfterLoss(codec, files, after, key, init);
      assert Faithful(files, last);
      PlainIsKey(files, last.key);
      PlainIsKey(after, last.key);
      assert last in items;
      forall m | m in init
        ensures m in items && m.key != last.key
      {
      }
    }
  }

  lemma TrackAfterLoss(codec: Codec, files: Files, after: Files, key: string, e: Eviction)
    requires LosesAtMost(codec, files, after, key) && OnTrack(files, e)
    ensures OnTrack(after, e)
  {
    LossInBytes(codec, files, after, key);
    assert ScanKeys(after) <= ScanKeys(files) by {
      forall k | k in ScanKeys(after)
        ensures k in ScanKeys(files)
      {
        PlainIsKey(after, k);
      }
    }
    if e.clean && e.pass.Collecting? {
      GoneAfterLoss(codec, files, after, key, e.pass.items);
    }
    if e.clean && e.pass.Deleting? {
      GoneAfterLoss(codec, files, after, key, e.pass.chosen);
      forall i | 0 <= i < e.pass.done
        ensures e.pass.chosen[i].key !in after
      {
        PlainIsKey(after, e.pass.chosen[i].key);
      }
    }
  }

  lemma RemovalLoses(codec: Codec, files: Files, key: string)
    requires Layout(codec, files) && !IsMeta(key)
    ensures LosesAtMost(codec, files, RemoveFiles(files, key), key)
  {
    RemoveEntries(codec, files, key);
    SuffixPaths(key);
  }

  lemma TouchLoses(codec: Codec, files: Files, key: string, now: int)
    requires codec.RoundTrips() && Layout(codec, files)
    ensures LosesAtMost(codec, files, TouchFiles(codec, files, key, now), key)
    ensures KeySet(TouchFiles(codec, files, key, now)) == KeySet(files)
  {
    TouchEntries(codec, files, key, now);
    SuffixPaths(key);
  }

  // ---- The sections of one eviction ----

  lemma {:induction false} GoneWithout(files: Files, items: seq<CacheMetadata>, i: nat)
    requires i < |items|
    ensures Gone(files, items) == Gone(files, items[..i] + items[i + 1..]) + if items[i].key in files then 0 else items[i].size
  {
    var n := |items| - 1;
    if i == n {
      assert items[..i] + items[i + 1..] == items[..n];
    } else {
      GoneWithout(files, items[..n], i);
      DropBoth(items, i);
    }
  }

  lemma DropBoth(items: seq<CacheMetadata>, i: nat)
    requires i + 1 < |items|
    ensures var n, rest := |items| - 1, items[..i] + items[i + 1..];
            |rest| == n && rest[..n - 1] == items[..n][..i] + items[..n][i + 1..] && rest[n - 1] == items[n]
  {
  }

  /** Taking the last element of a part out of the whole. */
  lemma WithoutLast(part: seq<CacheMetadata>, items: seq<CacheMetadata>) returns (i: nat, rest: seq<CacheMetadata>)
    requires part != [] && multiset(part) <= multiset(items)
    ensures i < |items| && items[i] == part[|part| - 1] && rest == items[..i] + items[i + 1..]
    ensures multiset(part[..|part| - 1]) <= multiset(rest) && forall m :: m in rest ==> m in items
  {
    var n := |part| - 1;
    assert part[n] in multiset(part) && part[n] in multiset(items);
    i :| 0 <= i < |items| && items[i] == part[n];
    rest := items[..i] + items[i + 1..];
    WithoutOne(items, i);
    WithoutOne(part, n);
    assert part[..n] + part[n + 1..] == part[..n];
    CancelOne(multiset(part[..n]), multiset(rest), part[n]);
    forall m | m in rest
      ensures m in items
    {
      assert m in multiset(rest) && m in multiset(items);
    }
  }

  lemma CancelOne(a: multiset<CacheMetadata>, b: multiset<CacheMetadata>, m: CacheMetadata)
    requires a + multiset{m} <= b + multiset{m}
    ensures a <= b
  {
    forall x
      ensures a[x] <= b[x]
    {
      assert (a + multiset{m})[x] <= (b + multiset{m})[x];
    }
  }

  lemma WithoutOne(items: seq<CacheMetadata>, i: nat)
    requires i < |items|
    ensures multiset(items) == multiset(items[..i] + items[i + 1..]) + multiset{items[i]}
  {
    assert items == items[..i] + [items[i]] + items[i + 1..];
  }

  lemma {:induction false} GoneOfPart(files: Files, part: seq<CacheMetadata>, items: seq<CacheMetadata>)
    requires multiset(part) <= multiset(items) && forall m :: m in items ==> m.size >= 0
    ensures Gone(files, part) <= Gone(files, items)
    decreases |part|
  {
    if part == [] {
      GoneIsPositive(files, items);
    } else {
      var i, rest := WithoutLast(part, items);
      GoneWithout(files, items, i);
      GoneOfPart(files, part[..|part| - 1], rest);
    }
  }

  lemma {:induction false} GoneIsPositive(files: Files, items: seq<CacheMetadata>)
    requires forall m :: m in items ==> m.size >= 0
    ensures Gone(files, items) >= 0
  {
    if items != [] {
      assert items[|items| - 1] in items;
      GoneIsPositive(files, items[..|items| - 1]);
    }
  }

  lemma {:induction false} AllGone(files: Files, items: seq<CacheMetadata>)
    requires forall i :: 0 <= i < |items| ==> items[i].key !in files
    ensures Gone(files, items) == LruHeap.TotalSize(items)
  {
    if items != [] {
      AllGone(files, items[..|items| - 1]);
    }
  }

  lemma PartIsFaithful(files: Files, part: seq<CacheMetadata>, items: seq<CacheMetadata>)
    requires AllFaithful(files, items) && multiset(part) <= multiset(items)
    ensures AllFaithful(files, part)
  {
    forall m | m in part
      ensures m in items && Faithful(files, m)
    {
      assert m in multiset(part);
      assert m in multiset(items);
    }
    forall i, j | 0 <= i < j < |part|
      ensures part[i].key != part[j].key
    {
      assert part[i] in items && part[j] in items;
      if part[i].key == part[j].key {
        MultiplicityOfTwo(part, i, j);
        DistinctMultiplicity(items, part[i]);
      }
    }
  }

  lemma OneMoreItem(files: Files, items: seq<CacheMetadata>, m: CacheMetadata)
    requires AllFaithful(files, items) && Faithful(files, m) && m.key in files && m.key !in KeysOf(items)
    ensures AllFaithful(files, items + [m]) && KeysOf(items + [m]) == KeysOf(items) + {m.key}
    ensures Gone(files, items + [m]) == Gone(files, items)
  {
    assert (items + [m])[..|items|] == items;
    forall i | 0 <= i < |items|
      ensures items[i].key != m.key
    {
      assert items[i] in items;
    }
  }

  lemma LookKeepsTrack(codec: Codec, files: Files, e: Eviction, key: string)
    requires Layout(codec, files) && CanEvict(files, e, Look(key)) && OnTrack(files, e)
    ensures OnTrack(files, AfterEvict(codec, files, e, Look(key)))
  {
    MetaMeansData(codec, files, key);
    if e.clean && LoadMeta(codec, files, key).Some? {
      assert EntryOk(codec, files, key);
      OneMoreItem(files, e.pass.items, LoadMeta(codec, files, key).value);
    }
  }

  lemma SelectKeepsTrack(codec: Codec, files: Files, e: Eviction, chosen: seq<CacheMetadata>)
    requires CanEvict(files, e, Select(chosen)) && OnTrack(files, e)
    ensures OnTrack(files, AfterEvict(codec, files, e, Select(chosen)))
  {
    if e.clean {
      var items := e.pass.items;
      PartIsFaithful(files, chosen, items);
      forall m | m in items
        ensures m.size >= 0
      {
        assert Faithful(files, m);
      }
      GoneOfPart(files, chosen, items);
      if multiset(chosen) == multiset(items) {
        SameElementsSameKeys(items, chosen);
      }
    }
  }

  lemma DeleteKeepsTrack(codec: Codec, files: Files, e: Eviction)
    requires Layout(codec, files) && CanEvict(files, e, DeleteNext) && OnTrack(files, e) && e.clean
    ensures OnTrack(FilesAfterEvict(files, e, DeleteNext), AfterEvict(codec, files, e, DeleteNext))
  {
    var key := e.pass.chosen[e.pass.done].key;
    assert Faithful(files, e.pass.chosen[e.pass.done]);
    RemovalLoses(codec, files, key);
    TrackAfterLoss(codec, files, RemoveFiles(files, key), key, e);
  }

  lemma EndKeepsTrack(codec: Codec, files: Files, e: Eviction)
    requires CanEvict(files, e, End) && OnTrack(files, e)
    ensures OnTrack(files, AfterEvict(codec, files, e, End))
  {
    if e.clean {
      AllGone(files, e.pass.chosen);
      if LruHeap.TotalSize(e.pass.chosen) < e.required {
        forall k | k in KeysOf(e.pass.chosen)
          ensures k !in files
        {
          var m :| m in e.pass.chosen && m.key == k;
        }
      }
    }
  }

  lemma SectionKeepsTrack(codec: Codec, files: Files, e: Eviction, section: Section)
    requires Layout(codec, files) && CanEvict(files, e, section) && OnTrack(files, e)
    ensures OnTrack(FilesAfterEvict(files, e, section), AfterEvict(codec, files, e, section))
  {
    match section
    case Scan(_) =>
    case Look(key) => LookKeepsTrack(codec, files, e, key);
    case Select(chosen) => SelectKeepsTrack(codec, files, e, chosen);
    case DeleteNext =>
      if e.clean {
        DeleteKeepsTrack(codec, files, e);
      }
    case End => EndKeepsTrack(codec, files, e);
  }

  // ---- Whole runs ----

  ghost predicate PutOk(maxSize: int, files: Files, put: Putting) {
    match put
    case Idle => true
    case Begun(key, _, _) => Storable(files, key)
    case MakingRoom(key, data, _, e) =>
      && Storable(files, key) && OnTrack(files, e) && e.clean && !e.pass.Resting?
      && maxSize > 0 && e.required == e.size + |data| - maxSize
    case Ready(key, data, _) => Storable(files, key) && (maxSize > 0 ==> TotalBytes(files) + |data| <= maxSize)
  }

  ghost predicate EvictorOk(maxSize: int, files: Files, e: Eviction) {
    && OnTrack(files, e)
    && (!e.pass.Resting? ==> e.required == e.size - CacheManager.NinetyPercent(maxSize))
    && (e.pass.Deleting? ==> forall i :: 0 <= i < |e.pass.chosen| ==> !IsMeta(e.pass.chosen[i].key))
    && (e.pass.Collecting? ==> forall i :: 0 <= i < |e.pass.items| ==> !IsMeta(e.pass.items[i].key))
  }

  ghost predicate SizeOk(maxSize: int, files: Files, last: nat) {
    maxSize > 0 ==> TotalBytes(files) <= maxSize || ScanBytes(files) <= last
  }

  /** The bytes of the keys the directory scan reports. */
  ghost function ScanBytes(files: Files): nat {
    SumLengths(files, ScanKeys(files))
  }

  ghost predicate Inv(codec: Codec, maxSize: int, s: State) {
    && Layout(codec, s.files)
    && PutOk(maxSize, s.files, s.put) && EvictorOk(maxSize, s.files, s.evictor) && SizeOk(maxSize, s.files, s.last)
    && forall k :: k in s.doomed ==> !IsMeta(k)
  }

  lemma ScannedAfterLoss(codec: Codec, files: Files, after: Files, key: string)
    requires LosesAtMost(codec, files, after, key)
    ensures ScanBytes(after) <= ScanBytes(files)
  {
    forall k | k in ScanKeys(after)
      ensures k in ScanKeys(files) && after[k] == files[k]
    {
      PlainIsKey(after, k);
    }
    SumAgree(files, after, ScanKeys(after));
    SumSplit(files, ScanKeys(files), ScanKeys(after));
  }

  lemma StorableAfterLoss(codec: Codec, files: Files, after: Files, key: string, stored: string)
    requires LosesAtMost(codec, files, after, key) && Storable(files, stored)
    ensures Storable(after, stored)
  {
    SuffixPaths(stored);
    assert TempPath(stored) in after ==> TempPath(stored) in KeySet(after);
  }

  lemma InvAfterLoss(codec: Codec, maxSize: int, s: State, after: Files, key: string)
    requires Inv(codec, maxSize, s) && LosesAtMost(codec, s.files, after, key)
    ensures Inv(codec, maxSize, s.(files := after))
  {
    LossInBytes(codec, s.files, after, key);
    ScannedAfterLoss(codec, s.files, after, key);
    TrackAfterLoss(codec, s.files, after, key, s.evictor);
    if !s.put.Idle? {
      StorableAfterLoss(codec, s.files, after, key, s.put.key);
    }
    if s.put.MakingRoom? {
      TrackAfterLoss(codec, s.files, after, key, s.put.eviction);
    }
  }

  lemma FileMeansKey(codec: Codec, files: Files, path: string)
    requires Layout(codec, files) && path in files
    ensures KeySet(files) != {}
  {
    assert Accounted(files, path);
    assert (if IsMeta(path) then KeyOf(path) else path) in KeySet(files);
  }

  lemma {:induction false} InvAfterClear(codec: Codec, maxSize: int, s: State)
    requires Inv(codec, maxSize, s)
    ensures Inv(codec, maxSize, s.(files := map[]))
    decreases KeySet(s.files)
  {
    if k :| k in KeySet(s.files) {
      RemovalLoses(codec, s.files, k);
      InvAfterLoss(codec, maxSize, s, RemoveFiles(s.files, k), k);
      InvAfterClear(codec, maxSize, s.(files := RemoveFiles(s.files, k)));
    } else {
      if path :| path in s.files {
        FileMeansKey(codec, s.files, path);
      }
      assert s.files == map[];
    }
  }

  lemma InvAfterRemoval(codec: Codec, maxSize: int, s: State, key: string)
    requires Inv(codec, maxSize, s) && !IsMeta(key)
    ensures Inv(codec, maxSize, s.(files := RemoveFiles(s.files, key)))
  {
    RemovalLoses(codec, s.files, key);
    InvAfterLoss(codec, maxSize, s, RemoveFiles(s.files, key), key);
  }

  lemma InvAfterTouch(codec: Codec, maxSize: int, s: State, key: string)
    requires codec.RoundTrips() && Inv(codec, maxSize, s)
    ensures Inv(codec, maxSize, s.(files := TouchFiles(codec, s.files, key, s.now)))
  {
    TouchLoses(codec, s.files, key, s.now);
    InvAfterLoss(codec, maxSize, s, TouchFiles(codec, s.files, key, s.now), key);
  }

  /** Storing into a cache of which the scan reports nothing makes it report at most the new data. */
  lemma OnlyOneScanned(codec: Codec, files: Files, key: string, data: Bytes, ttl: int, now: int)
    requires codec.RoundTrips() && Layout(codec, files) && Storable(files, key) && ScanKeys(files) == {}
    ensures ScanBytes(PutFiles(codec, files, key, data, ttl, now)) <= |data|
  {
    var after := PutFiles(codec, files, key, data, ttl, now);
    SuffixPaths(key);
    assert ScanKeys(after) <= {key} && after[key] == data;
    if key in ScanKeys(after) {
      SumRemove(after, ScanKeys(after), key);
      assert ScanKeys(after) - {key} == {};
    } else {
      assert ScanKeys(after) == {};
    }
  }

  /** A `Put` writes only once there is room, or once nothing that can be evicted is left. */
  lemma InvAfterWrite(codec: Codec, maxSize: int, s: State)
    requires codec.RoundTrips() && Inv(codec, maxSize, s) && Enabled(codec, maxSize, s, PutWrite)
    ensures Inv(codec, maxSize, Next(codec, maxSize, s, PutWrite))
  {
    CacheManager.PutOutcome(codec, s.files, s.put.key, s.put.data, s.put.ttl, s.now);
    if s.put.MakingRoom? && ScanKeys(s.files) == {} {
      OnlyOneScanned(codec, s.files, s.put.key, s.put.data, s.put.ttl, s.now);
    }
  }

  lemma InvAfterPutEvict(codec: Codec, maxSize: int, s: State, section: Section)
    requires Inv(codec, maxSize, s) && Enabled(codec, maxSize, s, PutEvict(section))
    ensures Inv(codec, maxSize, Next(codec, maxSize, s, PutEvict(section)))
  {
    var e := s.put.eviction;
    SectionKeepsTrack(codec, s.files, e, section);
    if section.DeleteNext? {
      assert Faithful(s.files, e.pass.chosen[e.pass.done]);
      InvAfterRemoval(codec, maxSize, s, e.pass.chosen[e.pass.done].key);
    }
  }

  lemma EvictorKeepsOk(codec: Codec, maxSize: int, files: Files, e: Eviction, section: Section)
    requires Layout(codec, files) && EvictorOk(maxSize, files, e) && CanEvict(files, e, section)
    ensures EvictorOk(maxSize, FilesAfterEvict(files, e, section), AfterEvict(codec, files, e, section))
  {
    SectionKeepsTrack(codec, files, e, section);
    match section
    case Look(key) =>
      MetaMeansData(codec, files, key);
      assert LoadMeta(codec, files, key).Some? ==> EntryOk(codec, files, key);
    case Select(chosen) =>
      forall i | 0 <= i < |chosen|
        ensures !IsMeta(chosen[i].key)
      {
        assert chosen[i] in multiset(chosen);
        assert chosen[i] in multiset(e.pass.items);
      }
    case _ =>
  }

  lemma InvAfterEvictorEvict(codec: Codec, maxSize: int, s: State, section: Section)
    requires Inv(codec, maxSize, s) && Enabled(codec, maxSize, s, EvictorEvict(section))
    ensures Inv(codec, maxSize, Next(codec, maxSize, s, EvictorEvict(section)))
  {
    EvictorKeepsOk(codec, maxSize, s.files, s.evictor, section);
    if section.DeleteNext? {
      InvAfterRemoval(codec, maxSize, s, s.evictor.pass.chosen[s.evictor.pass.done].key);
    }
  }

  lemma StepKeepsInv(codec: Codec, maxSize: int, s: State, step: Step)
    requires codec.RoundTrips() && Inv(codec, maxSize, s) && Enabled(codec, maxSize, s, step)
    ensures Inv(codec, maxSize, Next(codec, maxSize, s, step))
  {
    match step
    case PutEvict(section) => InvAfterPutEvict(codec, maxSize, s, section);
    case PutWrite => InvAfterWrite(codec, maxSize, s);
    case EvictorEvict(section) => InvAfterEvictorEvict(codec, maxSize, s, section);
    case EvictorExpire(key) => InvAfterRemoval(codec, maxSize, s, key);
    case Remove(key) => InvAfterRemoval(codec, maxSize, s, key);
    case Clear => InvAfterClear(codec, maxSize, s);
    case Touch(key) => InvAfterTouch(codec, maxSize, s, key);
    case _ =>
  }

  lemma {:induction false} Reachable(codec: Codec, maxSize: int, states: seq<State>, steps: seq<Step>, i: nat)
    requires Run(codec, maxSize, states, steps) && i < |states|
    ensures Inv(codec, maxSize, states[i])
  {
    if i > 0 {
      Reachable(codec, maxSize, states, steps, i - 1);
      StepKeepsInv(codec, maxSize, states[i - 1], steps[i - 1]);
    }
  }

  /**
   Over every interleaving of the sections of `Put`, the evictor and other callers, the cache holds at most its limit, or
   at most as many bytes as were stored last beside those of keys that eviction cannot reach.
   */
  lemma AlwaysWithinLimit(codec: Codec, maxSize: int, states: seq<State>, steps: seq<Step>, i: nat)
    requires Run(codec, maxSize, states, steps) && i < |states| && maxSize > 0
    ensures TotalBytes(states[i].files) <= maxSize || TotalBytes(states[i].files) <= states[i].last + HiddenBytes(states[i].files)
  {
    Reachable(codec, maxSize, states, steps, i);
    HiddenAndScannable(states[i].files);
  }

  /**
   If no `Put` wrote meanwhile, an evictor pass that began above the limit ends at ninety percent of it or less exactly if
   the keys it cannot reach hold no more than that.
   */
  lemma UndisturbedPassShrinks(codec: Codec, maxSize: int, states: seq<State>, steps: seq<Step>, i: nat)
    requires Run(codec, maxSize, states, steps) && i < |states| && maxSize > 0
    requires states[i].evictor.pass.Ended? && states[i].evictor.clean
    ensures 10 * TotalBytes(states[i].files) <= 9 * maxSize <==> 10 * HiddenBytes(states[i].files) <= 9 * maxSize
  {
    Reachable(codec, maxSize, states, steps, i);
    HiddenAndScannable(states[i].files);
  }
}
