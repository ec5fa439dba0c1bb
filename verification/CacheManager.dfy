/**
 The cache manager and its evictor (cache/manager.go, cache/eviction.go) over the file backend, with the
 proof that together they are a plain map with expiry and least-recently-used eviction.
 */
module CacheManager {
  import opened Common
  import opened CacheTypes
  import opened CacheFiles
  import opened CacheEviction
  import opened FileSystemBackend
  import LruHeap

  // ---- The specification: a plain map driven by a history of events ----

  datatype Event =
    | Put(key: string, entry: Entry)
    | Delete(key: string)
    | Expire(key: string)
    | Evict(keys: set<string>)
    | Clear
    | Touch(key: string, now: int)

  ghost function Apply(entries: map<string, Entry>, e: Event): map<string, Entry> {
    match e
    case Put(k, entry) => entries[k := entry]
    case Delete(k) => entries - {k}
    case Expire(k) => entries - {k}
    case Evict(ks) => entries - ks
    case Clear => map[]
    case Touch(k, now) => if k in entries then entries[k := entries[k].(accessedAt := now)] else entries
  }

  ghost function Replay(history: seq<Event>): map<string, Entry> {
    if history == [] then map[] else Apply(Replay(history[..|history| - 1]), history[|history| - 1])
  }

  predicate Removes(e: Event, key: string) {
    match e
    case Put(_, _) => false
    case Delete(k) => k == key
    case Expire(k) => k == key
    case Evict(ks) => key in ks
    case Clear => true
    case Touch(_, _) => false
  }

  /** Event `i` stored `key`, and nothing stored or removed that key afterwards. */
  ghost predicate LastStore(history: seq<Event>, key: string, i: nat) {
    && i < |history|
    && history[i].Put? && history[i].key == key
    && forall j :: i < j < |history| ==> !Removes(history[j], key) && !(history[j].Put? && history[j].key == key)
  }

  /** The plain map holds a key exactly when its last store was not followed by a removal, and then with that store's bytes. */
  lemma {:induction false} LastStoreWins(history: seq<Event>, key: string)
    ensures key in Replay(history) <==> exists i: nat :: LastStore(history, key, i)
    ensures forall i: nat :: LastStore(history, key, i) ==>
              Replay(history)[key] == history[i].entry.(accessedAt := Replay(history)[key].accessedAt)
  {
    if history != [] {
      var before, last := history[..|history| - 1], history[|history| - 1];
      LastStoreWins(before, key);
      if last.Put? && last.key == key {
        assert LastStore(history, key, |before|);
      } else if Removes(last, key) {
        assert forall i: nat :: LastStore(history, key, i) ==> i < |before|;
      } else {
        assert forall i: nat :: LastStore(history, key, i) <==> LastStore(before, key, i);
      }
    }
  }

  // ---- Eviction ----

  /** What `int64(float64(max) * 0.9)` computes, in exact arithmetic with truncation toward zero. */
  function NinetyPercent(max: int): int {
    if max >= 0 then max * 9 / 10 else -(-max * 9 / 10)
  }

  ghost function StaleKeys(entries: map<string, Entry>, now: int): set<string> {
    set k | k in Scannable(entries) && entries[k].Stale(now)
  }

  /** The directory scan: every data file that is not metadata, temporary or partial, in whatever order the walk meets it. */
  method ScanCacheKeys(backend: Backend) returns (keys: seq<string>)
    ensures forall k :: k in keys <==> k in ScanKeys(backend.files)
    ensures forall i, j :: 0 <= i < j < |keys| ==> keys[i] != keys[j]
  {
    keys := [];
    var todo := backend.files.Keys;
    while todo != {}
      invariant todo <= backend.files.Keys
      invariant forall k :: k in keys <==> k in ScanKeys(backend.files) && k !in todo
      invariant forall i, j :: 0 <= i < j < |keys| ==> keys[i] != keys[j]
      decreases todo
    {
      var path :| path in todo;
      todo := todo - {path};
      if Plain(path) {
        keys := keys + [path];
      }
    }
  }

  method CollectAllMetadata(backend: Backend) returns (items: seq<CacheMetadata>)
    requires backend.Valid()
    ensures DistinctKeys(items) && Stored(backend.codec, backend.files, items)
    ensures KeysOf(items) == ScanKeys(backend.files)
  {
    var keys := ScanCacheKeys(backend);
    items := [];
    for i := 0 to |keys|
      invariant |items| == i
      invariant forall j :: 0 <= j < i ==> items[j].key == keys[j]
      invariant Stored(backend.codec, backend.files, items)
    {
      var meta := LoadMeta(backend.codec, backend.files, keys[i]);
      assert keys[i] in ScanKeys(backend.files) && EntryOk(backend.codec, backend.files, keys[i]);
      if meta.Some? {
        items := items + [meta.value];
      }
    }
    forall k | k in ScanKeys(backend.files)
      ensures k in KeysOf(items)
    {
      var i :| 0 <= i < |keys| && keys[i] == k;
      assert items[i] in items && items[i].key == k;
    }
  }

  method DeleteKeys(backend: Backend, keys: seq<string>)
    modifies backend
    ensures backend.files == RemoveAll(old(backend.files), set k | k in keys)
    ensures backend.pending == old(backend.pending)
  {
    ghost var gone: set<string> := {};
    assert RemoveAll(backend.files, gone) == backend.files;
    for i := 0 to |keys|
      invariant gone == set k | k in keys[..i]
      invariant backend.files == RemoveAll(old(backend.files), gone)
      invariant backend.pending == old(backend.pending)
    {
      RemoveOneMore(old(backend.files), gone, keys[i]);
      backend.Delete(keys[i]);
      gone := gone + {keys[i]};
    }
    assert keys[..|keys|] == keys;
  }

  /** The plain map has lost exactly `evicted`, a least-recently-used selection for `required` bytes. */
  ghost predicate Evicted(before: map<string, Entry>, after: map<string, Entry>, evicted: set<string>, required: int) {
    after == before - evicted && EvictsLru(before, evicted, required)
  }

  /** What making room for `required` bytes achieves; keys that the scan passes over stay, whatever they hold. */
  ghost predicate Freed(before: Files, after: Files, required: int) {
    && HiddenBytes(before) <= TotalBytes(after)
    && (TotalBytes(after) <= TotalBytes(before) - required || TotalBytes(after) == HiddenBytes(before))
  }

  method EvictByPolicy(backend: Backend, requiredSpace: int) returns (ghost evicted: set<string>)
    requires backend.Valid()
    modifies backend
    ensures backend.Valid() && backend.pending == old(backend.pending)
    ensures Evicted(old(Entries(backend.codec, backend.files)), Entries(backend.codec, backend.files), evicted, requiredSpace)
    ensures Freed(old(backend.files), backend.files, requiredSpace)
  {
    var items := CollectAllMetadata(backend);
    var candidates, chosen := LruHeap.SelectEvictionCandidates(items, requiredSpace);
    evicted := KeysOf(chosen);
    SelectionOutcome(backend.codec, backend.files, items, chosen, requiredSpace);
    DeleteKeys(backend, candidates);
    SameKeys(candidates, chosen);
  }

  lemma SameKeys(candidates: seq<string>, chosen: seq<CacheMetadata>)
    requires candidates == LruHeap.Keys(chosen)
    ensures (set k | k in candidates) == KeysOf(chosen)
  {
    LruHeap.KeyAt(chosen, 0);
    forall i | 0 <= i < |chosen|
      ensures candidates[i] == chosen[i].key
    {
      LruHeap.KeyAt(chosen, i);
    }
    forall m | m in chosen
      ensures m.key in candidates
    {
      var i :| 0 <= i < |chosen| && chosen[i] == m;
      assert candidates[i] == m.key;
    }
  }

  lemma SelectionOutcome(codec: Codec, files: Files, items: seq<CacheMetadata>, chosen: seq<CacheMetadata>, required: int)
    requires Layout(codec, files)
    requires DistinctKeys(items) && Stored(codec, files, items) && KeysOf(items) == ScanKeys(files)
    requires LruHeap.LruSelection(items, chosen, required)
    ensures EvictsLru(Entries(codec, files), KeysOf(chosen), required)
    ensures Layout(codec, RemoveAll(files, KeysOf(chosen)))
    ensures Entries(codec, RemoveAll(files, KeysOf(chosen))) == Entries(codec, files) - KeysOf(chosen)
    ensures Freed(files, RemoveAll(files, KeysOf(chosen)), required)
  {
    SelectionEvictsLru(codec, files, items, chosen, required);
    RemoveAllEntries(codec, files, KeysOf(chosen));
    EvictionBoundIff(codec, files, KeysOf(chosen), required);
  }

  /** The keys among `keys` whose entries have expired. */
  ghost function StaleAmong(entries: map<string, Entry>, keys: seq<string>, now: int): set<string> {
    set k | k in keys && k in entries && entries[k].Stale(now)
  }

  lemma ExpiryStep(codec: Codec, files: Files, entries: map<string, Entry>, keys: seq<string>, i: nat, now: int)
    requires Layout(codec, files) && i < |keys| && keys[i] in entries
    requires forall j :: 0 <= j < i ==> keys[j] != keys[i]
    requires Entries(codec, files) == entries - StaleAmong(entries, keys[..i], now)
    ensures var meta := LoadMeta(codec, files, keys[i]);
            var stale := meta.Some? && Expired(meta.value, now);
            var after := if stale then RemoveFiles(files, keys[i]) else files;
            && Layout(codec, after)
            && Entries(codec, after) == entries - StaleAmong(entries, keys[..i + 1], now)
            && TotalBytes(after) <= TotalBytes(files)
  {
    var key := keys[i];
    var gone := StaleAmong(entries, keys[..i], now);
    assert key !in keys[..i];
    assert key in Entries(codec, files) && Entries(codec, files)[key] == entries[key];
    assert EntryOk(codec, files, key);
    assert keys[..i + 1] == keys[..i] + [key];
    if entries[key].Stale(now) {
      RemoveOneEntry(codec, files, key);
      MinusTwice(entries, gone, key);
      assert StaleAmong(entries, keys[..i + 1], now) == gone + {key};
    } else {
      assert StaleAmong(entries, keys[..i + 1], now) == gone;
    }
  }

  /** Removes the expired entries that the scan reports, and nothing else. */
  method EvictExpired(backend: Backend, now: int) returns (ghost evicted: set<string>)
    requires backend.Valid()
    modifies backend
    ensures backend.Valid() && backend.pending == old(backend.pending)
    ensures evicted == StaleKeys(old(Entries(backend.codec, backend.files)), now)
    ensures Entries(backend.codec, backend.files) == old(Entries(backend.codec, backend.files)) - evicted
    ensures TotalBytes(backend.files) <= old(TotalBytes(backend.files))
  {
    var keys := ScanCacheKeys(backend);
    ghost var entries := Entries(backend.codec, backend.files);
    assert StaleAmong(entries, keys[..0], now) == {};
    for i := 0 to |keys|
      invariant backend.Valid() && backend.pending == old(backend.pending)
      invariant Entries(backend.codec, backend.files) == entries - StaleAmong(entries, keys[..i], now)
      invariant TotalBytes(backend.files) <= old(TotalBytes(backend.files))
    {
      assert keys[i] in keys;
      ExpiryStep(backend.codec, backend.files, entries, keys, i, now);
      var meta := LoadMeta(backend.codec, backend.files, keys[i]);
      if meta.Some? && Expired(meta.value, now) {
        backend.Delete(keys[i]);
      }
    }
    evicted := StaleAmong(entries, keys[..|keys|], now);
    AllStale(entries, keys, now);
  }

  lemma AllStale(entries: map<string, Entry>, keys: seq<string>, now: int)
    requires forall k :: k in keys <==> k in Scannable(entries)
    ensures StaleAmong(entries, keys[..|keys|], now) == StaleKeys(entries, now)
  {
    assert keys[..|keys|] == keys;
  }

  method PerformEviction(backend: Backend, maxSize: int, now: int) returns (ghost evicted: set<string>)
    requires backend.Valid()
    modifies backend
    ensures backend.Valid() && backend.pending == old(backend.pending)
    ensures Entries(backend.codec, backend.files) == old(Entries(backend.codec, backend.files)) - evicted
    ensures maxSize > 0 && old(TotalBytes(backend.files)) <= maxSize ==>
              evicted == StaleKeys(old(Entries(backend.codec, backend.files)), now)
    ensures !(maxSize > 0 && old(TotalBytes(backend.files)) <= maxSize) ==>
              Evicted(old(Entries(backend.codec, backend.files)), Entries(backend.codec, backend.files), evicted,
                      old(TotalBytes(backend.files)) - NinetyPercent(maxSize))
    ensures maxSize > 0 ==> (TotalBytes(backend.files) <= maxSize <==> old(HiddenBytes(backend.files)) <= maxSize)
    ensures maxSize > 0 && old(TotalBytes(backend.files)) > maxSize ==>
              (10 * TotalBytes(backend.files) <= 9 * maxSize <==> 10 * old(HiddenBytes(backend.files)) <= 9 * maxSize)
    ensures maxSize <= 0 ==> TotalBytes(backend.files) == old(HiddenBytes(backend.files))
    ensures AllOrdinary(old(Entries(backend.codec, backend.files)).Keys) ==>
              && (maxSize > 0 ==> TotalBytes(backend.files) <= maxSize)
              && (old(TotalBytes(backend.files)) > maxSize > 0 ==> 10 * TotalBytes(backend.files) <= 9 * maxSize)
              && (maxSize <= 0 ==> TotalBytes(backend.files) == 0)
  {
    HiddenIsPart(backend.files);
    ghost var before := backend.files;
    var currentSize := backend.Size();
    if maxSize > 0 && currentSize <= maxSize {
      evicted := EvictExpired(backend, now);
    } else {
      evicted := EvictOverflow(backend, currentSize, maxSize);
    }
    OrdinaryEviction(backend.codec, before, TotalBytes(backend.files), maxSize);
  }

  /** With ordinary keys the size bounds hold outright. */
  lemma OrdinaryEviction(codec: Codec, before: Files, left: nat, maxSize: int)
    requires Layout(codec, before)
    requires maxSize > 0 ==> (left <= maxSize <==> HiddenBytes(before) <= maxSize)
    requires maxSize > 0 && TotalBytes(before) > maxSize ==> (10 * left <= 9 * maxSize <==> 10 * HiddenBytes(before) <= 9 * maxSize)
    requires maxSize <= 0 ==> left == HiddenBytes(before)
    ensures AllOrdinary(Entries(codec, before).Keys) ==>
              && (maxSize > 0 ==> left <= maxSize)
              && (TotalBytes(before) > maxSize > 0 ==> 10 * left <= 9 * maxSize)
              && (maxSize <= 0 ==> left == 0)
  {
    if AllOrdinary(Entries(codec, before).Keys) {
      NothingHidden(codec, before);
    }
  }

  /** Shrinks the cache to ninety percent of its limit, as far as the scan reaches. */
  method EvictOverflow(backend: Backend, currentSize: int, maxSize: int) returns (ghost evicted: set<string>)
    requires backend.Valid() && currentSize == TotalBytes(backend.files)
    modifies backend
    ensures backend.Valid() && backend.pending == old(backend.pending)
    ensures Evicted(old(Entries(backend.codec, backend.files)), Entries(backend.codec, backend.files), evicted,
                    currentSize - NinetyPercent(maxSize))
    ensures maxSize > 0 ==> (TotalBytes(backend.files) <= maxSize <==> old(HiddenBytes(backend.files)) <= maxSize)
    ensures maxSize > 0 ==>
              (10 * TotalBytes(backend.files) <= 9 * maxSize <==> 10 * old(HiddenBytes(backend.files)) <= 9 * maxSize)
    ensures maxSize <= 0 ==> TotalBytes(backend.files) == old(HiddenBytes(backend.files))
  {
    ghost var hidden := HiddenBytes(backend.files);
    evicted := EvictByPolicy(backend, currentSize - NinetyPercent(maxSize));
    ShrunkTo(TotalBytes(backend.files), hidden, maxSize);
  }

  /** With ordinary keys, exactly the entries with a positive lifetime that is over are expired. */
  lemma StaleMeans(entries: map<string, Entry>, now: int, k: string)
    requires AllOrdinary(entries.Keys)
    ensures k in StaleKeys(entries, now) <==> k in entries && entries[k].ttl > 0 && now > entries[k].createdAt + entries[k].ttl
  {
    OrdinaryIsScannable(entries);
  }

  /** After an overflow eviction does not stop short of ninety percent by more than one entry's worth, the newest that went. */
  lemma StopsNearNinety(entries: map<string, Entry>, evicted: set<string>, maxSize: nat) returns (newest: string)
    requires EvictsLru(entries, evicted, Weight(entries, entries.Keys) - NinetyPercent(maxSize)) && evicted != {}
    ensures newest in evicted
    ensures 10 * (Weight(entries, entries.Keys - evicted) + |entries[newest].data|) > 9 * maxSize
  {
    newest := StopsInTime(entries, evicted, Weight(entries, entries.Keys) - NinetyPercent(maxSize));
  }

  /** A limit of minus two or less makes periodic eviction remove every entry it can reach, empty ones too. */
  lemma NegativeLimitEvictsAll(entries: map<string, Entry>, evicted: set<string>, maxSize: int)
    requires EvictsLru(entries, evicted, Weight(entries, entries.Keys) - NinetyPercent(maxSize)) && maxSize <= -2
    ensures evicted == Scannable(entries)
  {
    WeightSplit(entries, entries.Keys, evicted);
  }

  lemma HiddenIsPart(files: Files)
    ensures HiddenBytes(files) <= TotalBytes(files)
  {
    HiddenAndScannable(files);
  }

  /** Shrinking to ninety percent, or to what cannot be evicted. */
  lemma ShrunkTo(left: nat, hidden: nat, maxSize: int)
    requires hidden <= left && (left <= NinetyPercent(maxSize) || left == hidden)
    ensures maxSize > 0 ==> (left <= maxSize <==> hidden <= maxSize) && (10 * left <= 9 * maxSize <==> 10 * hidden <= 9 * maxSize)
    ensures maxSize <= 0 ==> left == hidden
  {
  }

  /** Makes room for `length` more bytes, if they would exceed the limit. */
  method EvictExcess(backend: Backend, length: nat, maxSize: int) returns (ghost evicted: set<string>)
    requires backend.Valid()
    modifies backend
    ensures backend.Valid() && backend.pending == old(backend.pending)
    ensures Entries(backend.codec, backend.files) == old(Entries(backend.codec, backend.files)) - evicted
    ensures EvictsFor(old(Entries(backend.codec, backend.files)), evicted, old(TotalBytes(backend.files)) + length, maxSize)
    ensures maxSize > 0 ==>
              (TotalBytes(backend.files) + length <= maxSize <==> old(HiddenBytes(backend.files)) + length <= maxSize)
    ensures maxSize > 0 ==>
              TotalBytes(backend.files) + length <= maxSize || TotalBytes(backend.files) == old(HiddenBytes(backend.files))
  {
    HiddenIsPart(backend.files);
    var currentSize := backend.Size();
    evicted := {};
    if maxSize > 0 && currentSize + length > maxSize {
      evicted := EvictByPolicy(backend, currentSize + length - maxSize);
    } else {
      NothingEvicted(Entries(backend.codec, backend.files));
    }
  }

  lemma NothingEvicted(entries: map<string, Entry>)
    ensures entries - {} == entries
  {
  }

  // ---- The manager ----

  class Manager {
    const backend: Backend
    const defaultTtl: int
    const maxSize: int
    var hits: nat
    var misses: nat
    var lastClear: int
    /** Everything that has happened to the contents so far. */
    ghost var history: seq<Event>

    ghost function Contents(): map<string, Entry>
      requires backend.Valid()
      reads this, backend
    {
      Entries(backend.codec, backend.files)
    }

    /** The files on disk are exactly what the history says a plain map would hold. */
    ghost predicate Valid()
      reads this, backend
    {
      backend.Valid() && Contents() == Replay(history)
    }

    constructor (backend: Backend, defaultTtl: int, maxSize: int)
      requires backend.Valid() && backend.files == map[]
      ensures Valid() && this.backend == backend && this.defaultTtl == defaultTtl && this.maxSize == maxSize
      ensures hits == misses == 0 && history == []
    {
      this.backend := backend;
      this.defaultTtl := defaultTtl;
      this.maxSize := maxSize;
      hits, misses, lastClear, history := 0, 0, 0, [];
    }

    ghost method Record(e: Event, before: seq<Event>)
      requires history == before
      modifies this`history
      ensures history == before + [e] && Replay(history) == Apply(Replay(before), e)
    {
      history := history + [e];
      assert history[..|history| - 1] == before;
    }

    method Get(key: string, now: int) returns (data: Bytes, found: bool)
      requires Valid()
      modifies this, backend
      ensures Valid()
      ensures found <==> key in old(Contents()) && (old(Contents())[key].ttl <= 0 || now <= old(Contents())[key].createdAt + old(Contents())[key].ttl)
      ensures found ==> data == old(Contents())[key].data && history == old(history)
      ensures found ==> exists i: nat :: LastStore(old(history), key, i)
      ensures forall i: nat :: LastStore(old(history), key, i) ==>
                && (found <==> old(history)[i].entry.ttl <= 0 || now <= old(history)[i].entry.createdAt + old(history)[i].entry.ttl)
                && (found ==> data == old(history)[i].entry.data)
      ensures found ==> backend.pending == old(backend.pending) + multiset{key}
      ensures !found ==> data == [] && backend.pending == old(backend.pending)
      ensures !found ==> history == if key in old(Contents()) then old(history) + [Expire(key)] else old(history)
      ensures hits == old(hits) + (if found then 1 else 0) && misses == old(misses) + (if found then 0 else 1)
      ensures lastClear == old(lastClear)
    {
      LastStoreWins(history, key);
      MetaMeansData(backend.codec, backend.files, key);
      if key in Contents() {
        RemoveEntries(backend.codec, backend.files, key);
      }
      var reader := backend.Get(key, now);
      match reader
      case None =>
        misses := misses + 1;
        if key in old(Contents()) {
          Record(Expire(key), history);
        }
        return [], false;
      case Some(r) =>
        hits := hits + 1;
        data := ReadAll(r, 1024);
        found := true;
    }

    /** The first half of `Put`: evict before writing, if the new data would overflow the cache. */
    method MakeRoom(length: nat) returns (ghost evicted: set<string>)
      requires Valid()
      modifies this, backend
      ensures Valid()
      ensures Contents() == old(Contents()) - evicted
      ensures history == old(history) + [Evict(evicted)]
      ensures EvictsFor(old(Contents()), evicted, old(TotalBytes(backend.files)) + length, maxSize)
      ensures maxSize > 0 ==>
                (TotalBytes(backend.files) + length <= maxSize <==> old(HiddenBytes(backend.files)) + length <= maxSize)
      ensures maxSize > 0 ==>
                TotalBytes(backend.files) + length <= maxSize || TotalBytes(backend.files) == old(HiddenBytes(backend.files))
      ensures hits == old(hits) && misses == old(misses) && lastClear == old(lastClear)
      ensures backend.pending == old(backend.pending)
    {
      evicted := EvictExcess(backend, length, maxSize);
      Record(Evict(evicted), history);
    }

    method Put(key: string, data: Bytes, ttl: int, now: int) returns (ghost evicted: set<string>)
      requires Valid() && !IsMeta(key) && TempPath(key) !in Contents()
      modifies this, backend
      ensures Valid()
      ensures Contents() == (old(Contents()) - evicted)[key := Entry(data, now, now, if ttl == 0 then defaultTtl else ttl)]
      ensures history == old(history) + [Evict(evicted)] + [Event.Put(key, Contents()[key])]
      ensures EvictsFor(old(Contents()), evicted, old(TotalBytes(backend.files)) + |data|, maxSize)
      ensures maxSize > 0 ==> LimitMet(TotalBytes(backend.files), StuckBytes(old(Contents()), key), |data|, maxSize)
      ensures maxSize > 0 && AllOrdinary(old(Contents()).Keys) ==>
                TotalBytes(backend.files) <= if maxSize < |data| then |data| else maxSize
      ensures hits == old(hits) && misses == old(misses) && lastClear == old(lastClear)
      ensures backend.pending == old(backend.pending)
    {
      var lifetime := if ttl == 0 then defaultTtl else ttl;
      ghost var before := backend.files;
      evicted := MakeRoom(|data|);
      Store(key, data, lifetime, now);
      PutWithinLimitIff(backend.codec, before, backend.files, evicted, key, Entry(data, now, now, lifetime), maxSize);
    }

    /** The second half of `Put`: write the entry. */
    method Store(key: string, data: Bytes, lifetime: int, now: int)
      requires Valid() && !IsMeta(key) && TempPath(key) !in Contents()
      modifies this, backend
      ensures Valid()
      ensures Contents() == old(Contents())[key := Entry(data, now, now, lifetime)]
      ensures history == old(history) + [Event.Put(key, Entry(data, now, now, lifetime))]
      ensures TotalBytes(backend.files) <= old(TotalBytes(backend.files)) + |data|
      ensures hits == old(hits) && misses == old(misses) && lastClear == old(lastClear)
      ensures backend.pending == old(backend.pending)
    {
      StorableKey(backend.codec, backend.files, key);
      PutOutcome(backend.codec, backend.files, key, data, lifetime, now);
      var reader := new BytesReader(data);
      backend.Put(key, reader, lifetime, now);
      Record(Event.Put(key, Entry(data, now, now, lifetime)), history);
    }

    method Exists(key: string, now: int) returns (found: bool)
      requires Valid()
      ensures found <==> key in Contents() && (Contents()[key].ttl <= 0 || now <= Contents()[key].createdAt + Contents()[key].ttl)
    {
      MetaMeansData(backend.codec, backend.files, key);
      found := backend.Exists(key, now);
    }

    method Delete(key: string)
      requires Valid() && (IsMeta(key) ==> key !in backend.files)
      modifies this, backend
      ensures Valid()
      ensures Contents() == old(Contents()) - {key}
      ensures history == old(history) + [Event.Delete(key)]
      ensures hits == old(hits) && misses == old(misses) && lastClear == old(lastClear)
      ensures backend.pending == old(backend.pending)
    {
      RemoveEntries(backend.codec, backend.files, key);
      backend.Delete(key);
      Record(Event.Delete(key), history);
    }

    method Clear(now: int)
      requires Valid()
      modifies this, backend
      ensures Valid()
      ensures Contents() == map[]
      ensures history == old(history) + [Event.Clear]
      ensures hits == old(hits) && misses == old(misses) && lastClear == now
      ensures backend.pending == old(backend.pending)
    {
      lastClear := now;
      backend.Clear();
      EmptyLayout(backend.codec);
      Record(Event.Clear, history);
    }

    method ForceEviction(now: int) returns (ghost evicted: set<string>)
      requires Valid()
      modifies this, backend
      ensures Valid()
      ensures Contents() == old(Contents()) - evicted
      ensures history == old(history) + [Evict(evicted)]
      ensures maxSize > 0 && old(TotalBytes(backend.files)) <= maxSize ==> evicted == StaleKeys(old(Contents()), now)
      ensures !(maxSize > 0 && old(TotalBytes(backend.files)) <= maxSize) ==>
                EvictsLru(old(Contents()), evicted, old(TotalBytes(backend.files)) - NinetyPercent(maxSize))
      ensures maxSize > 0 ==> (TotalBytes(backend.files) <= maxSize <==> old(HiddenBytes(backend.files)) <= maxSize)
      ensures maxSize > 0 && old(TotalBytes(backend.files)) > maxSize ==>
                (10 * TotalBytes(backend.files) <= 9 * maxSize <==> 10 * old(HiddenBytes(backend.files)) <= 9 * maxSize)
      ensures maxSize <= 0 ==> TotalBytes(backend.files) == old(HiddenBytes(backend.files))
      ensures AllOrdinary(old(Contents()).Keys) ==>
                && (maxSize > 0 ==> TotalBytes(backend.files) <= maxSize)
                && (old(TotalBytes(backend.files)) > maxSize > 0 ==> 10 * TotalBytes(backend.files) <= 9 * maxSize)
                && (maxSize <= 0 ==> TotalBytes(backend.files) == 0)
      ensures hits == old(hits) && misses == old(misses) && lastClear == old(lastClear)
      ensures backend.pending == old(backend.pending)
    {
      evicted := PerformEviction(backend, maxSize, now);
      Record(Evict(evicted), history);
    }

    /** A scheduled access-time update runs, at whatever later moment. */
    method RunPendingUpdate(key: string, now: int)
      requires Valid() && key in backend.pending
      modifies this, backend
      ensures Valid()
      ensures history == old(history) + [Touch(key, now)]
      ensures TotalBytes(backend.files) == old(TotalBytes(backend.files))
      ensures hits == old(hits) && misses == old(misses) && lastClear == old(lastClear)
    {
      TouchOutcome(backend.codec, backend.files, key, now);
      backend.UpdateAccessTime(key, now);
      Record(Touch(key, now), history);
    }
  }

  /** Whether a key can be stored shows in the plain map. */
  lemma StorableKey(codec: Codec, files: Files, key: string)
    requires Layout(codec, files)
    ensures Storable(files, key) <==> !IsMeta(key) && TempPath(key) !in Entries(codec, files)
  {
    SuffixPaths(key);
  }

  lemma TotalIsWeight(codec: Codec, files: Files)
    requires Layout(codec, files)
    ensures TotalBytes(files) == Weight(Entries(codec, files), Entries(codec, files).Keys)
  {
    WeightOnFiles(codec, files, KeySet(files));
  }

  /** On the files: a `Put` stays within its limit exactly if the keys it cannot evict leave room for the data. */
  lemma PutWithinLimitIff(codec: Codec, before: Files, after: Files, evicted: set<string>, key: string, entry: Entry, maxSize: int)
    requires Layout(codec, before) && Layout(codec, after)
    requires EvictsFor(Entries(codec, before), evicted, TotalBytes(before) + |entry.data|, maxSize)
    requires Entries(codec, after) == (Entries(codec, before) - evicted)[key := entry]
    ensures maxSize > 0 ==> LimitMet(TotalBytes(after), StuckBytes(Entries(codec, before), key), |entry.data|, maxSize)
    ensures maxSize > 0 && AllOrdinary(Entries(codec, before).Keys) ==>
              TotalBytes(after) <= if maxSize < |entry.data| then |entry.data| else maxSize
  {
    TotalIsWeight(codec, before);
    TotalIsWeight(codec, after);
    if maxSize > 0 {
      StoreWithinLimitIff(Entries(codec, before), evicted, key, entry, maxSize);
      OrdinaryLimit(Entries(codec, before), key, TotalBytes(after), |entry.data|, maxSize);
    }
  }

  lemma PutOutcome(codec: Codec, files: Files, key: string, data: Bytes, ttl: int, now: int)
    requires codec.RoundTrips() && Layout(codec, files) && Storable(files, key)
    ensures Layout(codec, PutFiles(codec, files, key, data, ttl, now))
    ensures Entries(codec, PutFiles(codec, files, key, data, ttl, now)) ==
            Entries(codec, files)[key := Entry(data, now, now, ttl)]
    ensures TotalBytes(PutFiles(codec, files, key, data, ttl, now)) <= TotalBytes(files) + |data|
  {
    PutEntries(codec, files, key, data, ttl, now);
    PutTotal(codec, files, key, data, ttl, now);
  }

  lemma EmptyLayout(codec: Codec)
    ensures Layout(codec, map[]) && Entries(codec, map[]) == map[]
  {
  }

  lemma TouchOutcome(codec: Codec, files: Files, key: string, now: int)
    requires codec.RoundTrips() && Layout(codec, files)
    ensures Layout(codec, TouchFiles(codec, files, key, now))
    ensures Entries(codec, TouchFiles(codec, files, key, now)) == Apply(Entries(codec, files), Touch(key, now))
    ensures TotalBytes(TouchFiles(codec, files, key, now)) == TotalBytes(files)
  {
    TouchEntries(codec, files, key, now);
    TouchTotal(codec, files, key, now);
  }

  lemma TouchTotal(codec: Codec, files: Files, key: string, now: int)
    requires codec.RoundTrips() && Layout(codec, files)
    ensures TotalBytes(TouchFiles(codec, files, key, now)) == TotalBytes(files)
  {
    SuffixPaths(key);
    TouchEntries(codec, files, key, now);
    var after := TouchFiles(codec, files, key, now);
    assert KeySet(after) == KeySet(files);
    SumAgree(after, files, KeySet(files));
  }
}
