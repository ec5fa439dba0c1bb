/**
 What removing a set of chosen entries does to the cache, seen both on the files and on the plain map
 they stand for (cache/eviction.go).
 */
module CacheEviction {
  import opened Common
  import opened CacheTypes
  import opened CacheFiles
  import LruHeap

  ghost function EntryPaths(keys: set<string>): set<string> {
    keys + (set k | k in keys :: MetaPath(k))
  }

  ghost function RemoveAll(files: Files, keys: set<string>): Files {
    files - EntryPaths(keys)
  }

  lemma RemoveOneMore(files: Files, keys: set<string>, key: string)
    ensures RemoveFiles(RemoveAll(files, keys), key) == RemoveAll(files, keys + {key})
  {
    assert EntryPaths(keys + {key}) == EntryPaths(keys) + {key, MetaPath(key)};
  }

  lemma {:induction false} RemoveAllEntries(codec: Codec, files: Files, keys: set<string>)
    requires Layout(codec, files) && keys <= KeySet(files)
    ensures Layout(codec, RemoveAll(files, keys))
    ensures Entries(codec, RemoveAll(files, keys)) == Entries(codec, files) - keys
    ensures TotalBytes(RemoveAll(files, keys)) == TotalBytes(files) - SumLengths(files, keys)
    decreases keys
  {
    if keys == {} {
      assert RemoveAll(files, keys) == files;
    } else {
      var k :| k in keys;
      var fewer := keys - {k};
      assert fewer + {k} == keys;
      RemoveAllEntries(codec, files, fewer);
      KeptData(files, fewer, k);
      RemoveOneMore(files, fewer, k);
      RemoveOneEntry(codec, RemoveAll(files, fewer), k);
      SumRemove(files, keys, k);
      MinusTwice(Entries(codec, files), fewer, k);
    }
  }

  lemma MinusTwice(entries: map<string, Entry>, keys: set<string>, key: string)
    ensures entries - keys - {key} == entries - (keys + {key})
  {
  }

  lemma KeptData(files: Files, keys: set<string>, key: string)
    requires key in KeySet(files) && key !in keys
    ensures key in KeySet(RemoveAll(files, keys)) && RemoveAll(files, keys)[key] == files[key]
  {
    forall k | k in keys
      ensures MetaPath(k) != key
    {
      SuffixPaths(k);
    }
  }

  lemma RemoveOneEntry(codec: Codec, files: Files, key: string)
    requires Layout(codec, files) && key in KeySet(files)
    ensures Layout(codec, RemoveFiles(files, key))
    ensures Entries(codec, RemoveFiles(files, key)) == Entries(codec, files) - {key}
    ensures TotalBytes(RemoveFiles(files, key)) == TotalBytes(files) - |files[key]|
  {
    var after := RemoveFiles(files, key);
    RemoveEntries(codec, files, key);
    SuffixPaths(key);
    assert KeySet(after) == KeySet(files) - {key};
    SumRemove(files, KeySet(files), key);
    SumAgree(files, after, KeySet(after));
  }

  // ---- The collected metadata ----

  ghost predicate DistinctKeys(items: seq<CacheMetadata>) {
    forall i, j :: 0 <= i < j < |items| ==> items[i].key != items[j].key
  }

  ghost function KeysOf(items: seq<CacheMetadata>): set<string> {
    set m | m in items :: m.key
  }

  /** Every element is the metadata stored for its key. */
  ghost predicate Stored(codec: Codec, files: Files, items: seq<CacheMetadata>) {
    forall m :: m in items ==> m.key in ScanKeys(files) && LoadMeta(codec, files, m.key) == Some(m)
  }

  lemma MultiplicityOfTwo(items: seq<CacheMetadata>, i: nat, j: nat)
    requires i < j < |items| && items[i] == items[j]
    ensures multiset(items)[items[i]] >= 2
  {
    assert items == items[..j] + [items[j]] + items[j + 1..];
    assert items[i] in items[..j];
  }

  lemma {:induction false} DistinctMultiplicity(items: seq<CacheMetadata>, m: CacheMetadata)
    requires DistinctKeys(items)
    ensures multiset(items)[m] <= 1
  {
    if items != [] {
      var rest := items[..|items| - 1];
      DistinctMultiplicity(rest, m);
      assert items == rest + [items[|items| - 1]];
      if m == items[|items| - 1] {
        assert m !in rest;
      }
    }
  }

  /** A part of the collected metadata still has one element per key. */
  lemma PartIsDistinct(codec: Codec, files: Files, items: seq<CacheMetadata>, part: seq<CacheMetadata>)
    requires DistinctKeys(items) && Stored(codec, files, items)
    requires multiset(part) <= multiset(items)
    ensures DistinctKeys(part) && Stored(codec, files, part)
  {
    forall m | m in part
      ensures m in items
    {
      assert m in multiset(part);
      assert m in multiset(items);
    }
    forall i, j | 0 <= i < j < |part|
      ensures part[i].key != part[j].key
    {
      if part[i].key == part[j].key {
        assert part[i] in items && part[j] in items;
        MultiplicityOfTwo(part, i, j);
        DistinctMultiplicity(items, part[i]);
      }
    }
  }

  /** The recorded sizes of distinct entries add up to the lengths of their data files. */
  lemma {:induction false} RecordedSizes(codec: Codec, files: Files, items: seq<CacheMetadata>)
    requires Layout(codec, files) && DistinctKeys(items) && Stored(codec, files, items)
    ensures KeysOf(items) <= files.Keys
    ensures LruHeap.TotalSize(items) == SumLengths(files, KeysOf(items))
  {
    if items != [] {
      var rest, last := items[..|items| - 1], items[|items| - 1];
      RecordedSizes(codec, files, rest);
      assert items == rest + [last];
      assert KeysOf(items) == KeysOf(rest) + {last.key};
      assert last in items && EntryOk(codec, files, last.key);
      assert last.key !in KeysOf(rest);
      SumRemove(files, KeysOf(items), last.key);
      assert KeysOf(items) - {last.key} == KeysOf(rest);
    }
  }

  // ---- The same on the plain map ----

  ghost function DataOf(entries: map<string, Entry>): Files {
    map k | k in entries :: entries[k].data
  }

  ghost function Weight(entries: map<string, Entry>, keys: set<string>): nat
    requires keys <= entries.Keys
  {
    SumLengths(DataOf(entries), keys)
  }

  /** The keys the directory scan reports, which are all that eviction can reach. */
  ghost function Scannable(entries: map<string, Entry>): set<string> {
    set k | k in entries && Plain(k)
  }

  /** `a` was used no more recently than `b`. */
  ghost predicate NoNewer(entries: map<string, Entry>, a: string, b: string) {
    a in entries && b in entries && entries[a].accessedAt <= entries[b].accessedAt
  }

  /**
   `keys` is a least-recently-used part of the scannable cache that frees `required` bytes, or all of it, and no more
   than needed.
   */
  ghost predicate EvictsLru(entries: map<string, Entry>, keys: set<string>, required: int) {
    && keys <= Scannable(entries)
    && (forall c, r {:trigger NoNewer(entries, c, r)} :: c in keys && r in Scannable(entries) - keys ==> NoNewer(entries, c, r))
    && (Weight(entries, keys) >= required || keys == Scannable(entries))
    && (keys != {} ==> exists newest :: NewestNeeded(entries, keys, newest, required))
  }

  /** Without its most recently used member the selection would free too little. */
  ghost predicate NewestNeeded(entries: map<string, Entry>, keys: set<string>, newest: string, required: int)
    requires keys <= entries.Keys
  {
    && newest in keys
    && (forall c {:trigger NoNewer(entries, c, newest)} :: c in keys ==> NoNewer(entries, c, newest))
    && Weight(entries, keys - {newest}) < required
  }

  lemma WeightOnFiles(codec: Codec, files: Files, keys: set<string>)
    requires Layout(codec, files) && keys <= KeySet(files)
    ensures Weight(Entries(codec, files), keys) == SumLengths(files, keys)
  {
    SumAgree(DataOf(Entries(codec, files)), files, keys);
  }

  lemma ChosenBeforeKept(codec: Codec, files: Files, items: seq<CacheMetadata>, chosen: seq<CacheMetadata>, c: string, r: string)
    requires Layout(codec, files)
    requires Stored(codec, files, items) && Stored(codec, files, chosen) && KeysOf(items) == ScanKeys(files)
    requires LruHeap.LeastRecent(chosen, multiset(items) - multiset(chosen))
    requires c in KeysOf(chosen) && r in ScanKeys(files) - KeysOf(chosen)
    ensures c in Entries(codec, files) && Entries(codec, files)[c].accessedAt <= Entries(codec, files)[r].accessedAt
  {
    var mc :| mc in chosen && mc.key == c;
    var mr :| mr in items && mr.key == r;
    assert mr in multiset(items) && mr !in chosen;
    assert mr in multiset(items) - multiset(chosen);
    assert Entries(codec, files)[c].accessedAt == mc.accessedAt;
    assert Entries(codec, files)[r].accessedAt == mr.accessedAt;
  }

  lemma SameElementsSameKeys(items: seq<CacheMetadata>, chosen: seq<CacheMetadata>)
    requires multiset(chosen) == multiset(items)
    ensures KeysOf(chosen) == KeysOf(items)
  {
    forall m
      ensures m in items <==> m in chosen
    {
      assert m in multiset(items) <==> m in multiset(chosen);
    }
  }

  /** The heap's selection over the collected metadata is a least-recently-used eviction of the plain map. */
  lemma SelectionEvictsLru(codec: Codec, files: Files, items: seq<CacheMetadata>, chosen: seq<CacheMetadata>, required: int)
    requires Layout(codec, files)
    requires DistinctKeys(items) && Stored(codec, files, items) && KeysOf(items) == ScanKeys(files)
    requires LruHeap.LruSelection(items, chosen, required)
    ensures KeysOf(chosen) <= ScanKeys(files)
    ensures EvictsLru(Entries(codec, files), KeysOf(chosen), required)
  {
    PartIsDistinct(codec, files, items, chosen);
    RecordedSizes(codec, files, chosen);
    WeightOnFiles(codec, files, KeysOf(chosen));
    forall c, r | c in KeysOf(chosen) && r in ScanKeys(files) - KeysOf(chosen)
      ensures NoNewer(Entries(codec, files), c, r)
    {
      ChosenBeforeKept(codec, files, items, chosen, c, r);
    }
    if multiset(chosen) == multiset(items) {
      SameElementsSameKeys(items, chosen);
    }
    if KeysOf(chosen) != {} {
      LastIsNewest(codec, files, chosen, required);
    }
  }

  lemma LastAccess(codec: Codec, files: Files, chosen: seq<CacheMetadata>, c: string)
    requires Layout(codec, files) && Stored(codec, files, chosen)
    requires chosen != [] && LruHeap.OldestFirst(chosen) && c in KeysOf(chosen)
    ensures chosen[|chosen| - 1].key in Entries(codec, files) && c in Entries(codec, files)
    ensures Entries(codec, files)[c].accessedAt <= Entries(codec, files)[chosen[|chosen| - 1].key].accessedAt
  {
    var mc :| mc in chosen && mc.key == c;
    var i :| 0 <= i < |chosen| && chosen[i] == mc;
    var last := chosen[|chosen| - 1];
    assert last in chosen;
    assert Entries(codec, files)[c].accessedAt == mc.accessedAt;
    assert Entries(codec, files)[last.key].accessedAt == last.accessedAt;
  }

  lemma DropLastKey(codec: Codec, files: Files, chosen: seq<CacheMetadata>)
    requires Layout(codec, files) && DistinctKeys(chosen) && Stored(codec, files, chosen) && chosen != []
    ensures var rest := chosen[..|chosen| - 1];
            && KeysOf(chosen) - {chosen[|chosen| - 1].key} == KeysOf(rest) && KeysOf(rest) <= KeySet(files)
            && Weight(Entries(codec, files), KeysOf(rest)) == LruHeap.TotalSize(rest)
  {
    var last, rest := chosen[|chosen| - 1], chosen[..|chosen| - 1];
    assert chosen == rest + [last];
    RecordedSizes(codec, files, rest);
    assert last.key !in KeysOf(rest);
    WeightOnFiles(codec, files, KeysOf(rest));
  }

  lemma LastIsNewest(codec: Codec, files: Files, chosen: seq<CacheMetadata>, required: int)
    requires Layout(codec, files) && DistinctKeys(chosen) && Stored(codec, files, chosen)
    requires chosen != [] && LruHeap.OldestFirst(chosen) && LruHeap.NoLongerThanNeeded(chosen, required)
    ensures KeysOf(chosen) <= KeySet(files)
    ensures NewestNeeded(Entries(codec, files), KeysOf(chosen), chosen[|chosen| - 1].key, required)
  {
    assert chosen[|chosen| - 1] in chosen;
    forall c | c in KeysOf(chosen)
      ensures NoNewer(Entries(codec, files), c, chosen[|chosen| - 1].key)
    {
      LastAccess(codec, files, chosen, c);
    }
    DropLastKey(codec, files, chosen);
  }

  lemma HiddenAndScannable(files: Files)
    ensures ScanKeys(files) <= KeySet(files)
    ensures TotalBytes(files) == SumLengths(files, ScanKeys(files)) + HiddenBytes(files)
  {
    SumSplit(files, KeySet(files), ScanKeys(files));
  }

  /**
   Evicting for `required` bytes leaves at most what was there less that many exactly if the keys out of the scan's reach
   hold no more than that, and otherwise leaves just those.
   */
  lemma EvictionBoundIff(codec: Codec, files: Files, keys: set<string>, required: int)
    requires Layout(codec, files) && EvictsLru(Entries(codec, files), keys, required)
    ensures var left := TotalBytes(RemoveAll(files, keys));
            && HiddenBytes(files) <= left
            && (left <= TotalBytes(files) - required <==> HiddenBytes(files) <= TotalBytes(files) - required)
            && (left <= TotalBytes(files) - required || left == HiddenBytes(files))
  {
    RemoveAllEntries(codec, files, keys);
    WeightOnFiles(codec, files, keys);
    HiddenAndScannable(files);
    SumSplit(files, ScanKeys(files), keys);
    assert Scannable(Entries(codec, files)) == ScanKeys(files);
  }

  lemma OrdinaryIsScannable(entries: map<string, Entry>)
    requires AllOrdinary(entries.Keys)
    ensures Scannable(entries) == entries.Keys
  {
    forall k | k in entries
      ensures Plain(k)
    {
      PlainIff(k);
    }
  }

  /** Ordinary keys are all within eviction's reach. */
  lemma NothingHidden(codec: Codec, files: Files)
    requires Layout(codec, files) && AllOrdinary(Entries(codec, files).Keys)
    ensures HiddenBytes(files) == 0
  {
    OrdinaryIsScannable(Entries(codec, files));
    assert KeySet(files) - ScanKeys(files) == {} by {
      assert Scannable(Entries(codec, files)) == ScanKeys(files);
    }
  }

  lemma NothingStuck(entries: map<string, Entry>, key: string)
    requires AllOrdinary(entries.Keys)
    ensures StuckBytes(entries, key) == 0
  {
    OrdinaryIsScannable(entries);
    assert entries.Keys - Scannable(entries) - {key} == {};
  }

  lemma OrdinaryLimit(entries: map<string, Entry>, key: string, total: int, length: nat, maxSize: int)
    requires LimitMet(total, StuckBytes(entries, key), length, maxSize)
    ensures AllOrdinary(entries.Keys) ==> total <= if maxSize < length then length else maxSize
  {
    if AllOrdinary(entries.Keys) {
      NothingStuck(entries, key);
    }
  }

  /** Eviction for `required` bytes goes no further than it must: put back the newest of what went, and too much is left. */
  lemma StopsInTime(entries: map<string, Entry>, evicted: set<string>, required: int) returns (newest: string)
    requires EvictsLru(entries, evicted, required) && evicted != {}
    ensures newest in evicted
    ensures Weight(entries, entries.Keys - evicted) + |entries[newest].data| > Weight(entries, entries.Keys) - required
  {
    newest :| NewestNeeded(entries, evicted, newest, required);
    WeightSplit(entries, entries.Keys, evicted);
    SumRemove(DataOf(entries), evicted, newest);
  }

  // ---- What storing leaves ----

  /** What goes before a total of `size` is reached: a least-recently-used selection for the excess, if there is any. */
  ghost predicate EvictsFor(entries: map<string, Entry>, evicted: set<string>, size: int, maxSize: int) {
    if maxSize > 0 && size > maxSize then EvictsLru(entries, evicted, size - maxSize) else evicted == {}
  }

  /** The bytes that stay whatever is evicted when `key` is stored: those of other keys out of the scan's reach. */
  ghost function StuckBytes(entries: map<string, Entry>, key: string): nat {
    Weight(entries, entries.Keys - Scannable(entries) - {key})
  }

  /** The total is within the limit, or the new data's length if that is more, exactly if what is stuck leaves room for the data. */
  predicate LimitMet(total: int, stuck: int, length: int, maxSize: int) {
    var limit := if maxSize < length then length else maxSize;
    (total <= limit <==> stuck + length <= limit) && (total <= limit || total == stuck + length)
  }

  lemma WeightAgree(entries: map<string, Entry>, other: map<string, Entry>, keys: set<string>)
    requires keys <= entries.Keys && keys <= other.Keys && forall k :: k in keys ==> entries[k] == other[k]
    ensures Weight(entries, keys) == Weight(other, keys)
  {
    SumAgree(DataOf(entries), DataOf(other), keys);
  }

  lemma WeightSplit(entries: map<string, Entry>, keys: set<string>, part: set<string>)
    requires part <= keys <= entries.Keys
    ensures Weight(entries, keys) == Weight(entries, part) + Weight(entries, keys - part)
  {
    SumSplit(DataOf(entries), keys, part);
  }

  /** The total after storing: the new data and what was kept of other keys. */
  lemma WeightAfterStore(entries: map<string, Entry>, evicted: set<string>, key: string, entry: Entry)
    requires evicted <= entries.Keys
    ensures var after := (entries - evicted)[key := entry];
            Weight(after, after.Keys) == |entry.data| + Weight(entries, entries.Keys - evicted - {key})
  {
    var after := (entries - evicted)[key := entry];
    var others := entries.Keys - evicted - {key};
    SumRemove(DataOf(after), after.Keys, key);
    assert after.Keys - {key} == others;
    WeightAgree(after, entries, others);
  }

  /** Exactly when storing leaves the cache within its limit, or within the new data's length if that is more. */
  lemma StoreWithinLimitIff(entries: map<string, Entry>, evicted: set<string>, key: string, entry: Entry, maxSize: int)
    requires maxSize > 0 && EvictsFor(entries, evicted, Weight(entries, entries.Keys) + |entry.data|, maxSize)
    ensures var after := (entries - evicted)[key := entry];
            LimitMet(Weight(after, after.Keys), StuckBytes(entries, key), |entry.data|, maxSize)
  {
    var all, stuck := entries.Keys, entries.Keys - Scannable(entries) - {key};
    var others := all - evicted - {key};
    WeightAfterStore(entries, evicted, key, entry);
    WeightSplit(entries, others, stuck);
    WeightSplit(entries, all, evicted);
    WeightSplit(entries, all - evicted, others);
    if evicted == Scannable(entries) {
      assert others == stuck;
    }
  }

  /** One stored key ending in `.partial` is out of eviction's reach however long its data is, whatever the limit. */
  lemma PartialIsOutOfReach(codec: Codec, stem: string, data: Bytes, ttl: int, now: int)
    requires codec.RoundTrips()
    ensures var key := stem + ".partial";
            var files := PutFiles(codec, map[], key, data, ttl, now);
            && Storable(map[], key) && Layout(codec, files)
            && ScanKeys(files) == {} && TotalBytes(files) == HiddenBytes(files) == |data|
  {
    var key := stem + ".partial";
    var files := PutFiles(codec, map[], key, data, ttl, now);
    assert key[|key| - 1] == 'l';
    PutKeepsLayout(codec, map[], key, data, ttl, now);
    SuffixPaths(key);
    assert key[..|stem|] == stem;
    SuffixIff(key, ".partial");
    assert KeySet(files) == {key} && ScanKeys(files) == {};
    SumRemove(files, {key}, key);
    assert {key} - {key} == {};
    assert KeySet(files) - ScanKeys(files) == {key};
  }
}
