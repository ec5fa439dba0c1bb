/**
 The on-disk layout of cache/filesystem.go: a data file and a `.meta` file per key, with a `.tmp` file
 while a write is in progress. Each function is what one locked section of the backend does to the files.
 Paths are relative to the base directory, so a cleaned key is its own data path.
 */
module CacheFiles {
  import opened Common
  import opened CacheTypes

  type Files = map<string, Bytes>

  /** The JSON encoding of metadata, kept abstract: all that is used of it is that it can be read back. */
  datatype Codec = Codec(marshal: CacheMetadata -> Bytes, unmarshal: Bytes -> Option<CacheMetadata>) {
    ghost predicate RoundTrips() {
      forall m :: unmarshal(marshal(m)) == Some(m)
    }
  }

  predicate HasSuffix(s: string, suffix: string) {
    |suffix| <= |s| && SameEnd(s, suffix)
  }

  predicate SameEnd(s: string, suffix: string)
    requires |suffix| <= |s|
    decreases s
  {
    suffix != "" ==>
      s[|s| - 1] == suffix[|suffix| - 1] && SameEnd(s[..|s| - 1], suffix[..|suffix| - 1])
  }

  lemma {:induction false} SuffixIff(s: string, suffix: string)
    requires |suffix| <= |s|
    ensures HasSuffix(s, suffix) <==> s[..|s| - |suffix|] + suffix == s
    decreases s
  {
    if suffix != "" {
      var s', suffix' := s[..|s| - 1], suffix[..|suffix| - 1];
      SuffixIff(s', suffix');
      assert s == s' + [s[|s| - 1]] && suffix == suffix' + [suffix[|suffix| - 1]];
      assert s[..|s| - |suffix|] == s'[..|s'| - |suffix'|];
    }
  }

  function MetaPath(key: string): string {
    key + ".meta"
  }

  function TempPath(key: string): string {
    key + ".tmp"
  }

  predicate IsMeta(path: string) {
    HasSuffix(path, ".meta")
  }

  /** The key whose metadata a `.meta` path holds. */
  function KeyOf(path: string): string
    requires IsMeta(path)
  {
    path[..|path| - 5]
  }

  /** A path the directory scan reports as a cache key. */
  predicate Plain(path: string) {
    !IsMeta(path) && !HasSuffix(path, ".tmp") && !HasSuffix(path, ".partial")
  }

  ghost predicate EndsIn(path: string, suffix: string) {
    exists stem :: path == stem + suffix
  }

  lemma SuffixMeans(path: string, suffix: string)
    ensures HasSuffix(path, suffix) <==> EndsIn(path, suffix)
  {
    if |suffix| <= |path| {
      SuffixIff(path, suffix);
    }
    forall stem: string | path == stem + suffix
      ensures HasSuffix(path, suffix)
    {
      assert path[..|stem|] == stem;
    }
  }

  /** The scan reports exactly the paths without one of the three reserved endings. */
  lemma PlainIff(path: string)
    ensures Plain(path) <==> Ordinary(path)
  {
    SuffixMeans(path, ".meta");
    SuffixMeans(path, ".tmp");
    SuffixMeans(path, ".partial");
  }

  /** A path without an ending that the cache uses for files of its own. */
  ghost predicate Ordinary(path: string) {
    !EndsIn(path, ".meta") && !EndsIn(path, ".tmp") && !EndsIn(path, ".partial")
  }

  ghost predicate AllOrdinary(keys: set<string>) {
    forall k {:trigger Ordinary(k)} :: k in keys ==> Ordinary(k)
  }

  lemma SuffixPaths(key: string)
    ensures IsMeta(MetaPath(key)) && KeyOf(MetaPath(key)) == key && !Plain(MetaPath(key))
    ensures !IsMeta(TempPath(key)) && !Plain(TempPath(key))
  {
    SuffixIff(MetaPath(key), ".meta");
    SuffixIff(TempPath(key), ".tmp");
    assert MetaPath(key)[..|key|] == key && TempPath(key)[..|key|] == key;
    assert TempPath(key)[|TempPath(key)| - 1] == 'p';
  }

  lemma MetaPathOfKey(path: string)
    requires IsMeta(path)
    ensures MetaPath(KeyOf(path)) == path
  {
    SuffixIff(path, ".meta");
  }

  function LoadMeta(codec: Codec, files: Files, key: string): Option<CacheMetadata> {
    if MetaPath(key) in files then codec.unmarshal(files[MetaPath(key)]) else None
  }

  function PutFiles(codec: Codec, files: Files, key: string, data: Bytes, ttl: int, now: int): Files {
    (files - {TempPath(key)})[key := data][MetaPath(key) := codec.marshal(CacheMetadata(key, |data|, now, now, ttl))]
  }

  function RemoveFiles(files: Files, key: string): Files {
    files - {key, MetaPath(key)}
  }

  function TouchFiles(codec: Codec, files: Files, key: string, now: int): Files {
    match LoadMeta(codec, files, key)
    case None => files
    case Some(m) => files[MetaPath(key) := codec.marshal(m.(accessedAt := now))]
  }

  /** The bytes are metadata that names the data file `key` and records its length. */
  ghost predicate Describes(codec: Codec, files: Files, key: string, bytes: Bytes) {
    key in files &&
    match codec.unmarshal(bytes)
    case None => false
    case Some(m) => m.key == key && m.size == |files[key]|
  }

  /** `key` has a metadata file that describes its data file. */
  ghost predicate EntryOk(codec: Codec, files: Files, key: string) {
    MetaPath(key) in files && Describes(codec, files, key, files[MetaPath(key)])
  }

  // ---- Pairs of data and metadata, whatever the keys ----

  ghost predicate HasMeta(files: Files, key: string) {
    MetaPath(key) in files
  }

  /** Every data file has metadata, and every metadata file describes a data file that is there. */
  ghost predicate Paired(codec: Codec, files: Files) {
    && (forall k {:trigger HasMeta(files, k)} :: k in files && !IsMeta(k) ==> HasMeta(files, k))
    && (forall k {:trigger EntryOk(codec, files, k)} :: MetaPath(k) in files ==> EntryOk(codec, files, k))
  }

  ghost predicate RecordsLength(codec: Codec, files: Files, key: string, length: nat) {
    match LoadMeta(codec, files, key)
    case None => false
    case Some(m) => m.size == length
  }

  /**
   When storing a key keeps pairs: its temporary file is no stored key; if the key is the path of metadata, its data
   describes the file that metadata belongs to; and if the key's own metadata file is a stored key, its length stays.
   */
  ghost predicate PutFits(codec: Codec, files: Files, key: string, data: Bytes, ttl: int, now: int) {
    && TempPath(key) !in files
    && (IsMeta(key) ==> Describes(codec, files, KeyOf(key), data))
    && (MetaPath(MetaPath(key)) in files ==>
          RecordsLength(codec, files, MetaPath(key), |codec.marshal(CacheMetadata(key, |data|, now, now, ttl))|))
  }

  lemma MetaOfOther(key: string, other: string)
    requires other != key
    ensures MetaPath(other) != MetaPath(key)
  {
    SuffixPaths(key);
    SuffixPaths(other);
  }

  lemma LongerPaths(key: string)
    ensures MetaPath(key) != key && TempPath(key) != key && MetaPath(MetaPath(key)) != key
    ensures TempPath(key) != MetaPath(key) && MetaPath(MetaPath(key)) != MetaPath(key)
    ensures MetaPath(TempPath(key)) != key && MetaPath(TempPath(key)) != MetaPath(key)
    ensures MetaPath(MetaPath(key)) != TempPath(key) && MetaPath(TempPath(key)) != TempPath(key)
  {
    SuffixPaths(key);
    SuffixPaths(MetaPath(key));
    assert |MetaPath(MetaPath(key))| == |key| + 10 && |MetaPath(TempPath(key))| == |key| + 9;
  }

  lemma PutUnfitBreaksPairs(codec: Codec, files: Files, key: string, data: Bytes, ttl: int, now: int)
    requires codec.RoundTrips() && Paired(codec, files) && !PutFits(codec, files, key, data, ttl, now)
    ensures !Paired(codec, PutFiles(codec, files, key, data, ttl, now))
  {
    var after := PutFiles(codec, files, key, data, ttl, now);
    SuffixPaths(key);
    LongerPaths(key);
    if TempPath(key) in files {
      assert HasMeta(files, TempPath(key));
      assert !EntryOk(codec, after, TempPath(key));
    } else if MetaPath(MetaPath(key)) in files && !RecordsLength(codec, files, MetaPath(key), |after[MetaPath(key)]|) {
      assert EntryOk(codec, files, MetaPath(key));
      assert !EntryOk(codec, after, MetaPath(key));
    } else {
      MetaPathOfKey(key);
      assert !EntryOk(codec, after, KeyOf(key));
    }
  }

  lemma PutEntryStays(codec: Codec, files: Files, key: string, data: Bytes, ttl: int, now: int, k: string)
    requires codec.RoundTrips() && Paired(codec, files) && PutFits(codec, files, key, data, ttl, now)
    requires MetaPath(k) in PutFiles(codec, files, key, data, ttl, now)
    ensures EntryOk(codec, PutFiles(codec, files, key, data, ttl, now), k)
  {
    var after := PutFiles(codec, files, key, data, ttl, now);
    SuffixPaths(key);
    SuffixPaths(k);
    LongerPaths(key);
    if k != key {
      MetaOfOther(key, k);
      if IsMeta(key) && k == KeyOf(key) {
        MetaPathOfKey(key);
        assert after[k] == files[k] && after[MetaPath(k)] == data;
      } else {
        assert MetaPath(k) != key;
        assert MetaPath(k) in files && EntryOk(codec, files, k);
        assert k == MetaPath(key) || after[k] == files[k];
      }
    }
  }

  /** Storing any key keeps data and metadata paired exactly when it fits. */
  lemma PutKeepsPairsIff(codec: Codec, files: Files, key: string, data: Bytes, ttl: int, now: int)
    requires codec.RoundTrips() && Paired(codec, files)
    ensures Paired(codec, PutFiles(codec, files, key, data, ttl, now)) <==> PutFits(codec, files, key, data, ttl, now)
  {
    var after := PutFiles(codec, files, key, data, ttl, now);
    if PutFits(codec, files, key, data, ttl, now) {
      SuffixPaths(key);
      forall k | k in after && !IsMeta(k)
        ensures HasMeta(after, k)
      {
        SuffixPaths(k);
        assert k != key ==> HasMeta(files, k);
      }
      forall k | MetaPath(k) in after
        ensures EntryOk(codec, after, k)
      {
        PutEntryStays(codec, files, key, data, ttl, now, k);
      }
    } else {
      PutUnfitBreaksPairs(codec, files, key, data, ttl, now);
    }
  }

  /** Deleting any key keeps pairs exactly when neither the key nor its metadata file plays the other part for another key. */
  lemma RemoveKeepsPairsIff(codec: Codec, files: Files, key: string)
    requires Paired(codec, files)
    ensures Paired(codec, RemoveFiles(files, key)) <==>
            !(IsMeta(key) && key in files && !IsMeta(KeyOf(key))) && MetaPath(MetaPath(key)) !in files
  {
    var after := RemoveFiles(files, key);
    SuffixPaths(key);
    LongerPaths(key);
    if IsMeta(key) && key in files && !IsMeta(KeyOf(key)) {
      MetaPathOfKey(key);
      assert EntryOk(codec, files, KeyOf(key));
      assert KeyOf(key) in after && !HasMeta(after, KeyOf(key));
    } else if MetaPath(MetaPath(key)) in files {
      assert !EntryOk(codec, after, MetaPath(key));
    } else {
      forall k | k in after && !IsMeta(k)
        ensures HasMeta(after, k)
      {
        SuffixPaths(k);
        assert HasMeta(files, k);
      }
      forall k | MetaPath(k) in after
        ensures EntryOk(codec, after, k)
      {
        assert EntryOk(codec, files, k);
        assert k != key && k != MetaPath(key);
      }
    }
  }

  /** Storing a key that is the temporary path of the next one breaks a pair, whatever the keys and the data. */
  lemma TwoPutsBreakPairs(codec: Codec, key: string, first: Bytes, second: Bytes, ttl: int, now: int)
    requires codec.RoundTrips()
    ensures var files := PutFiles(codec, map[], TempPath(key), first, ttl, now);
            Paired(codec, files) && !Paired(codec, PutFiles(codec, files, key, second, ttl, now))
  {
    var files := PutFiles(codec, map[], TempPath(key), first, ttl, now);
    SuffixPaths(key);
    PutKeepsPairsIff(codec, map[], TempPath(key), first, ttl, now);
    PutKeepsPairsIff(codec, files, key, second, ttl, now);
  }

  // ---- The layout that the cache keeps ----

  /** `path` is a data file, or the metadata file of a data file that is there. */
  ghost predicate Accounted(files: Files, path: string) {
    IsMeta(path) ==> !IsMeta(KeyOf(path)) && KeyOf(path) in files
  }

  /** A data file exists exactly when its metadata does, sizes agree, and no metadata path is used as a key. */
  ghost predicate Layout(codec: Codec, files: Files) {
    && (forall p {:trigger Accounted(files, p)} :: p in files ==> Accounted(files, p))
    && (forall k {:trigger EntryOk(codec, files, k)} :: k in files && !IsMeta(k) ==> EntryOk(codec, files, k))
  }

  lemma LayoutIsPaired(codec: Codec, files: Files)
    requires Layout(codec, files)
    ensures Paired(codec, files)
  {
    forall k | k in files && !IsMeta(k)
      ensures HasMeta(files, k)
    {
      assert EntryOk(codec, files, k);
    }
    forall k | MetaPath(k) in files
      ensures EntryOk(codec, files, k)
    {
      SuffixPaths(k);
      assert Accounted(files, MetaPath(k));
    }
  }

  /** A key whose storing keeps the layout. */
  predicate Storable(files: Files, key: string) {
    !IsMeta(key) && TempPath(key) !in files
  }

  /** On a layout, the keys that keep pairs are the storable ones, and paths of metadata given bytes that describe their data. */
  lemma StorableFits(codec: Codec, files: Files, key: string, data: Bytes, ttl: int, now: int)
    requires Layout(codec, files)
    ensures PutFits(codec, files, key, data, ttl, now) <==>
            Storable(files, key) || (TempPath(key) !in files && IsMeta(key) && Describes(codec, files, KeyOf(key), data))
  {
    SuffixPaths(key);
    SuffixPaths(MetaPath(key));
    assert MetaPath(MetaPath(key)) in files ==> Accounted(files, MetaPath(MetaPath(key)));
  }

  /** What the cache holds for one key. */
  datatype Entry = Entry(data: Bytes, createdAt: int, accessedAt: int, ttl: int) {
    predicate Stale(now: int) {
      Outlived(createdAt, ttl, now)
    }
  }

  ghost function EntryAt(codec: Codec, files: Files, key: string): Entry
    requires key in files && EntryOk(codec, files, key)
  {
    var m := LoadMeta(codec, files, key).value;
    Entry(files[key], m.createdAt, m.accessedAt, m.ttl)
  }

  ghost function KeySet(files: Files): set<string> {
    set k | k in files && !IsMeta(k)
  }

  /** The keys the directory scan reports. */
  ghost function ScanKeys(files: Files): set<string> {
    set k | k in files && Plain(k)
  }

  /** The plain map that the layout stands for. */
  ghost function Entries(codec: Codec, files: Files): (r: map<string, Entry>)
    requires Layout(codec, files)
    ensures r.Keys == KeySet(files)
  {
    map k | k in KeySet(files) :: EntryAt(codec, files, k)
  }

  lemma PutKeepsLayout(codec: Codec, files: Files, key: string, data: Bytes, ttl: int, now: int)
    requires codec.RoundTrips() && Layout(codec, files) && Storable(files, key)
    ensures Layout(codec, PutFiles(codec, files, key, data, ttl, now))
  {
    var after := PutFiles(codec, files, key, data, ttl, now);
    SuffixPaths(key);
    forall k | k in after && !IsMeta(k)
      ensures EntryOk(codec, after, k)
    {
      if k != key {
        OtherKeyUntouched(key, k);
        assert EntryOk(codec, files, k);
      }
    }
    forall p | p in after
      ensures Accounted(after, p)
    {
      assert p in files ==> Accounted(files, p);
    }
  }

  /** The files of two distinct keys are disjoint, as long as neither is a path of metadata. */
  lemma OtherKeyUntouched(key: string, other: string)
    requires !IsMeta(key) && !IsMeta(other)
    ensures other != MetaPath(key) && MetaPath(other) != key && MetaPath(other) != TempPath(key)
    ensures other != key ==> MetaPath(other) != MetaPath(key)
  {
    SuffixPaths(key);
    SuffixPaths(other);
  }

  lemma PutEntries(codec: Codec, files: Files, key: string, data: Bytes, ttl: int, now: int)
    requires codec.RoundTrips() && Layout(codec, files) && Storable(files, key)
    ensures Layout(codec, PutFiles(codec, files, key, data, ttl, now))
    ensures Entries(codec, PutFiles(codec, files, key, data, ttl, now)) ==
            Entries(codec, files)[key := Entry(data, now, now, ttl)]
  {
    PutKeepsLayout(codec, files, key, data, ttl, now);
    var after := PutFiles(codec, files, key, data, ttl, now);
    SuffixPaths(key);
    assert KeySet(after) == KeySet(files) + {key};
    forall k | k in KeySet(files) && k != key
      ensures EntryAt(codec, after, k) == EntryAt(codec, files, k)
    {
      OtherKeyUntouched(key, k);
      assert EntryOk(codec, files, k) && EntryOk(codec, after, k);
    }
  }

  /** Deleting a key keeps the layout exactly when the key is not itself the path of a metadata file. */
  lemma RemoveKeepsLayoutIff(codec: Codec, files: Files, key: string)
    requires Layout(codec, files)
    ensures Layout(codec, RemoveFiles(files, key)) <==> !(IsMeta(key) && key in files)
  {
    var after := RemoveFiles(files, key);
    SuffixPaths(key);
    if IsMeta(key) && key in files {
      assert Accounted(files, key);
      MetaPathOfKey(key);
      assert MetaPath(key) != KeyOf(key);
      assert LoadMeta(codec, after, KeyOf(key)) == None && !EntryOk(codec, after, KeyOf(key));
    } else {
      forall k | k in after && !IsMeta(k)
        ensures EntryOk(codec, after, k)
      {
        SuffixPaths(k);
        assert EntryOk(codec, files, k);
        assert MetaPath(k) != key && MetaPath(k) != MetaPath(key);
      }
      forall p | p in after
        ensures Accounted(after, p)
      {
        assert Accounted(files, p);
        if IsMeta(p) {
          MetaPathOfKey(p);
        }
      }
    }
  }

  lemma RemoveEntries(codec: Codec, files: Files, key: string)
    requires Layout(codec, files) && (IsMeta(key) ==> key !in files)
    ensures Layout(codec, RemoveFiles(files, key))
    ensures Entries(codec, RemoveFiles(files, key)) == Entries(codec, files) - {key}
  {
    RemoveKeepsLayoutIff(codec, files, key);
    var after := RemoveFiles(files, key);
    SuffixPaths(key);
    assert KeySet(after) == KeySet(files) - {key};
    forall k | k in KeySet(after)
      ensures EntryAt(codec, after, k) == EntryAt(codec, files, k)
    {
      SuffixPaths(k);
      assert EntryOk(codec, files, k) && EntryOk(codec, after, k);
    }
  }

  lemma TouchKeepsLayout(codec: Codec, files: Files, key: string, now: int)
    requires codec.RoundTrips() && Layout(codec, files)
    ensures Layout(codec, TouchFiles(codec, files, key, now))
    ensures TouchFiles(codec, files, key, now).Keys == files.Keys
  {
    var after := TouchFiles(codec, files, key, now);
    SuffixPaths(key);
    forall k | k in after && !IsMeta(k)
      ensures EntryOk(codec, after, k)
    {
      SuffixPaths(k);
      assert EntryOk(codec, files, k);
    }
    forall p | p in after
      ensures Accounted(after, p)
    {
      assert Accounted(files, p);
    }
  }

  lemma TouchEntryAt(codec: Codec, files: Files, key: string, now: int, k: string)
    requires codec.RoundTrips() && Layout(codec, files) && k in KeySet(files)
    ensures var after := TouchFiles(codec, files, key, now);
            && k in after && EntryOk(codec, files, k) && EntryOk(codec, after, k)
            && EntryAt(codec, after, k) ==
               if k == key then EntryAt(codec, files, k).(accessedAt := now) else EntryAt(codec, files, k)
  {
    SuffixPaths(key);
    SuffixPaths(k);
    assert EntryOk(codec, files, k);
  }

  /** An access-time update changes at most one access time: it never creates, revives or rewrites an entry. */
  lemma TouchEntries(codec: Codec, files: Files, key: string, now: int)
    requires codec.RoundTrips() && Layout(codec, files)
    ensures Layout(codec, TouchFiles(codec, files, key, now))
    ensures TouchFiles(codec, files, key, now).Keys == files.Keys
    ensures Entries(codec, TouchFiles(codec, files, key, now)) ==
            var e := Entries(codec, files);
            if key in e then e[key := e[key].(accessedAt := now)] else e
  {
    TouchKeepsLayout(codec, files, key, now);
    assert KeySet(TouchFiles(codec, files, key, now)) == KeySet(files);
    forall k | k in KeySet(files)
      ensures Entries(codec, TouchFiles(codec, files, key, now))[k] ==
              if k == key then Entries(codec, files)[k].(accessedAt := now) else Entries(codec, files)[k]
    {
      TouchEntryAt(codec, files, key, now, k);
    }
  }

  /** Metadata can be loaded for a key exactly when the key is a data file. */
  lemma MetaMeansData(codec: Codec, files: Files, key: string)
    requires Layout(codec, files)
    ensures LoadMeta(codec, files, key).Some? <==> key in KeySet(files)
    ensures MetaPath(key) in files <==> key in KeySet(files)
  {
    SuffixPaths(key);
    assert MetaPath(key) in files ==> Accounted(files, MetaPath(key));
    assert key in KeySet(files) ==> EntryOk(codec, files, key);
  }

  // ---- Sizes ----

  ghost function SumLengths(files: Files, paths: set<string>): nat
    requires paths <= files.Keys
  {
    if paths == {} then 0 else
      var p :| p in paths;
      |files[p]| + SumLengths(files, paths - {p})
  }

  lemma {:induction false} SumRemove(files: Files, paths: set<string>, x: string)
    requires x in paths && paths <= files.Keys
    ensures SumLengths(files, paths) == |files[x]| + SumLengths(files, paths - {x})
    decreases paths
  {
    var p :| p in paths && SumLengths(files, paths) == |files[p]| + SumLengths(files, paths - {p});
    if p != x {
      SumRemove(files, paths - {p}, x);
      SumRemove(files, paths - {x}, p);
      assert paths - {p} - {x} == paths - {x} - {p};
    }
  }

  lemma {:induction false} SumAgree(files: Files, other: Files, paths: set<string>)
    requires paths <= files.Keys && paths <= other.Keys
    requires forall p :: p in paths ==> files[p] == other[p]
    ensures SumLengths(files, paths) == SumLengths(other, paths)
    decreases paths
  {
    if paths != {} {
      var p :| p in paths;
      SumRemove(files, paths, p);
      SumRemove(other, paths, p);
      SumAgree(files, other, paths - {p});
    }
  }

  lemma {:induction false} SumSplit(files: Files, paths: set<string>, part: set<string>)
    requires part <= paths <= files.Keys
    ensures SumLengths(files, paths) == SumLengths(files, part) + SumLengths(files, paths - part)
    decreases part
  {
    if part == {} {
      assert paths - part == paths;
    } else {
      var p :| p in part;
      SumRemove(files, paths, p);
      SumRemove(files, part, p);
      SumSplit(files, paths - {p}, part - {p});
      assert paths - {p} - (part - {p}) == paths - part;
    }
  }

  /** The cache size: every file that is not metadata counts. */
  ghost function TotalBytes(files: Files): nat {
    SumLengths(files, KeySet(files))
  }

  /** The bytes of keys that the directory scan passes over. */
  ghost function HiddenBytes(files: Files): nat {
    SumLengths(files, KeySet(files) - ScanKeys(files))
  }

  lemma PutTotal(codec: Codec, files: Files, key: string, data: Bytes, ttl: int, now: int)
    requires codec.RoundTrips() && Layout(codec, files) && Storable(files, key)
    ensures TotalBytes(PutFiles(codec, files, key, data, ttl, now)) <= TotalBytes(files) + |data|
  {
    var after := PutFiles(codec, files, key, data, ttl, now);
    PutEntries(codec, files, key, data, ttl, now);
    SuffixPaths(key);
    var rest := KeySet(files) - {key};
    assert KeySet(after) - {key} == rest;
    SumRemove(after, KeySet(after), key);
    forall k | k in rest
      ensures after[k] == files[k]
    {
      OtherKeyUntouched(key, k);
    }
    SumAgree(after, files, rest);
    SumSplit(files, KeySet(files), rest);
  }
}
