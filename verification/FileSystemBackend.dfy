/** The file-system cache backend (cache/filesystem.go) and the byte readers it exchanges with its callers. */
module FileSystemBackend {
  import opened Common
  import opened CacheTypes
  import opened CacheFiles

  /** A reader over a byte sequence that hands out at most a buffer's worth at a time. */
  class BytesReader {
    const data: Bytes
    var pos: nat

    constructor (data: Bytes)
      ensures this.data == data && pos == 0
    {
      this.data := data;
      pos := 0;
    }

    ghost function Rest(): Bytes
      reads this
    {
      if pos <= |data| then data[pos..] else []
    }

    method Read(bufferSize: nat) returns (chunk: Bytes, eof: bool)
      modifies this
      ensures eof <==> old(pos) >= |data|
      ensures eof ==> chunk == []
      ensures !eof ==> old(Rest()) != [] && |chunk| == if bufferSize < |old(Rest())| then bufferSize else |old(Rest())|
      ensures old(Rest()) == chunk + Rest()
    {
      if pos >= |data| {
        return [], true;
      }
      var n := if bufferSize < |data| - pos then bufferSize else |data| - pos;
      chunk := data[pos..pos + n];
      assert data[pos..] == chunk + data[pos + n..];
      pos := pos + n;
      eof := false;
    }
  }

  /** Reads chunk after chunk until end of file. */
  method ReadAll(reader: BytesReader, bufferSize: nat) returns (all: Bytes)
    requires bufferSize > 0
    modifies reader
    ensures all == old(reader.Rest())
  {
    all := [];
    ghost var whole := reader.Rest();
    while true
      invariant all + reader.Rest() == whole
      decreases |reader.Rest()|
    {
      ghost var so, left := all, reader.Rest();
      var chunk, eof := reader.Read(bufferSize);
      all := all + chunk;
      assert so + left == all + reader.Rest();
      if eof {
        break;
      }
    }
  }

  class Backend {
    const codec: Codec
    var files: Files
    /** Keys whose access-time update has been scheduled in the background and has not run yet. */
    var pending: multiset<string>

    ghost predicate Valid()
      reads this
    {
      codec.RoundTrips() && Layout(codec, files)
    }

    constructor (codec: Codec)
      requires codec.RoundTrips()
      ensures Valid() && this.codec == codec && files == map[] && pending == multiset{}
    {
      this.codec := codec;
      files := map[];
      pending := multiset{};
    }

    method Get(key: string, now: int) returns (reader: Option<BytesReader>)
      modifies this
      ensures match LoadMeta(codec, old(files), key)
              case None => reader == None && files == old(files) && pending == old(pending)
              case Some(m) =>
                if Expired(m, now) then
                  reader == None && files == RemoveFiles(old(files), key) && pending == old(pending)
                else
                  && files == old(files)
                  && (reader.Some? <==> key in files)
                  && (reader.Some? ==> fresh(reader.value) && reader.value.Rest() == files[key])
                  && pending == old(pending) + if reader.Some? then multiset{key} else multiset{}
    {
      match LoadMeta(codec, files, key)
      case None =>
        reader := None;
      case Some(meta) =>
        if Expired(meta, now) {
          files := files - {key};
          files := files - {MetaPath(key)};
          assert files == RemoveFiles(old(files), key);
          reader := None;
        } else if key in files {
          var file := new BytesReader(files[key]);
          pending := pending + multiset{key};
          reader := Some(file);
        } else {
          reader := None;
        }
    }

    method Put(key: string, data: BytesReader, ttl: int, now: int)
      modifies this, data
      ensures files == PutFiles(codec, old(files), key, old(data.Rest()), ttl, now)
      ensures pending == old(pending)
    {
      var temp := TempPath(key);
      files := files[temp := []];
      var bytes := ReadAll(data, 32 * 1024);
      files := files[temp := files[temp] + bytes];
      var size := |bytes|;
      assert files[temp] == bytes;
      files := (files - {temp})[key := files[temp]];
      assert files == (old(files) - {temp})[key := bytes];
      files := files[MetaPath(key) := codec.marshal(CacheMetadata(key, size, now, now, ttl))];
    }

    method Exists(key: string, now: int) returns (found: bool)
      ensures found <==> key in files && LoadMeta(codec, files, key).Some? && !Expired(LoadMeta(codec, files, key).value, now)
    {
      if key !in files {
        return false;
      }
      match LoadMeta(codec, files, key)
      case None => found := false;
      case Some(meta) => found := !Expired(meta, now);
    }

    method Delete(key: string)
      modifies this
      ensures files == RemoveFiles(old(files), key) && pending == old(pending)
    {
      files := files - {key};
      files := files - {MetaPath(key)};
      assert files == RemoveFiles(old(files), key);
    }

    method Clear()
      modifies this
      ensures files == map[] && pending == old(pending)
    {
      files := map[];
    }

    /** The directory walk that adds up every file that is not metadata. */
    method Size() returns (total: nat)
      ensures total == TotalBytes(files)
    {
      total := 0;
      var todo := files.Keys;
      ghost var counted: set<string> := {};
      while todo != {}
        invariant todo <= files.Keys
        invariant counted == (set p | p in files.Keys - todo && !IsMeta(p))
        invariant total == SumLengths(files, counted)
        decreases todo
      {
        var path :| path in todo;
        todo := todo - {path};
        if !IsMeta(path) {
          total := total + |files[path]|;
          SumRemove(files, counted + {path}, path);
          assert counted + {path} - {path} == counted;
          counted := counted + {path};
        }
      }
      assert counted == KeySet(files);
    }

    /** One background access-time update: the key may have been replaced or deleted since it was scheduled. */
    method UpdateAccessTime(key: string, now: int)
      requires key in pending
      modifies this
      ensures files == TouchFiles(codec, old(files), key, now)
      ensures pending == old(pending) - multiset{key}
    {
      pending := pending - multiset{key};
      match LoadMeta(codec, files, key)
      case None =>
      case Some(meta) =>
        files := files[MetaPath(key) := codec.marshal(meta.(accessedAt := now))];
    }
  }
}
