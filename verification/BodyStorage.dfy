/** Request bodies kept in memory or in a cache file, and the counters of what is kept. A body opened
    for reading behaves the same wherever it is kept.
 */
module BodyStorage {
  import opened Basics

  // ---------------------------------------------------------------------------
  // What a stored body does
  // ---------------------------------------------------------------------------

  /** The stored bytes, the read position, whether it was closed, and the positions of the independent
      readers opened so far. */
  datatype View = View(data: seq<byte>, pos: int, closed: bool, readers: seq<int>)

  /** A read asks for at least one byte. */
  type Amount = n: int | n > 0 witness 1

  /** `ReadFrom` reads from one of the independent readers. */
  datatype Op = Read(n: Amount) | Seek(offset: int, whence: int) | Bytes | NewReader | Close | ReadFrom(reader: nat, n: Amount)

  datatype Result = Chunk(bytes: seq<byte>) | EndOfFile | At(pos: int) | InvalidSeek | StorageClosed | Opened | Nothing

  datatype Effect = Effect(pos: int, result: Result)

  function ReadAt(data: seq<byte>, pos: int, n: nat): Effect {
    if pos < 0 || pos >= |data| then Effect(pos, EndOfFile)
    else
      var end := if pos + n > |data| then |data| else pos + n;
      Effect(end, Chunk(data[pos..end]))
  }

  /** Positions count from the start, from here or from the end; past the end is allowed, before the start
      is not. */
  function SeekTo(data: seq<byte>, pos: int, offset: int, whence: int): Effect {
    var target := if whence == 0 then offset else if whence == 1 then pos + offset else |data| + offset;
    if whence < 0 || whence > 2 || target < 0 then Effect(pos, InvalidSeek) else Effect(target, At(target))
  }

  datatype Step = Step(view: View, result: Result)

  function Next(v: View, op: Op): Step {
    match op
    case ReadFrom(i, n) =>
      if i >= |v.readers| then Step(v, Nothing)
      else
        var e := ReadAt(v.data, v.readers[i], n);
        Step(v.(readers := v.readers[i := e.pos]), e.result)
    case Close => Step(v.(closed := true), Nothing)
    case Read(n) =>
      if v.closed then Step(v, StorageClosed)
      else var e := ReadAt(v.data, v.pos, n); Step(v.(pos := e.pos), e.result)
    case Seek(offset, whence) =>
      if v.closed then Step(v, StorageClosed)
      else var e := SeekTo(v.data, v.pos, offset, whence); Step(v.(pos := e.pos), e.result)
    case Bytes => if v.closed then Step(v, StorageClosed) else Step(v, Chunk(v.data))
    case NewReader => if v.closed then Step(v, StorageClosed) else Step(v.(readers := v.readers + [0]), Opened)
  }

  function Results(v: View, ops: seq<Op>): seq<Result>
    decreases |ops|
  {
    if ops == [] then [] else [Next(v, ops[0]).result] + Results(Next(v, ops[0]).view, ops[1..])
  }

  function After(v: View, ops: seq<Op>): View
    decreases |ops|
  {
    if ops == [] then v else After(Next(v, ops[0]).view, ops[1..])
  }

  lemma {:induction false} RunSnoc(v: View, ops: seq<Op>, op: Op)
    ensures After(v, ops + [op]) == Next(After(v, ops), op).view
    ensures Results(v, ops + [op]) == Results(v, ops) + [Next(After(v, ops), op).result]
    decreases |ops|
  {
    hide Next;
    if ops == [] {
      assert ops + [op] == [op] && [op][1..] == [];
    } else {
      assert (ops + [op])[1..] == ops[1..] + [op];
      RunSnoc(Next(v, ops[0]).view, ops[1..], op);
    }
  }

  // ---------------------------------------------------------------------------
  // What the reference means
  // ---------------------------------------------------------------------------

  /** A read gives the bytes from the position on, at most as many as asked for and at least one, and moves the
      position behind them; at or past the end it gives none and moves nothing. */
  lemma ReadIs(data: seq<byte>, pos: nat, n: Amount, i: nat)
    ensures
      var e := ReadAt(data, pos, n);
      if pos >= |data| then e == Effect(pos, EndOfFile)
      else
        && e.result.Chunk? && e.pos == pos + |e.result.bytes| && 1 <= |e.result.bytes| <= n
        && (|e.result.bytes| < n ==> e.pos == |data|)
        && e.pos <= |data| && (i < |e.result.bytes| ==> e.result.bytes[i] == data[pos + i])
  {
  }

  /** What successive reads of the given sizes give together, up to the end of the file. */
  function ReadOn(data: seq<byte>, pos: nat, sizes: seq<Amount>): seq<byte>
    decreases |sizes|
  {
    if sizes == [] then []
    else
      var e := ReadAt(data, pos, sizes[0]);
      if e.result.Chunk? && e.pos >= 0 then e.result.bytes + ReadOn(data, e.pos, sizes[1..]) else []
  }

  /** Reads of any sizes, enough of them, give exactly the rest of the body. */
  lemma {:induction false} ReadingToTheEnd(data: seq<byte>, pos: nat, sizes: seq<Amount>)
    requires pos <= |data| && |sizes| >= |data| - pos
    ensures ReadOn(data, pos, sizes) == data[pos..]
    decreases |sizes|
  {
    if pos < |data| {
      var e := ReadAt(data, pos, sizes[0]);
      ReadingToTheEnd(data, e.pos, sizes[1..]);
      assert data[pos..] == data[pos..e.pos] + data[e.pos..];
    }
  }

  /** A seek goes to a distance from the start, from the position or from the end, and is refused, moving
      nothing, when that is before the start or the origin is none of the three. */
  lemma SeekIs(data: seq<byte>, pos: nat, offset: int)
    ensures SeekTo(data, pos, offset, 0) == if offset >= 0 then Effect(offset, At(offset)) else Effect(pos, InvalidSeek)
    ensures SeekTo(data, pos, offset, 1) == if pos + offset >= 0 then Effect(pos + offset, At(pos + offset)) else Effect(pos, InvalidSeek)
    ensures SeekTo(data, pos, offset, 2) ==
            if |data| + offset >= 0 then Effect(|data| + offset, At(|data| + offset)) else Effect(pos, InvalidSeek)
    ensures forall whence :: whence < 0 || whence > 2 ==> SeekTo(data, pos, offset, whence) == Effect(pos, InvalidSeek)
  {
  }

  /** Taking all the bytes gives them and moves nothing; a new reader starts at zero and moves no other; a
      reader's reads move that reader alone. */
  lemma ReadersAreIndependent(v: View, k: nat, n: Amount)
    ensures !v.closed ==> Next(v, Bytes) == Step(v, Chunk(v.data))
    ensures !v.closed ==> Next(v, NewReader).result == Opened && Next(v, NewReader).view == v.(readers := v.readers + [0])
    ensures k < |v.readers| ==>
              var e, st := ReadAt(v.data, v.readers[k], n), Next(v, ReadFrom(k, n));
              && st.result == e.result && st.view.pos == v.pos && st.view.data == v.data && st.view.closed == v.closed
              && |st.view.readers| == |v.readers| && st.view.readers[k] == e.pos
              && forall i :: 0 <= i < |v.readers| && i != k ==> st.view.readers[i] == v.readers[i]
    ensures !v.closed ==> Next(v, Read(n)).result == ReadAt(v.data, v.pos, n).result && Next(v, Read(n)).view.readers == v.readers
  {
  }

  /** Once closed, the storage answers nothing but that, for ever, while readers opened before go on. */
  lemma ClosedStays(v: View, op: Op, n: Amount, offset: int, whence: int)
    requires v.closed
    ensures Next(v, op).view.closed && Next(v, op).view.data == v.data && Next(v, op).view.pos == v.pos
    ensures Next(v, Read(n)).result == StorageClosed && Next(v, Seek(offset, whence)).result == StorageClosed
    ensures Next(v, Bytes).result == StorageClosed && Next(v, NewReader).result == StorageClosed
  {
  }

  // ---------------------------------------------------------------------------
  // The two kinds of storage
  // ---------------------------------------------------------------------------

  /** An in-memory reader: the bytes that are left are those behind the index. */
  class BytesReader {
    const data: seq<byte>
    var index: int

    constructor (data: seq<byte>)
      ensures this.data == data && index == 0
    {
      this.data, index := data, 0;
    }

    method Read(n: nat) returns (r: Result)
      requires index >= 0
      modifies this
      ensures index >= 0 && Effect(index, r) == ReadAt(data, old(index), n)
    {
      if index >= |data| {
        return EndOfFile;
      }
      var rest := data[index..];
      var copied := if n < |rest| then rest[..n] else rest;
      assert copied == data[index..index + |copied|];
      index := index + |copied|;
      r := Chunk(copied);
    }

    method Seek(offset: int, whence: int) returns (r: Result)
      requires index >= 0
      modifies this
      ensures index >= 0 && Effect(index, r) == SeekTo(data, old(index), offset, whence)
    {
      var target;
      if whence == 0 {
        target := offset;
      } else if whence == 1 {
        target := index + offset;
      } else if whence == 2 {
        target := |data| + offset;
      } else {
        return InvalidSeek;
      }
      if target < 0 {
        return InvalidSeek;
      }
      index := target;
      r := At(target);
    }
  }

  /** An open file: a descriptor's offset over the file's contents. A read takes bytes one after the other
      until it has enough or the file ends; a seek is refused before it changes the offset. */
  class File {
    const contents: seq<byte>
    var offset: int

    constructor (contents: seq<byte>)
      ensures this.contents == contents && offset == 0
    {
      this.contents, offset := contents, 0;
    }

    method Read(n: nat) returns (r: Result)
      requires offset >= 0
      modifies this
      ensures offset >= 0 && Effect(offset, r) == ReadAt(contents, old(offset), n)
    {
      var start := offset;
      if start >= |contents| {
        return EndOfFile;
      }
      var buffer: seq<byte> := [];
      while |buffer| < n && offset < |contents|
        invariant start <= offset <= |contents| && |buffer| == offset - start <= n
        invariant buffer == contents[start..offset]
      {
        buffer := buffer + [contents[offset]];
        offset := offset + 1;
      }
      r := Chunk(buffer);
    }

    method Seek(distance: int, whence: int) returns (r: Result)
      requires offset >= 0
      modifies this
      ensures offset >= 0 && Effect(offset, r) == SeekTo(contents, old(offset), distance, whence)
    {
      if whence < 0 || whence > 2 {
        return InvalidSeek;
      }
      var origin := if whence == 0 then 0 else if whence == 1 then offset else |contents|;
      if origin + distance < 0 {
        return InvalidSeek;
      }
      offset := origin + distance;
      r := At(offset);
    }
  }

  class MemoryStorage {
    const cache: Cache
    const data: seq<byte>
    const reader: BytesReader
    var closed: bool

    predicate Valid()
      reads reader
    {
      reader.data == data && reader.index >= 0
    }

    constructor (cache: Cache, data: seq<byte>)
      ensures Valid() && this.cache == cache && this.data == data && fresh(reader) && reader.index == 0 && !closed
    {
      var r := new BytesReader(data);
      this.cache, this.data, reader, closed := cache, data, r, false;
    }

    method Read(n: nat) returns (r: Result)
      requires Valid()
      modifies reader
      ensures Valid()
      ensures Effect(reader.index, r) == if closed then Effect(old(reader.index), StorageClosed) else ReadAt(data, old(reader.index), n)
    {
      if closed { return StorageClosed; }
      r := reader.Read(n);
    }

    method Seek(offset: int, whence: int) returns (r: Result)
      requires Valid()
      modifies reader
      ensures Valid()
      ensures Effect(reader.index, r) == if closed then Effect(old(reader.index), StorageClosed) else SeekTo(data, old(reader.index), offset, whence)
    {
      if closed { return StorageClosed; }
      r := reader.Seek(offset, whence);
    }

    method Bytes() returns (r: Result)
      ensures r == if closed then StorageClosed else Chunk(data)
    {
      r := if closed then StorageClosed else Chunk(data);
    }

    method NewReader() returns (r: Result, c: BytesReader?)
      requires Valid()
      ensures if closed then r == StorageClosed && c == null else r == Opened && c != null && fresh(c) && c.data == data && c.index == 0
    {
      if closed { return StorageClosed, null; }
      c := new BytesReader(data);
      r := Opened;
    }

    /** Gives the counters back the first time only. */
    method Close()
      modifies this, cache
      ensures closed && cache.stats == if old(closed) then old(cache.stats) else Removed(old(cache.stats), false, |data|)
    {
      if !closed {
        closed := true;
        cache.stats := cache.stats.(memoryBuffers := cache.stats.memoryBuffers - 1, memoryBytes := cache.stats.memoryBytes - |data|);
      }
    }
  }

  class DiskStorage {
    const cache: Cache
    const file: File
    const size: nat
    var closed: bool

    predicate Valid()
      reads file
    {
      size == |file.contents| && file.offset >= 0
    }

    constructor (cache: Cache, data: seq<byte>)
      ensures Valid() && this.cache == cache && fresh(file) && file.contents == data && size == |data| && file.offset == 0 && !closed
    {
      var f := new File(data);
      this.cache, file, size, closed := cache, f, |data|, false;
    }

    method Read(n: nat) returns (r: Result)
      requires Valid()
      modifies file
      ensures Valid()
      ensures Effect(file.offset, r) == if closed then Effect(old(file.offset), StorageClosed) else ReadAt(file.contents, old(file.offset), n)
    {
      if closed { return StorageClosed; }
      r := file.Read(n);
    }

    method Seek(offset: int, whence: int) returns (r: Result)
      requires Valid()
      modifies file
      ensures Valid()
      ensures Effect(file.offset, r) == if closed then Effect(old(file.offset), StorageClosed) else SeekTo(file.contents, old(file.offset), offset, whence)
    {
      if closed { return StorageClosed; }
      r := file.Seek(offset, whence);
    }

    /** Reads the whole file through the one file position, and puts that position back. */
    method Bytes() returns (r: Result)
      requires Valid()
      modifies file
      ensures Valid() && file.offset == old(file.offset)
      ensures r == if closed then StorageClosed else Chunk(file.contents)
    {
      if closed { return StorageClosed; }
      var here := file.Seek(0, 1);
      var start := file.Seek(0, 0);
      if size == 0 {
        r := Chunk([]);
      } else {
        r := file.Read(size);
      }
      var back := file.Seek(here.pos, 0);
      assert file.contents[0..|file.contents|] == file.contents;
    }

    method NewReader() returns (r: Result, c: File?)
      requires Valid()
      ensures if closed then r == StorageClosed && c == null else r == Opened && c != null && fresh(c) && c.contents == file.contents && c.offset == 0
    {
      if closed { return StorageClosed, null; }
      c := new File(file.contents);
      r := Opened;
    }

    method Close()
      modifies this, cache
      ensures closed && cache.stats == if old(closed) then old(cache.stats) else Removed(old(cache.stats), true, size)
    {
      if !closed {
        closed := true;
        var files, bytes := cache.stats.diskFiles - 1, cache.stats.diskBytes - size;
        if files < 0 { files := 0; }
        if bytes < 0 { bytes := 0; }
        cache.stats := cache.stats.(diskFiles := files, diskBytes := bytes);
      }
    }
  }

  // ---------------------------------------------------------------------------
  // The counters
  // ---------------------------------------------------------------------------

  datatype Config = Config(enabled: bool, threshold: int, maxBytes: int)

  datatype Stats = Stats(diskFiles: int, diskBytes: int, memoryBuffers: int, memoryBytes: int)

  function Added(s: Stats, disk: bool, size: nat): Stats {
    if disk then s.(diskFiles := s.diskFiles + 1, diskBytes := s.diskBytes + size)
    else s.(memoryBuffers := s.memoryBuffers + 1, memoryBytes := s.memoryBytes + size)
  }

  /** The disk counters stop at zero, the memory counters do not. */
  function Removed(s: Stats, disk: bool, size: nat): Stats {
    if disk then
      s.(diskFiles := if s.diskFiles - 1 < 0 then 0 else s.diskFiles - 1,
         diskBytes := if s.diskBytes - size < 0 then 0 else s.diskBytes - size)
    else s.(memoryBuffers := s.memoryBuffers - 1, memoryBytes := s.memoryBytes - size)
  }

  predicate Available(c: Config, s: Stats, size: int) {
    c.enabled && s.diskBytes + size <= c.maxBytes
  }

  predicate ChoosesDisk(c: Config, s: Stats, size: int) {
    c.enabled && size >= c.threshold && Available(c, s, size)
  }

  /** What other requests do to the counters. */
  datatype Change = Adds(disk: bool, size: nat) | Removes(disk: bool, size: nat)

  function Changed(s: Stats, changes: seq<Change>): Stats {
    if changes == [] then s
    else
      var before, last := Changed(s, changes[..|changes| - 1]), changes[|changes| - 1];
      if last.Adds? then Added(before, last.disk, last.size) else Removed(before, last.disk, last.size)
  }

  /** Disk is chosen iff it is switched on, the size reaches the threshold and what is counted leaves room. */
  lemma ChoosesDiskIff(c: Config, s: Stats, size: int)
    ensures ChoosesDisk(c, s, size) <==> c.enabled && c.threshold <= size && size <= c.maxBytes - s.diskBytes
  {
  }

  datatype Storage = Memory(memory: MemoryStorage) | Disk(disk: DiskStorage)

  datatype Creation = Created(storage: Storage) | TooLarge | DiskError

  /** A new storage at its start over the given bytes. */
  ghost predicate Holds(s: Storage, cache: Cache, data: seq<byte>)
    reads if s.Memory? then {s.memory, s.memory.reader} else {s.disk, s.disk.file}
  {
    match s
    case Memory(m) => m.Valid() && m.cache == cache && m.data == data && m.reader.index == 0 && !m.closed
    case Disk(d) => d.Valid() && d.cache == cache && d.file.contents == data && d.file.offset == 0 && !d.closed
  }

  class Cache {
    const config: Config
    var stats: Stats

    constructor (config: Config)
      ensures this.config == config && stats == Stats(0, 0, 0, 0)
    {
      this.config, stats := config, Stats(0, 0, 0, 0);
    }

    /** Other requests run between two steps of this one; nothing holds them off. */
    method Meanwhile(changes: seq<Change>)
      modifies this
      ensures stats == Changed(old(stats), changes)
    {
      for i := 0 to |changes|
        invariant stats == Changed(old(stats), changes[..i])
      {
        assert changes[..i + 1][..i] == changes[..i];
        match changes[i] {
          case Adds(disk, size) => stats := Added(stats, disk, size);
          case Removes(disk, size) => stats := Removed(stats, disk, size);
        }
      }
      assert changes[..|changes|] == changes;
    }

    /** Stores bytes on disk when they are large enough and there is room, falling back to memory when
        the file cannot be written. Room is looked up first and counted last, with other requests in
        between. */
    method Create(data: seq<byte>, diskFails: bool, others: seq<Change>) returns (s: Storage)
      modifies this
      ensures Holds(s, this, data)
      ensures s.Disk? <==> ChoosesDisk(config, old(stats), |data|) && !diskFails
      ensures stats == Added(Changed(old(stats), others), s.Disk?, |data|)
    {
      hide Changed;
      var disk := config.enabled && |data| >= config.threshold && Available(config, stats, |data|) && !diskFails;
      Meanwhile(others);
      if disk {
        stats := stats.(diskFiles := stats.diskFiles + 1, diskBytes := stats.diskBytes + |data|);
        var d := new DiskStorage(this, data);
        s := Disk(d);
      } else {
        stats := stats.(memoryBuffers := stats.memoryBuffers + 1, memoryBytes := stats.memoryBytes + |data|);
        var m := new MemoryStorage(this, data);
        s := Memory(m);
      }
    }

    /** Stores a stream. At most one byte more than allowed is read; whether disk is chosen from the
        declared length before reading or from what was read, an oversized stream is refused. */
    method CreateFromReader(input: seq<byte>, declared: int, maxBytes: int, diskFails: bool, reading: seq<Change>, others: seq<Change>)
      returns (r: Creation)
      modifies this
      ensures
        var direct := declared > 0 && ChoosesDisk(config, old(stats), declared);
        var read := Changed(old(stats), reading);
        && (r == TooLarge <==> |input| > maxBytes && !(direct && diskFails))
        && (r == DiskError <==> direct && diskFails)
        && (r.Created? ==>
              && Holds(r.storage, this, input)
              && (r.storage.Disk? <==> direct || (ChoosesDisk(config, read, |input|) && !diskFails))
              && stats == Added(if direct then read else Changed(read, others), r.storage.Disk?, |input|))
        && (!r.Created? ==> stats == read)
    {
      hide Changed;
      var limit := if maxBytes + 1 < 0 then 0 else maxBytes + 1;
      var got := if |input| > limit then input[..limit] else input;
      var direct := config.enabled && declared > 0 && declared >= config.threshold && Available(config, stats, declared);
      Meanwhile(reading);
      if direct {
        if diskFails { return DiskError; }
        if |got| > maxBytes { return TooLarge; }
        stats := stats.(diskFiles := stats.diskFiles + 1, diskBytes := stats.diskBytes + |got|);
        var d := new DiskStorage(this, got);
        return Created(Disk(d));
      }
      if |got| > maxBytes { return TooLarge; }
      var s := Create(got, diskFails, others);
      r := Created(s);
    }
  }

  // ---------------------------------------------------------------------------
  // Any sequence of uses
  // ---------------------------------------------------------------------------

  /** The independent readers are distinct, over the stored bytes, at the view's positions. */
  ghost predicate TrackReaders(readers: seq<BytesReader>, v: View)
    reads readers
  {
    && |readers| == |v.readers|
    && (forall i :: 0 <= i < |readers| ==> readers[i].data == v.data && readers[i].index == v.readers[i] >= 0)
    && (forall i, j :: 0 <= i < j < |readers| ==> readers[i] != readers[j])
  }

  ghost predicate TrackFiles(files: seq<File>, v: View)
    reads files
  {
    && |files| == |v.readers|
    && (forall i :: 0 <= i < |files| ==> files[i].contents == v.data && files[i].offset == v.readers[i] >= 0)
    && (forall i, j :: 0 <= i < j < |files| ==> files[i] != files[j])
  }

  lemma StartOfRun(v: View)
    ensures After(v, []) == v && Results(v, []) == []
  {
  }

  /** Uses a memory storage and the readers it opens. */
  method UseMemory(s: MemoryStorage, ops: seq<Op>) returns (results: seq<Result>)
    requires s.Valid()
    modifies s, s.reader, s.cache
    ensures results == Results(View(s.data, old(s.reader.index), old(s.closed), []), ops)
  {
    hide Results, After, ReadAt, SeekTo;
    var readers: seq<BytesReader> := [];
    ghost var start := View(s.data, s.reader.index, s.closed, []);
    ghost var view := start;
    results := [];
    StartOfRun(start);
    for i := 0 to |ops|
      invariant s.Valid() && view.data == s.data && view.pos == s.reader.index && view.closed == s.closed
      invariant TrackReaders(readers, view) && forall k :: 0 <= k < |readers| ==> fresh(readers[k]) && readers[k] != s.reader
      invariant view == After(start, ops[..i]) && results == Results(start, ops[..i])
    {
      assert ops[..i + 1] == ops[..i] + [ops[i]];
      RunSnoc(start, ops[..i], ops[i]);
      var r: Result;
      match ops[i] {
        case Read(n) => r := s.Read(n);
        case Seek(offset, whence) => r := s.Seek(offset, whence);
        case Bytes => r := s.Bytes();
        case NewReader =>
          var c;
          r, c := s.NewReader();
          if c != null { readers := readers + [c]; }
        case Close =>
          s.Close();
          r := Nothing;
        case ReadFrom(k, n) =>
          if k < |readers| {
            r := readers[k].Read(n);
          } else {
            r := Nothing;
          }
      }
      results := results + [r];
      view := Next(view, ops[i]).view;
    }
    assert ops[..|ops|] == ops;
  }

  /** Uses a disk storage and the readers it opens. */
  method UseDisk(s: DiskStorage, ops: seq<Op>) returns (results: seq<Result>)
    requires s.Valid()
    modifies s, s.file, s.cache
    ensures results == Results(View(s.file.contents, old(s.file.offset), old(s.closed), []), ops)
  {
    hide Results, After, ReadAt, SeekTo;
    var readers: seq<File> := [];
    ghost var start := View(s.file.contents, s.file.offset, s.closed, []);
    ghost var view := start;
    results := [];
    StartOfRun(start);
    for i := 0 to |ops|
      invariant s.Valid() && view.data == s.file.contents && view.pos == s.file.offset && view.closed == s.closed
      invariant TrackFiles(readers, view) && forall k :: 0 <= k < |readers| ==> fresh(readers[k]) && readers[k] != s.file
      invariant view == After(start, ops[..i]) && results == Results(start, ops[..i])
    {
      assert ops[..i + 1] == ops[..i] + [ops[i]];
      RunSnoc(start, ops[..i], ops[i]);
      var r: Result;
      match ops[i] {
        case Read(n) => r := s.Read(n);
        case Seek(offset, whence) => r := s.Seek(offset, whence);
        case Bytes => r := s.Bytes();
        case NewReader =>
          var c;
          r, c := s.NewReader();
          if c != null { readers := readers + [c]; }
        case Close =>
          s.Close();
          r := Nothing;
        case ReadFrom(k, n) =>
          if k < |readers| {
            r := readers[k].Read(n);
          } else {
            r := Nothing;
          }
      }
      results := results + [r];
      view := Next(view, ops[i]).view;
    }
    assert ops[..|ops|] == ops;
  }

  /** The same bytes, kept either way and used in the same way, give the same results. */
  method CompareStorages(cache: Cache, data: seq<byte>, ops: seq<Op>) returns (memory: seq<Result>, disk: seq<Result>)
    modifies cache
    ensures memory == disk == Results(View(data, 0, false, []), ops)
  {
    var m := new MemoryStorage(cache, data);
    var d := new DiskStorage(cache, data);
    memory := UseMemory(m, ops);
    disk := UseDisk(d, ops);
  }

  // ---------------------------------------------------------------------------
  // The counters over runs
  // ---------------------------------------------------------------------------

  /** A stored body. */
  datatype Body = Body(disk: bool, size: nat, live: bool)

  /** A body on its way: still being read, admitted to disk or to memory but not counted yet, or over. */
  datatype Coming = Reading(size: nat, diskFails: bool) | Admitted(disk: bool, size: nat) | Over

  datatype World = World(stats: Stats, coming: seq<Coming>, bodies: seq<Body>)

  /** The steps of all requests. Between the step that looks up the room (`Stream` or `Decide`) and the
      one that counts (`Commit`) any other steps can come. */
  datatype Event =
    | Buffer(size: nat, diskFails: bool)
    | Stream(size: nat, declared: int, maxBytes: int, diskFails: bool)
    | Decide(request: nat)
    | Commit(request: nat)
    | Shut(body: nat)

  const Empty := World(Stats(0, 0, 0, 0), [], [])

  predicate DirectToDisk(c: Config, w: World, e: Event) {
    e.Stream? && e.declared > 0 && ChoosesDisk(c, w.stats, e.declared)
  }

  function Move(c: Config, w: World, e: Event): World {
    match e
    case Buffer(size, diskFails) => w.(coming := w.coming + [Reading(size, diskFails)])
    case Stream(size, _, maxBytes, diskFails) =>
      var direct := DirectToDisk(c, w, e);
      w.(coming := w.coming + [if size > maxBytes || (direct && diskFails) then Over
                               else if direct then Admitted(true, size) else Reading(size, diskFails)])
    case Decide(i) =>
      if i < |w.coming| && w.coming[i].Reading? then
        var r := w.coming[i];
        w.(coming := w.coming[i := Admitted(ChoosesDisk(c, w.stats, r.size) && !r.diskFails, r.size)])
      else w
    case Commit(i) =>
      if i < |w.coming| && w.coming[i].Admitted? then
        var a := w.coming[i];
        World(Added(w.stats, a.disk, a.size), w.coming[i := Over], w.bodies + [Body(a.disk, a.size, true)])
      else w
    case Shut(i) =>
      if i < |w.bodies| && w.bodies[i].live
      then w.(stats := Removed(w.stats, w.bodies[i].disk, w.bodies[i].size), bodies := w.bodies[i := w.bodies[i].(live := false)])
      else w
  }

  function Moves(c: Config, w: World, events: seq<Event>): World
    decreases |events|
  {
    if events == [] then w else Moves(c, Move(c, w, events[0]), events[1..])
  }

  /** How many bodies are live on disk or in memory, and how many bytes they hold. */
  function Number(bodies: seq<Body>, disk: bool): nat {
    if bodies == [] then 0 else (if bodies[0].live && bodies[0].disk == disk then 1 else 0) + Number(bodies[1..], disk)
  }

  function Volume(bodies: seq<Body>, disk: bool): nat {
    if bodies == [] then 0 else (if bodies[0].live && bodies[0].disk == disk then bodies[0].size else 0) + Volume(bodies[1..], disk)
  }

  predicate Exact(w: World) {
    w.stats == Stats(Number(w.bodies, true), Volume(w.bodies, true), Number(w.bodies, false), Volume(w.bodies, false))
  }

  lemma {:induction false} StoreCounts(bodies: seq<Body>, b: Body, disk: bool)
    ensures Number(bodies + [b], disk) == Number(bodies, disk) + if b.live && b.disk == disk then 1 else 0
    ensures Volume(bodies + [b], disk) == Volume(bodies, disk) + if b.live && b.disk == disk then b.size else 0
  {
    if bodies == [] {
      assert bodies + [b] == [b] && [b][1..] == [];
    } else {
      assert (bodies + [b])[1..] == bodies[1..] + [b];
      StoreCounts(bodies[1..], b, disk);
    }
  }

  lemma {:induction false} ShutCounts(bodies: seq<Body>, i: nat, disk: bool)
    requires i < |bodies| && bodies[i].live
    ensures
      var shut := bodies[i := bodies[i].(live := false)];
      && Number(shut, disk) == Number(bodies, disk) - (if bodies[i].disk == disk then 1 else 0)
      && Volume(shut, disk) == Volume(bodies, disk) - (if bodies[i].disk == disk then bodies[i].size else 0)
  {
    var b := bodies[i].(live := false);
    if i == 0 {
      assert bodies[i := b][1..] == bodies[1..];
    } else {
      assert bodies[i := b][1..] == bodies[1..][i - 1 := b];
      ShutCounts(bodies[1..], i - 1, disk);
    }
  }

  lemma MoveKeepsExact(c: Config, w: World, e: Event)
    requires Exact(w)
    ensures Exact(Move(c, w, e))
  {
    hide Number, Volume, ChoosesDisk, DirectToDisk;
    match e
    case Buffer(_, _) =>
    case Stream(_, _, _, _) =>
    case Decide(_) =>
    case Commit(i) =>
      if i < |w.coming| && w.coming[i].Admitted? {
        var b := Body(w.coming[i].disk, w.coming[i].size, true);
        StoreCounts(w.bodies, b, true);
        StoreCounts(w.bodies, b, false);
      }
    case Shut(i) =>
      if i < |w.bodies| && w.bodies[i].live {
        ShutCounts(w.bodies, i, true);
        ShutCounts(w.bodies, i, false);
      }
  }

  /** Over every interleaving of requests, and of closes repeated or not, the counters are the number and
      the bytes of the open storages. */
  lemma {:induction false} CountersAreExact(c: Config, w: World, events: seq<Event>)
    requires Exact(w)
    ensures Exact(Moves(c, w, events))
    decreases |events|
  {
    hide Exact, Move;
    if events != [] {
      MoveKeepsExact(c, w, events[0]);
      CountersAreExact(c, Move(c, w, events[0]), events[1..]);
    }
  }

  // ---------------------------------------------------------------------------
  // The disk limit
  // ---------------------------------------------------------------------------

  predicate Within(c: Config, w: World) {
    w.stats.diskBytes <= c.maxBytes
  }

  /** Disk use is within the limit at every point of the run. */
  predicate AlwaysWithin(c: Config, w: World, events: seq<Event>)
    decreases |events|
  {
    Within(c, w) && (events != [] ==> AlwaysWithin(c, Move(c, w, events[0]), events[1..]))
  }

  /** The event counts a body on disk. */
  predicate CommitsDisk(w: World, e: Event) {
    e.Commit? && e.request < |w.coming| && w.coming[e.request].Admitted? && w.coming[e.request].disk
  }

  /** Every body that is counted on disk still fits when it is counted. */
  predicate CommitsFit(c: Config, w: World, events: seq<Event>)
    decreases |events|
  {
    events != [] ==>
      && (CommitsDisk(w, events[0]) ==> w.stats.diskBytes + w.coming[events[0].request].size <= c.maxBytes)
      && CommitsFit(c, Move(c, w, events[0]), events[1..])
  }

  /** A run that starts within the limit stays within it iff every body still fits when it is counted; that
      it fitted when the room was looked up is not enough. */
  lemma {:induction false} WithinIffCommitsFit(c: Config, w: World, events: seq<Event>)
    requires Exact(w) && Within(c, w)
    ensures AlwaysWithin(c, w, events) <==> CommitsFit(c, w, events)
    decreases |events|
  {
    hide Exact, Move;
    if events != [] {
      var w' := Move(c, w, events[0]);
      MoveKeepsExact(c, w, events[0]);
      MoveOnDisk(c, w, events[0]);
      if Within(c, w') { WithinIffCommitsFit(c, w', events[1..]); }
    }
  }

  /** Only a commit raises disk use, by the size of what it counts. */
  lemma MoveOnDisk(c: Config, w: World, e: Event)
    requires Exact(w)
    ensures
      var was, now := w.stats.diskBytes, Move(c, w, e).stats.diskBytes;
      if CommitsDisk(w, e) then now == was + w.coming[e.request].size else now <= was
  {
    hide Number, Volume;
  }

  /** Two requests of six bytes each look up the room before either is counted: both fit in ten, and
      together they take twelve. */
  lemma TwoRequestsPassTheLimit()
    ensures
      var c := Config(true, 1, 10);
      Moves(c, Empty, [Buffer(6, false), Buffer(6, false), Decide(0), Decide(1), Commit(0), Commit(1)]).stats.diskBytes == 12 > c.maxBytes
  {
    var c := Config(true, 1, 10);
    var events := [Buffer(6, false), Buffer(6, false), Decide(0), Decide(1), Commit(0), Commit(1)];
    var w1 := Move(c, Empty, events[0]);
    var w2 := Move(c, w1, events[1]);
    var w3 := Move(c, w2, events[2]);
    var w4 := Move(c, w3, events[3]);
    assert w4.coming == [Admitted(true, 6), Admitted(true, 6)];
    var w5 := Move(c, w4, events[4]);
    var w6 := Move(c, w5, events[5]);
    assert w6.stats.diskBytes == 12;
    MovesUnfold(c, Empty, events);
    MovesUnfold(c, w1, events[1..]);
    MovesUnfold(c, w2, events[1..][1..]);
    MovesUnfold(c, w3, events[1..][1..][1..]);
    MovesUnfold(c, w4, events[1..][1..][1..][1..]);
    MovesUnfold(c, w5, events[1..][1..][1..][1..][1..]);
  }

  lemma MovesUnfold(c: Config, w: World, events: seq<Event>)
    requires events != []
    ensures Moves(c, w, events) == Moves(c, Move(c, w, events[0]), events[1..])
  {
  }

  /** A stream that carries more than it declares is admitted by what it declares. */
  lemma DishonestStreamPassesTheCap()
    ensures
      var c := Config(true, 1, 10);
      Moves(c, Empty, [Stream(20, 5, 100, false), Commit(0)]).stats.diskBytes == 20 > c.maxBytes
  {
    var c, e := Config(true, 1, 10), Stream(20, 5, 100, false);
    var w := Move(c, Empty, e);
    assert w.coming == [Admitted(true, 20)];
    assert [e, Commit(0)][1..] == [Commit(0)];
    MovesUnfold(c, w, [Commit(0)]);
  }

  /** What is admitted to disk and not counted yet. */
  function Uncounted(coming: seq<Coming>): nat {
    if coming == [] then 0
    else (if coming[0].Admitted? && coming[0].disk then coming[0].size else 0) + Uncounted(coming[1..])
  }

  /** The declared length of a stream is not less than what it carries. */
  predicate Honest(e: Event) {
    e.Stream? && e.declared > 0 ==> e.size <= e.declared
  }

  /** The event admits a body to disk. */
  predicate AdmitsDisk(c: Config, w: World, e: Event) {
    || (DirectToDisk(c, w, e) && e.size <= e.maxBytes && !e.diskFails)
    || (&& e.Decide? && e.request < |w.coming| && w.coming[e.request].Reading?
        && ChoosesDisk(c, w.stats, w.coming[e.request].size) && !w.coming[e.request].diskFails)
  }

  /** Whenever a body is admitted to disk, at most `slack` bytes are admitted and not counted yet. */
  predicate Slack(c: Config, w: World, events: seq<Event>, slack: nat)
    decreases |events|
  {
    events != [] ==>
      && (AdmitsDisk(c, w, events[0]) ==> Uncounted(w.coming) <= slack)
      && Slack(c, Move(c, w, events[0]), events[1..], slack)
  }

  lemma {:induction false} UncountedAppend(coming: seq<Coming>, x: Coming)
    ensures Uncounted(coming + [x]) == Uncounted(coming) + if x.Admitted? && x.disk then x.size else 0
  {
    if coming == [] {
      assert coming + [x] == [x] && [x][1..] == [];
    } else {
      assert (coming + [x])[1..] == coming[1..] + [x];
      UncountedAppend(coming[1..], x);
    }
  }

  lemma {:induction false} UncountedUpdate(coming: seq<Coming>, i: nat, x: Coming)
    requires i < |coming|
    ensures
      Uncounted(coming[i := x]) ==
      Uncounted(coming) - (if coming[i].Admitted? && coming[i].disk then coming[i].size else 0) + (if x.Admitted? && x.disk then x.size else 0)
  {
    if i == 0 {
      assert coming[i := x][1..] == coming[1..];
    } else {
      assert coming[i := x][1..] == coming[1..][i - 1 := x];
      UncountedUpdate(coming[1..], i - 1, x);
    }
  }

  lemma MoveKeepsBound(c: Config, w: World, e: Event, slack: nat)
    requires Exact(w) && Honest(e) && (AdmitsDisk(c, w, e) ==> Uncounted(w.coming) <= slack)
    requires w.stats.diskBytes + Uncounted(w.coming) <= c.maxBytes + slack
    ensures
      var w' := Move(c, w, e);
      w'.stats.diskBytes + Uncounted(w'.coming) <= c.maxBytes + slack
  {
    hide Number, Volume, Uncounted;
    var w' := Move(c, w, e);
    match e
    case Buffer(size, diskFails) => UncountedAppend(w.coming, Reading(size, diskFails));
    case Stream(_, _, _, _) => UncountedAppend(w.coming, w'.coming[|w.coming|]);
    case Decide(i) => if i < |w.coming| { UncountedUpdate(w.coming, i, w'.coming[i]); }
    case Commit(i) => if i < |w.coming| { UncountedUpdate(w.coming, i, Over); }
    case Shut(_) =>
  }

  /** With honest lengths, disk use never passes the limit by more than what was admitted and not counted
      at some admission of the run; in particular not at all when bodies are admitted one at a time. */
  lemma {:induction false} OvershootIsBounded(c: Config, w: World, events: seq<Event>, slack: nat)
    requires Exact(w) && Slack(c, w, events, slack) && forall i :: 0 <= i < |events| ==> Honest(events[i])
    requires w.stats.diskBytes + Uncounted(w.coming) <= c.maxBytes + slack
    ensures Moves(c, w, events).stats.diskBytes <= c.maxBytes + slack
    decreases |events|
  {
    hide Exact, Move, Honest, AdmitsDisk, Uncounted;
    if events != [] {
      MoveKeepsExact(c, w, events[0]);
      MoveKeepsBound(c, w, events[0], slack);
      OvershootIsBounded(c, Move(c, w, events[0]), events[1..], slack);
    }
  }

  /** Closing a body again, at any later point, changes nothing. */
  lemma {:induction false} StaysShut(c: Config, w: World, i: nat, events: seq<Event>)
    requires i < |w.bodies| && !w.bodies[i].live
    ensures
      var w' := Moves(c, w, events);
      i < |w'.bodies| && !w'.bodies[i].live && Move(c, w', Shut(i)) == w'
    decreases |events|
  {
    if events != [] {
      StaysShut(c, Move(c, w, events[0]), i, events[1..]);
    }
  }
}
