/** Request bodies kept in memory or on disk behind one interface. */
module BodyStorage {

  import opened ByteStrings
  import opened Int64Arithmetic

  datatype Whence = FromStart | FromCurrent | FromEnd

  datatype Error = StorageClosed | EndOfFile | NegativePosition | TooLarge | DiskFailed

  /** What a caller sees of one call. */
  datatype Answer = Got(bytes: Bytes) | Position(at: nat) | Length(n: nat) | Opened | Done | Failed(error: Error)

  /** The calls of BodyStorage, and reads of a replay reader by its number. */
  datatype Op =
    | Read(n: nat)
    | Seek(offset: int, whence: Whence)
    | AllBytes
    | Size
    | NewReader
    | ReaderRead(reader: nat, n: nat)
    | Close

  // ----- the interface -----

  /** The payload, the cursor, and the cursors of the replay readers. */
  datatype State = State(data: Bytes, pos: nat, closed: bool, readers: seq<nat>)

  /** Reads are non-empty, and only readers that were opened are read. */
  predicate Proper(s: State, op: Op) {
    match op
    case Read(n) => n > 0
    case ReaderRead(r, n) => n > 0 && r < |s.readers|
    case _ => true
  }

  function ReadAt(data: Bytes, pos: nat, n: nat): (Answer, nat) {
    if pos >= |data| then (Failed(EndOfFile), pos)
    else
      var k := if n <= |data| - pos then n else |data| - pos;
      (Got(data[pos..pos + k]), pos + k)
  }

  function SeekTo(length: nat, pos: nat, offset: int, whence: Whence): (Answer, nat) {
    var base := match whence case FromStart => 0 case FromCurrent => pos case FromEnd => length;
    if base + offset < 0 then (Failed(NegativePosition), pos) else (Position(base + offset), base + offset)
  }

  function Step(s: State, op: Op): (Answer, State)
    requires Proper(s, op)
  {
    if s.closed && (op.Read? || op.Seek? || op.AllBytes? || op.NewReader?) then
      (Failed(StorageClosed), s)
    else
      match op
      case Read(n) => var (a, p) := ReadAt(s.data, s.pos, n); (a, s.(pos := p))
      case Seek(offset, whence) =>
        var (a, p) := SeekTo(|s.data|, s.pos, offset, whence);
        (a, s.(pos := p))
      case AllBytes => (Got(s.data), s)
      case Size => (Length(|s.data|), s)
      case NewReader => (Opened, s.(readers := s.readers + [0]))
      case ReaderRead(r, n) =>
        var (a, p) := ReadAt(s.data, s.readers[r], n);
        (a, s.(readers := s.readers[r := p]))
      case Close => (Done, s.(closed := true))
  }

  ghost predicate ProperRun(s: State, ops: seq<Op>)
    decreases |ops|
  {
    ops == [] || (Proper(s, ops[0]) && ProperRun(Step(s, ops[0]).1, ops[1..]))
  }

  ghost function Answers(s: State, ops: seq<Op>): seq<Answer>
    requires ProperRun(s, ops)
    decreases |ops|
  {
    if ops == [] then [] else [Step(s, ops[0]).0] + Answers(Step(s, ops[0]).1, ops[1..])
  }

  function Fresh(data: Bytes): State {
    State(data, 0, false, [])
  }

  /** Replay readers do not depend on the cursor and outlive Close. */
  lemma ReadersAreIndependent(s: State, op: Op, r: nat, n: nat)
    requires Proper(s, op) && r < |s.readers| && n > 0
    requires !(op.ReaderRead? && op.reader == r)
    ensures var t := Step(s, op).1;
            && Proper(t, ReaderRead(r, n))
            && Step(t, ReaderRead(r, n)).0 == Step(s, ReaderRead(r, n)).0
            && t.data == s.data
  {
  }

  ghost function Pull(data: Bytes, pos: nat, sizes: seq<nat>): Bytes
    decreases |sizes|
  {
    if sizes == [] then []
    else
      var (a, p) := ReadAt(data, pos, sizes[0]);
      (if a.Got? then a.bytes else []) + Pull(data, p, sizes[1..])
  }

  function Sum(sizes: seq<nat>): nat {
    if sizes == [] then 0 else sizes[0] + Sum(sizes[1..])
  }

  /** n bytes further, or the end. */
  function Until(data: Bytes, pos: nat, n: nat): (end: nat)
    requires pos <= |data|
    ensures pos <= end <= |data|
  {
    if pos + n <= |data| then pos + n else |data|
  }

  lemma ReadPiece(data: Bytes, pos: nat, n: nat)
    requires pos <= |data|
    ensures var (a, p) := ReadAt(data, pos, n);
            p == Until(data, pos, n) && (if a.Got? then a.bytes else []) == data[pos..p]
  {
  }

  lemma Pieces(data: Bytes, a: nat, b: nat, c: nat)
    requires a <= b <= c <= |data|
    ensures data[a..b] + data[b..c] == data[a..c]
  {
  }

  /** However a reader is read, the pieces are the next bytes of the payload in
      order, without gap or repetition. */
  lemma {:induction false} ReadsAreContiguous(data: Bytes, pos: nat, sizes: seq<nat>)
    requires pos <= |data|
    ensures Pull(data, pos, sizes) == data[pos..Until(data, pos, Sum(sizes))]
    decreases |sizes|
  {
    if sizes != [] {
      var p := Until(data, pos, sizes[0]);
      ReadPiece(data, pos, sizes[0]);
      ReadsAreContiguous(data, p, sizes[1..]);
      Pieces(data, pos, p, Until(data, p, Sum(sizes[1..])));
    }
  }

  // ----- what the calls mean for each other -----

  /** The bytes a sequence of reads returns, and the storage afterwards. */
  ghost function ReadOut(s: State, sizes: seq<nat>): (Bytes, State)
    requires forall i :: 0 <= i < |sizes| ==> sizes[i] > 0
    decreases |sizes|
  {
    if sizes == [] then ([], s)
    else
      var (a, t) := Step(s, Read(sizes[0]));
      var (more, u) := ReadOut(t, sizes[1..]);
      ((if a.Got? then a.bytes else []) + more, u)
  }

  lemma ReadOutNext(s: State, sizes: seq<nat>, p: nat)
    requires !s.closed && s.pos <= |s.data| && sizes != [] && forall i :: 0 <= i < |sizes| ==> sizes[i] > 0
    requires p == Until(s.data, s.pos, sizes[0])
    ensures var (more, u) := ReadOut(s.(pos := p), sizes[1..]);
            ReadOut(s, sizes) == (s.data[s.pos..p] + more, u)
  {
    ReadPiece(s.data, s.pos, sizes[0]);
    assert Step(s, Read(sizes[0])).1 == s.(pos := p);
  }

  /** Reads of an open storage return the next bytes from the cursor on, and move it
      behind what they returned. */
  lemma {:induction false} ReadsFromCursor(s: State, sizes: seq<nat>)
    requires !s.closed && s.pos <= |s.data| && forall i :: 0 <= i < |sizes| ==> sizes[i] > 0
    ensures var end := Until(s.data, s.pos, Sum(sizes));
            ReadOut(s, sizes) == (s.data[s.pos..end], s.(pos := end))
    decreases |sizes|
  {
    if sizes != [] {
      var p := Until(s.data, s.pos, sizes[0]);
      ReadOutNext(s, sizes, p);
      ReadsFromCursor(s.(pos := p), sizes[1..]);
      Pieces(s.data, s.pos, p, Until(s.data, p, Sum(sizes[1..])));
    } else {
      assert s.data[s.pos..s.pos] == [] && s.(pos := s.pos) == s;
    }
  }

  /** Where a seek goes: the offset from the start, from the cursor or from the end. */
  function Target(s: State, offset: int, whence: Whence): int {
    match whence
    case FromStart => offset
    case FromCurrent => s.pos + offset
    case FromEnd => |s.data| + offset
  }

  /** A seek on an open storage answers its target and moves the cursor there; before
      the start it fails and changes nothing. */
  lemma SeekAnswers(s: State, offset: int, whence: Whence)
    requires !s.closed
    ensures var (a, t) := Step(s, Seek(offset, whence));
            var q := Target(s, offset, whence);
            if q < 0 then a == Failed(NegativePosition) && t == s else a == Position(q) && t == s.(pos := q)
  {
  }

  /** The reads after a seek return the bytes from its target on. */
  lemma SeekThenRead(s: State, offset: int, whence: Whence, sizes: seq<nat>)
    requires !s.closed && forall i :: 0 <= i < |sizes| ==> sizes[i] > 0
    requires 0 <= Target(s, offset, whence) <= |s.data|
    ensures var q := Target(s, offset, whence);
            ReadOut(Step(s, Seek(offset, whence)).1, sizes).0 ==
            s.data[q..if q + Sum(sizes) <= |s.data| then q + Sum(sizes) else |s.data|]
  {
    SeekAnswers(s, offset, whence);
    ReadsFromCursor(s.(pos := Target(s, offset, whence)), sizes);
  }

  /** Behind the end there is nothing to read. */
  lemma SeekBeyondEnd(s: State, offset: int, whence: Whence, n: nat)
    requires !s.closed && Target(s, offset, whence) >= |s.data| && n > 0
    ensures Step(Step(s, Seek(offset, whence)).1, Read(n)).0 == Failed(EndOfFile)
  {
  }

  /** Rewinding replays: after any reads, a seek to the start and reads of the whole
      length return the payload. */
  lemma Rewind(s: State, sizes: seq<nat>, again: seq<nat>)
    requires !s.closed && s.pos <= |s.data| && Sum(again) >= |s.data|
    requires forall i :: 0 <= i < |sizes| ==> sizes[i] > 0
    requires forall i :: 0 <= i < |again| ==> again[i] > 0
    ensures ReadOut(Step(ReadOut(s, sizes).1, Seek(0, FromStart)).1, again).0 == s.data
  {
    ReadsFromCursor(s, sizes);
    SeekThenRead(ReadOut(s, sizes).1, 0, FromStart, again);
  }

  /** A seek from the cursor counts the bytes read since the last position. */
  lemma SeekFromCursor(s: State, at: nat, sizes: seq<nat>, offset: int)
    requires !s.closed && at + Sum(sizes) <= |s.data| && forall i :: 0 <= i < |sizes| ==> sizes[i] > 0
    ensures var t := ReadOut(Step(s, Seek(at, FromStart)).1, sizes).1;
            Step(t, Seek(offset, FromCurrent)).0 ==
            if at + Sum(sizes) + offset < 0 then Failed(NegativePosition) else Position(at + Sum(sizes) + offset)
  {
    ReadsFromCursor(Step(s, Seek(at, FromStart)).1, sizes);
  }

  /** Bytes returns the whole payload and Size its length, and both leave everything
      as it was. A new reader starts at the beginning. */
  lemma WholePayload(s: State)
    ensures !s.closed ==> Step(s, AllBytes) == (Got(s.data), s)
    ensures Step(s, Size) == (Length(|s.data|), s)
    ensures !s.closed ==>
      var (a, t) := Step(s, NewReader);
      a == Opened && t == s.(readers := s.readers + [0]) && Step(s, Close) == (Done, s.(closed := true))
  {
  }

  /** After Close, in every run: reads, seeks, Bytes and new readers are refused, and
      the storage stays closed. */
  lemma {:induction false} ClosedForGood(s: State, ops: seq<Op>, i: nat)
    requires s.closed && ProperRun(s, ops) && i < |ops|
    ensures |Answers(s, ops)| == |ops|
    ensures ops[i].Read? || ops[i].Seek? || ops[i].AllBytes? || ops[i].NewReader? ==>
      Answers(s, ops)[i] == Failed(StorageClosed)
    decreases |ops|
  {
    var t := Step(s, ops[0]).1;
    if |ops| > 1 {
      ClosedForGood(t, ops[1..], if i > 0 then i - 1 else 0);
    }
  }

  // ----- memoryStorage -----

  class MemoryStorage {
    const data: Bytes
    const size: nat
    var readerPos: nat
    var closed: bool
    var readers: seq<nat>

    ghost function Abstract(): State
      reads this
    {
      State(data, readerPos, closed, readers)
    }

    constructor (data: Bytes)
      ensures Abstract() == Fresh(data) && size == |data|
    {
      this.data, size, readerPos, closed, readers := data, |data|, 0, false, [];
    }

    method Do(op: Op) returns (a: Answer)
      requires size == |data| && Proper(Abstract(), op)
      modifies this
      ensures (a, Abstract()) == Step(old(Abstract()), op)
    {
      match op {
        case Close => closed := true; a := Done;
        case Size => a := Length(size);
        case ReaderRead(r, n) =>
          var (got, p) := ReadAt(data, readers[r], n);
          readers := readers[r := p];
          a := got;
        case Read(n) =>
          if closed { return Failed(StorageClosed); }
          var (got, p) := ReadAt(data, readerPos, n);
          readerPos := p;
          a := got;
        case Seek(offset, whence) =>
          if closed { return Failed(StorageClosed); }
          var (got, p) := SeekTo(|data|, readerPos, offset, whence);
          readerPos := p;
          a := got;
        case AllBytes =>
          if closed { return Failed(StorageClosed); }
          a := Got(data);
        case NewReader =>
          if closed { return Failed(StorageClosed); }
          readers := readers + [0];
          a := Opened;
      }
    }
  }

  // ----- diskStorage -----

  /** An open file description: an inode and a file offset. */
  datatype Handle = Handle(inode: nat, pos: nat)

  function Positions(hs: seq<Handle>): (ps: seq<nat>)
    ensures |ps| == |hs| && forall i :: 0 <= i < |hs| ==> ps[i] == hs[i].pos
  {
    seq(|hs|, i requires 0 <= i < |hs| => hs[i].pos)
  }

  /** The disk: names lead to inodes, and an inode lives as long as a handle may refer to it. */
  class Disk {
    var names: map<string, nat>
    var inodes: map<nat, Bytes>

    ghost predicate Holds(h: Handle, data: Bytes)
      reads this
    {
      h.inode in inodes && inodes[h.inode] == data
    }

    constructor ()
      ensures names == map[] && inodes == map[]
    {
      names, inodes := map[], map[];
    }

    /** Create a file under a new name and write data to it. */
    method Create(name: string, data: Bytes) returns (h: Handle)
      requires name !in names
      modifies this
      ensures Holds(h, data) && names == old(names)[name := h.inode] && h.pos == 0
      ensures h.inode !in old(inodes) && inodes == old(inodes)[h.inode := data]
    {
      var inode := FreshInode(inodes);
      inodes := inodes[inode := data];
      names := names[name := inode];
      h := Handle(inode, 0);
    }

    method Pread(h: Handle, n: nat) returns (a: Answer, h': Handle)
      requires h.inode in inodes
      ensures (a, h'.pos) == ReadAt(inodes[h.inode], h.pos, n) && h'.inode == h.inode
    {
      var (got, p) := ReadAt(inodes[h.inode], h.pos, n);
      a, h' := got, h.(pos := p);
    }

    method Lseek(h: Handle, offset: int, whence: Whence) returns (a: Answer, h': Handle)
      requires h.inode in inodes
      ensures (a, h'.pos) == SeekTo(|inodes[h.inode]|, h.pos, offset, whence) && h'.inode == h.inode
    {
      var (got, p) := SeekTo(|inodes[h.inode]|, h.pos, offset, whence);
      a, h' := got, h.(pos := p);
    }
  }

  method FreshInode(inodes: map<nat, Bytes>) returns (i: nat)
    ensures i !in inodes
  {
    i := 0;
    var left := inodes.Keys;
    while i in left
      invariant forall k :: k in inodes && k !in left ==> k < i
      decreases left
    {
      left := left - {i};
      i := i + 1;
    }
  }

  class DiskStorage {
    const disk: Disk
    const filePath: string
    const size: nat
    var file: Handle
    var closed: bool
    var readers: seq<Handle>
    ghost const data: Bytes

    ghost predicate Valid()
      reads this, disk
    {
      && disk.Holds(file, data) && size == |data|
      && (forall r :: 0 <= r < |readers| ==> readers[r].inode == file.inode)
      && (!closed ==> filePath in disk.names && disk.names[filePath] == file.inode)
    }

    ghost function Abstract(): State
      reads this
    {
      State(data, file.pos, closed, Positions(readers))
    }

    constructor (disk: Disk, filePath: string, data: Bytes)
      requires filePath !in disk.names
      modifies disk
      ensures Valid() && Abstract() == Fresh(data) && this.disk == disk
    {
      this.disk, this.filePath, this.data := disk, filePath, data;
      var h := disk.Create(filePath, data);
      size, file, closed, readers := |data|, h, false, [];
    }

    /** Bytes: remember the offset, rewind, read everything, go back. */
    method ReadEverything() returns (a: Answer)
      requires Valid() && !closed
      modifies this`file
      ensures Valid() && Abstract() == old(Abstract())
      ensures a == Got(data)
    {
      var current, h := disk.Lseek(file, 0, FromCurrent);
      file := h;
      var _, h1 := disk.Lseek(file, 0, FromStart);
      file := h1;
      var bytes := [];
      while |bytes| < size
        invariant file.inode == old(file.inode) && file.pos == |bytes| <= size
        invariant bytes == data[..|bytes|]
      {
        var got, h2 := disk.Pread(file, size - |bytes|);
        file := h2;
        bytes := bytes + got.bytes;
      }
      var _, h3 := disk.Lseek(file, current.at, FromStart);
      file := h3;
      a := Got(bytes);
    }

    method Do(op: Op) returns (a: Answer)
      requires Valid() && Proper(Abstract(), op)
      modifies this, disk
      ensures Valid()
      ensures (a, Abstract()) == Step(old(Abstract()), op)
    {
      match op {
        case Close =>
          if !closed {
            closed := true;
            disk.names := disk.names - {filePath};
          }
          a := Done;
        case Size => a := Length(size);
        case ReaderRead(r, n) =>
          var got, h := disk.Pread(readers[r], n);
          readers := readers[r := h];
          assert Positions(readers) == Positions(old(readers))[r := h.pos];
          a := got;
        case Read(n) =>
          if closed { return Failed(StorageClosed); }
          var got, h := disk.Pread(file, n);
          file := h;
          a := got;
        case Seek(offset, whence) =>
          if closed { return Failed(StorageClosed); }
          var got, h := disk.Lseek(file, offset, whence);
          file := h;
          a := got;
        case AllBytes =>
          if closed { return Failed(StorageClosed); }
          a := ReadEverything();
        case NewReader =>
          if closed { return Failed(StorageClosed); }
          readers := readers + [Handle(disk.names[filePath], 0)];
          assert Positions(readers) == Positions(old(readers)) + [0];
          a := Opened;
      }
    }
  }

  lemma AnswersNext(s: State, ops: seq<Op>, i: nat)
    requires i < |ops| && ProperRun(s, ops[i..])
    ensures Proper(s, ops[i]) && ProperRun(Step(s, ops[i]).1, ops[i + 1..])
    ensures Answers(s, ops[i..]) == [Step(s, ops[i]).0] + Answers(Step(s, ops[i]).1, ops[i + 1..])
  {
    assert ops[i..][1..] == ops[i + 1..];
  }

  /** Whatever is done with it, a body on disk answers like the same body in memory. */
  method RunBoth(data: Bytes, ops: seq<Op>) returns (fromMemory: seq<Answer>, fromDisk: seq<Answer>)
    requires ProperRun(Fresh(data), ops)
    ensures fromMemory == fromDisk == Answers(Fresh(data), ops)
  {
    var m := new MemoryStorage(data);
    var disk := new Disk();
    var d := new DiskStorage(disk, "body", data);
    fromMemory, fromDisk := [], [];
    ghost var s := Fresh(data);
    var i := 0;
    while i < |ops|
      invariant 0 <= i <= |ops|
      invariant m.size == |m.data| && m.Abstract() == s
      invariant d.Valid() && d.Abstract() == s && d.disk == disk
      invariant fresh(m) && fresh(d) && fresh(disk)
      invariant ProperRun(s, ops[i..])
      invariant fromMemory == fromDisk
      invariant Answers(Fresh(data), ops) == fromMemory + Answers(s, ops[i..])
    {
      AnswersNext(s, ops, i);
      var a := m.Do(ops[i]);
      var b := d.Do(ops[i]);
      s := Step(s, ops[i]).1;
      fromMemory, fromDisk := fromMemory + [a], fromDisk + [b];
      i := i + 1;
    }
  }

  // ----- creation -----

  datatype CacheConfig = CacheConfig(enabled: bool, thresholdMB: int, maxSizeMB: int)

  const MB: int := 1_048_576

  /** Sizes are configured in megabytes and shifted as int64. */
  function Megabytes(n: int): int {
    Wrap64(n * MB)
  }

  /** IsDiskCacheAvailable, with the sum taken as int64. */
  predicate DiskCacheAvailable(cfg: CacheConfig, usage: int, size: int) {
    cfg.enabled && Wrap64(usage + size) <= Megabytes(cfg.maxSizeMB)
  }

  datatype Created = InMemory(data: Bytes) | OnDisk(data: Bytes) | Refused(error: Error)

  /** CreateBodyStorage: a failing disk falls back to memory. */
  function CreateFromBytes(cfg: CacheConfig, usage: int, diskWorks: bool, data: Bytes): (c: Created)
    ensures !c.Refused? && c.data == data
    ensures c.OnDisk? <==>
      cfg.enabled && diskWorks && |data| >= Megabytes(cfg.thresholdMB)
      && Wrap64(usage + |data|) <= Megabytes(cfg.maxSizeMB)
    ensures c.OnDisk? && Int64(usage + |data|) ==> usage + |data| <= Megabytes(cfg.maxSizeMB)
  {
    if cfg.enabled && |data| >= Megabytes(cfg.thresholdMB) && DiskCacheAvailable(cfg, usage, |data|) then
      if diskWorks then OnDisk(data) else InMemory(data)
    else InMemory(data)
  }

  /** What a reader limited to n bytes yields of a stream. */
  function Limited(stream: Bytes, n: int): Bytes {
    if n <= 0 then [] else if n <= |stream| then stream[..n] else stream
  }

  /** CreateBodyStorageFromReader on a stream that itself never fails. */
  function CreateFromStream(cfg: CacheConfig, usage: int, diskWorks: bool, stream: Bytes,
                            contentLength: int, maxBytes: int): Created
  {
    var limited := Limited(stream, Wrap64(maxBytes + 1));
    if cfg.enabled && contentLength > 0 && contentLength >= Megabytes(cfg.thresholdMB)
       && DiskCacheAvailable(cfg, usage, contentLength)
    then
      if !diskWorks then Refused(DiskFailed)
      else if |limited| > maxBytes then Refused(TooLarge)
      else OnDisk(limited)
    else if |limited| > maxBytes then Refused(TooLarge)
    else CreateFromBytes(cfg, usage, diskWorks, limited)
  }

  /** What a caller expects of a limit on the body. */
  predicate LimitRespected(c: Created, stream: Bytes, maxBytes: int) {
    if |stream| <= maxBytes then !c.Refused? && c.data == stream else c == Refused(TooLarge)
  }

  lemma WrapOverflow(maxBytes: int)
    requires Int64(maxBytes)
    ensures Wrap64(maxBytes + 1) == if maxBytes == MAX_INT64 then -MAX_INT64 - 1 else maxBytes + 1
  {
  }

  /** With a working disk, creating from a stream succeeds exactly when the stream is
      within the limit, and then holds all of it, unless the limit is the largest
      int64 and the stream is not empty: there the limit plus one wraps around. */
  lemma StreamLimitRespectedIff(cfg: CacheConfig, usage: int, stream: Bytes, contentLength: int, maxBytes: int)
    requires Int64(maxBytes) && |stream| <= MAX_INT64
    ensures LimitRespected(CreateFromStream(cfg, usage, true, stream, contentLength, maxBytes), stream, maxBytes)
            <==> maxBytes != MAX_INT64 || stream == []
  {
    WrapOverflow(maxBytes);
  }

  /** A stream that is meant for a disk that does not work is lost; any other is kept in
      memory. */
  lemma BrokenDiskLosesStreams(cfg: CacheConfig, usage: int, stream: Bytes, contentLength: int, maxBytes: int)
    requires Int64(maxBytes) && |stream| <= maxBytes < MAX_INT64
    ensures CreateFromStream(cfg, usage, false, stream, contentLength, maxBytes) ==
            if cfg.enabled && contentLength > 0 && contentLength >= Megabytes(cfg.thresholdMB)
               && Wrap64(usage + contentLength) <= Megabytes(cfg.maxSizeMB)
            then Refused(DiskFailed) else InMemory(stream)
  {
    WrapOverflow(maxBytes);
  }

  /** The exception is real: any non-empty body is replaced by an empty one. */
  lemma LargestLimitLosesTheBody(cfg: CacheConfig, usage: int, stream: Bytes, contentLength: int)
    ensures var c := CreateFromStream(cfg, usage, true, stream, contentLength, MAX_INT64);
            !c.Refused? && c.data == []
  {
    WrapOverflow(MAX_INT64);
  }

  /** The limit of a request is configured in megabytes: no request reaches the
      exception. */
  lemma RequestLimitIsRespected(cfg: CacheConfig, usage: int, stream: Bytes, contentLength: int, maxMB: int)
    requires |stream| <= MAX_INT64
    ensures var maxBytes := Megabytes(maxMB);
            LimitRespected(CreateFromStream(cfg, usage, true, stream, contentLength, maxBytes), stream, maxBytes)
  {
    WrappedMultiple(maxMB);
    StreamLimitRespectedIff(cfg, usage, stream, contentLength, Megabytes(maxMB));
  }

  lemma WrappedMultiple(maxMB: int)
    ensures Int64(Megabytes(maxMB)) && Megabytes(maxMB) != MAX_INT64
  {
    var x := maxMB * MB + MAX_INT64 + 1;
    var q := x / TWO_64;
    assert x == q * TWO_64 + x % TWO_64;
    assert Megabytes(maxMB) == MB * (maxMB - q * (TWO_64 / MB));
  }

  /** The cap is checked against the announced length and not against the stream: a
      body within its limit goes to disk whole. The usage then stays within the cap,
      whatever it was before, exactly when the stream is empty, or the announced length
      cannot overflow the sum and the stream is no longer than announced (or the
      announcement never passes). A decompressed body is longer than announced. */
  lemma AnnouncedLengthDecidesTheCap(cfg: CacheConfig, stream: Bytes, contentLength: int, maxBytes: int)
    requires cfg.enabled && contentLength > 0 && contentLength >= Megabytes(cfg.thresholdMB)
    requires Int64(contentLength) && |stream| <= maxBytes < MAX_INT64
    ensures var cap := Megabytes(cfg.maxSizeMB);
            (forall usage: nat :: usage <= cap && DiskCacheAvailable(cfg, usage, contentLength) ==>
               var c := CreateFromStream(cfg, usage, true, stream, contentLength, maxBytes);
               c == OnDisk(stream) && usage + |c.data| <= cap)
            <==>
            cap < 0 || stream == [] ||
            (contentLength <= MAX_INT64 - cap && (|stream| <= contentLength || contentLength > cap))
  {
    var cap := Megabytes(cfg.maxSizeMB);
    WrapOverflow(maxBytes);
    forall usage: nat | usage <= cap && DiskCacheAvailable(cfg, usage, contentLength)
      ensures CreateFromStream(cfg, usage, true, stream, contentLength, maxBytes) == OnDisk(stream)
    {
    }
    forall usage: nat
      ensures usage <= cap ==>
        (DiskCacheAvailable(cfg, usage, contentLength) <==>
         usage + contentLength <= cap || usage + contentLength > MAX_INT64)
    {
      if usage <= cap {
        WrapSum(usage, contentLength);
      }
    }
    if cap >= 0 && stream != [] {
      if contentLength > MAX_INT64 - cap {
        assert DiskCacheAvailable(cfg, cap, contentLength);
      } else if |stream| > contentLength && contentLength <= cap {
        assert DiskCacheAvailable(cfg, cap - contentLength, contentLength);
      }
    }
  }

  /** A body announced with one byte and two megabytes long, under a cap of one. */
  lemma DecompressedBodyExceedsCap(stream: Bytes)
    requires |stream| == 2 * MB
    ensures var cfg := CacheConfig(true, 0, 1);
            && CreateFromStream(cfg, 0, true, stream, 1, 4 * MB) == OnDisk(stream)
            && |stream| > Megabytes(cfg.maxSizeMB)
  {
    WrapOverflow(4 * MB);
  }

  /** A body announced with the largest length, one megabyte long, under a cap of one
      megabyte of which one byte is in use: the sum of the check is negative. */
  lemma LargestLengthPassesTheCheck(stream: Bytes)
    requires |stream| == MB
    ensures var cfg, usage := CacheConfig(true, 0, 1), 1;
            && CreateFromStream(cfg, usage, true, stream, MAX_INT64, 4 * MB) == OnDisk(stream)
            && usage + |stream| > Megabytes(cfg.maxSizeMB)
  {
    WrapOverflow(4 * MB);
    WrapSum(1, MAX_INT64);
  }
}
