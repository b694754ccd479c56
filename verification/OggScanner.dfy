/** The duration of an Opus file, from a scan over the pages of its Ogg container. */
module OggScanner {
  import opened ByteStrings

  const HEADER := 27

  /** "OggS" */
  const CAPTURE: Bytes := [79, 103, 103, 83]

  // ----- a seekable reader over a byte string -----

  class Reader {
    const data: Bytes
    var pos: nat

    constructor (data: Bytes)
      ensures this.data == data && pos == 0
    {
      this.data := data;
      pos := 0;
    }

    /** Read fills as much of the buffer as there is; at or after the end it reports it. */
    method Read(size: nat) returns (chunk: Bytes, eof: bool)
      requires size > 0
      modifies this`pos
      ensures eof <==> old(pos) >= |data|
      ensures eof ==> pos == old(pos)
      ensures !eof ==> pos == old(pos) + |chunk| <= |data| && |chunk| <= size && chunk == data[old(pos)..pos]
      ensures !eof && |chunk| < size ==> pos == |data|
    {
      if pos >= |data| {
        return [], true;
      }
      var end := if pos + size <= |data| then pos + size else |data|;
      chunk, eof := data[pos..end], false;
      pos := end;
    }

    /** io.ReadFull: all of it or an error. */
    method ReadFull(size: nat) returns (chunk: Bytes, ok: bool)
      modifies this`pos
      ensures ok <==> size == 0 || old(pos) + size <= |data|
      ensures ok ==> pos == old(pos) + size && |chunk| == size
      ensures ok && size > 0 ==> chunk == data[old(pos)..pos]
      ensures ok && size == 0 ==> chunk == []
    {
      if size == 0 {
        return [], true;
      }
      var eof;
      chunk, eof := Read(size);
      ok := !eof && |chunk| == size;
    }

    /** Seek relative to the cursor: going before the start is an error, going past
        the end is not. */
    method Skip(offset: int) returns (ok: bool)
      modifies this`pos
      ensures ok <==> old(pos) + offset >= 0
      ensures pos == if ok then old(pos) + offset else old(pos)
    {
      ok := pos + offset >= 0;
      if ok {
        pos := pos + offset;
      }
    }
  }

  // ----- numbers -----

  function FromLittleEndian(s: Bytes): nat {
    if s == [] then 0 else s[0] as int + 256 * FromLittleEndian(s[1..])
  }

  /** int64 of a uint64. */
  function Signed(u: nat): int {
    if u < 0x8000_0000_0000_0000 then u else u - 0x1_0000_0000_0000_0000
  }

  function Sum(s: Bytes): nat {
    if s == [] then 0 else Sum(s[..|s| - 1]) + s[|s| - 1] as int
  }

  method PageSize(table: Bytes) returns (size: nat)
    ensures size == Sum(table)
  {
    size := 0;
    var i := 0;
    while i < |table|
      invariant 0 <= i <= |table| && size == Sum(table[..i])
    {
      assert table[..i + 1][..i] == table[..i];
      size := size + table[i] as int;
      i := i + 1;
    }
    assert table[..i] == table;
  }

  // ----- the scan -----

  /** The granule position of the header that s starts with. */
  function Granule(s: Bytes): int
    requires HEADER <= |s|
  {
    Signed(FromLittleEndian(s[6..14]))
  }

  function Max(a: int, b: int): int {
    if a > b then a else b
  }

  /** What is left at a cursor. */
  function From(data: Bytes, pos: nat): Bytes {
    if pos <= |data| then data[pos..] else []
  }

  /** One round: the header at the front of s decides whether there is more, where
      to go on, and the largest granule position so far. */
  datatype Round = Round(more: bool, rest: Bytes, best: int)

  function Advance(s: Bytes, best: int): (r: Round)
    ensures r.more ==> |r.rest| < |s|
  {
    if |s| < HEADER then Round(false, s, best)
    else if s[..4] != CAPTURE then Round(true, From(s, 1), best)
    else
      var head := HEADER + s[26] as int;
      if head > |s| then Round(false, s, Max(best, Granule(s)))
      else Round(true, From(s, head + Sum(s[HEADER..head])), Max(best, Granule(s)))
  }

  /** The largest granule position found in s, or best. */
  function Scan(s: Bytes, best: int): int
    decreases |s|
  {
    var r := Advance(s, best);
    if r.more then Scan(r.rest, r.best) else r.best
  }

  /** Reading a page, or a stretch of bytes that is none, from the cursor on. */
  method TakeRound(r: Reader, best: int) returns (more: bool, newBest: int)
    modifies r`pos
    ensures var a := Advance(From(r.data, old(r.pos)), best);
            more == a.more && newBest == a.best && (more ==> From(r.data, r.pos) == a.rest)
    ensures more ==> old(r.pos) < |r.data| && old(r.pos) < r.pos
  {
    ghost var s := From(r.data, r.pos);
    var buf, eof := r.Read(HEADER);
    if eof {
      return false, best;
    }
    if |buf| < HEADER {
      return false, best;
    }
    BufferIs(s, buf);
    if buf[..4] != CAPTURE {
      Behind(r.data, r.pos - HEADER, 1);
      more := r.Skip(-26);
      newBest := best;
    } else {
      more, newBest := TakePage(r, buf, best, s);
    }
  }

  /** A page whose header was read. */
  method TakePage(r: Reader, buf: Bytes, best: int, ghost s: Bytes) returns (more: bool, newBest: int)
    requires HEADER <= r.pos <= |r.data| && s == r.data[r.pos - HEADER..]
    requires |buf| == HEADER && buf[26] == s[26] && Granule(buf) == Granule(s) && s[..4] == CAPTURE
    modifies r`pos
    ensures var a := Advance(s, best);
            more == a.more && newBest == a.best && (more ==> From(r.data, r.pos) == a.rest)
    ensures more ==> r.pos >= old(r.pos)
  {
    var granulePos := Granule(buf);
    newBest := best;
    if granulePos > newBest {
      newBest := granulePos;
    }
    more := SkipPage(r, buf[26] as int, s);
  }

  /** Passing over the segment table and the data of a page whose header was read. */
  method SkipPage(r: Reader, numSegments: nat, ghost s: Bytes) returns (more: bool)
    requires HEADER <= r.pos <= |r.data| && s == r.data[r.pos - HEADER..]
    modifies r`pos
    ensures more <==> HEADER + numSegments <= |s|
    ensures more ==> r.pos >= old(r.pos)
    ensures more ==> From(r.data, r.pos) == From(s, HEADER + numSegments + Sum(s[HEADER..HEADER + numSegments]))
  {
    ghost var start := r.pos - HEADER;
    var table, full := r.ReadFull(numSegments);
    if !full {
      return false;
    }
    TableAt(r.data, start, s, numSegments);
    var pageSize := PageSize(table);
    more := r.Skip(pageSize);
    assert From(r.data, start) == s;
    Behind(r.data, start, HEADER + numSegments + pageSize);
  }

  lemma TableAt(data: Bytes, start: nat, s: Bytes, n: nat)
    requires start <= |data| && s == data[start..] && HEADER + n <= |s|
    ensures s[HEADER..HEADER + n] == data[start + HEADER..start + HEADER + n]
  {
    assert forall i :: HEADER <= i < HEADER + n ==> s[i] == data[start + i];
  }

  lemma BufferIs(s: Bytes, buf: Bytes)
    requires HEADER <= |s| && buf == s[..HEADER]
    ensures buf[..4] == s[..4] && buf[26] == s[26] && Granule(buf) == Granule(s)
  {
    assert buf[6..14] == s[6..14];
  }

  lemma Behind(data: Bytes, start: nat, n: nat)
    requires start <= |data|
    ensures From(data, start + n) == From(From(data, start), n)
  {
  }

  /** getOpusDuration. */
  method OpusDuration(r: Reader) returns (duration: real)
    modifies r`pos
    ensures duration == Scan(r.data, 0) as real / 48000.0
  {
    r.pos := 0;
    assert From(r.data, r.pos) == r.data;
    var totalGranulePos, more := 0, true;
    while more
      invariant more ==> Scan(From(r.data, r.pos), totalGranulePos) == Scan(r.data, 0)
      invariant !more ==> totalGranulePos == Scan(r.data, 0)
      decreases more, |r.data| - r.pos
    {
      more, totalGranulePos := TakeRound(r, totalGranulePos);
    }
    duration := totalGranulePos as real / 48000.0;
  }

  // ----- pages -----

  function LittleEndian(v: nat, n: nat): (s: Bytes)
    ensures |s| == n
  {
    if n == 0 then [] else [(v % 256) as byte] + LittleEndian(v / 256, n - 1)
  }

  function Power256(n: nat): nat {
    if n == 0 then 1 else 256 * Power256(n - 1)
  }

  lemma {:induction false} FromToLittleEndian(v: nat, n: nat)
    requires v < Power256(n)
    ensures FromLittleEndian(LittleEndian(v, n)) == v
  {
    if n > 0 {
      FromToLittleEndian(v / 256, n - 1);
      assert LittleEndian(v, n)[1..] == LittleEndian(v / 256, n - 1);
    }
  }

  /** A page by section 6 of RFC 3533. */
  datatype Page = Page(
    version: byte, flags: byte, granule: int, serialSequenceChecksum: Bytes, table: Bytes, body: Bytes)

  ghost predicate WellFormed(p: Page) {
    && -0x8000_0000_0000_0000 <= p.granule < 0x8000_0000_0000_0000
    && |p.serialSequenceChecksum| == 12
    && |p.table| < 256
    && |p.body| == Sum(p.table)
  }

  function Unsigned(v: int): nat
    requires -0x8000_0000_0000_0000 <= v < 0x8000_0000_0000_0000
  {
    if v >= 0 then v else v + 0x1_0000_0000_0000_0000
  }

  function Header(p: Page): (h: Bytes)
    requires WellFormed(p)
    ensures |h| == HEADER
  {
    CAPTURE + [p.version, p.flags] + LittleEndian(Unsigned(p.granule), 8)
    + p.serialSequenceChecksum + [|p.table| as byte]
  }

  function Encode(p: Page): Bytes
    requires WellFormed(p)
  {
    Header(p) + p.table + p.body
  }

  lemma GranuleReads(p: Page)
    requires WellFormed(p)
    ensures Signed(FromLittleEndian(LittleEndian(Unsigned(p.granule), 8))) == p.granule
  {
    assert Power256(8) == 0x1_0000_0000_0000_0000 by {
      assert Power256(4) == 0x1_0000_0000;
    }
    FromToLittleEndian(Unsigned(p.granule), 8);
  }

  lemma HeaderReads(p: Page)
    requires WellFormed(p)
    ensures Header(p)[..4] == CAPTURE && Header(p)[26] == |p.table| as byte
    ensures Header(p)[6..14] == LittleEndian(Unsigned(p.granule), 8)
  {
  }

  /** The scan takes a page in one round. */
  lemma ScanPage(p: Page, rest: Bytes, best: int)
    requires WellFormed(p)
    ensures Scan(Encode(p) + rest, best) == Scan(rest, Max(best, p.granule))
  {
    var s, h := Encode(p) + rest, Header(p);
    HeaderReads(p);
    GranuleReads(p);
    PageParts(p, rest, s);
    assert s[..4] == h[..4] && s[6..14] == h[6..14] && s[26] == h[26];
  }

  lemma PageParts(p: Page, rest: Bytes, s: Bytes)
    requires WellFormed(p) && s == Encode(p) + rest
    ensures |s| >= HEADER + |p.table| + Sum(p.table)
    ensures s[..HEADER] == Header(p) && s[HEADER..HEADER + |p.table|] == p.table
    ensures s[HEADER + |p.table| + Sum(p.table)..] == rest
  {
  }

  // ----- what lies between pages -----

  /** Bytes in which the capture pattern does not occur. */
  ghost predicate Junk(s: Bytes) {
    forall i :: 0 <= i <= |s| ==> !(CAPTURE <= s[i..])
  }

  lemma JunkBehind(s: Bytes)
    requires Junk(s) && s != []
    ensures Junk(s[1..])
  {
    forall i | 0 <= i <= |s[1..]|
      ensures !(CAPTURE <= s[1..][i..])
    {
      assert s[1..][i..] == s[i + 1..];
    }
  }

  /** The pattern cannot begin in junk and end in what follows, if what follows is
      nothing or begins with the pattern itself: it does not overlap with itself. */
  lemma NoStraddle(junk: Bytes, rest: Bytes)
    requires Junk(junk) && junk != [] && (rest == [] || CAPTURE <= rest)
    requires |junk + rest| >= 4
    ensures (junk + rest)[..4] != CAPTURE
  {
    var s := (junk + rest)[..4];
    if 4 <= |junk| {
      assert s == junk[0..][..4];
    } else {
      var k := |junk|;
      assert rest[0] == CAPTURE[0];
      assert s[k] == rest[0];
      assert CAPTURE[k] != CAPTURE[0];
    }
  }

  /** The scan walks over junk byte by byte and finds nothing in it. */
  lemma {:induction false} ScanJunk(junk: Bytes, rest: Bytes, best: int)
    requires Junk(junk) && (rest == [] || CAPTURE <= rest)
    ensures Scan(junk + rest, best) == Scan(rest, best)
  {
    if junk == [] {
      assert junk + rest == rest;
    } else {
      JunkBehind(junk);
      ScanJunk(junk[1..], rest, best);
      assert (junk + rest)[1..] == junk[1..] + rest;
      if |junk + rest| >= HEADER {
        NoStraddle(junk, rest);
      }
    }
  }

  // ----- whole streams -----

  /** Pages, each behind some junk. */
  datatype Chunk = Chunk(junk: Bytes, page: Page)

  ghost predicate Good(chunks: seq<Chunk>) {
    forall i :: 0 <= i < |chunks| ==> Junk(chunks[i].junk) && WellFormed(chunks[i].page)
  }

  function Stream(chunks: seq<Chunk>, tail: Bytes): Bytes
    requires forall i :: 0 <= i < |chunks| ==> WellFormed(chunks[i].page)
  {
    if chunks == [] then tail else chunks[0].junk + (Encode(chunks[0].page) + Stream(chunks[1..], tail))
  }

  function MaxGranule(chunks: seq<Chunk>, best: int): int {
    if chunks == [] then best else MaxGranule(chunks[1..], Max(best, chunks[0].page.granule))
  }

  lemma StartsWithCapture(p: Page, rest: Bytes)
    requires WellFormed(p)
    ensures CAPTURE <= Encode(p) + rest
  {
    HeaderReads(p);
    assert (Encode(p) + rest)[..4] == Header(p)[..4];
  }

  lemma {:induction false} ScanStream(chunks: seq<Chunk>, tail: Bytes, best: int)
    requires Good(chunks) && Junk(tail)
    ensures Scan(Stream(chunks, tail), best) == MaxGranule(chunks, best)
  {
    if chunks == [] {
      var none: Bytes := [];
      ScanJunk(tail, none, best);
      assert tail + none == tail;
    } else {
      var page, rest := chunks[0].page, Stream(chunks[1..], tail);
      StartsWithCapture(page, rest);
      ScanJunk(chunks[0].junk, Encode(page) + rest, best);
      ScanPage(page, rest, best);
      ScanStream(chunks[1..], tail, Max(best, page.granule));
    }
  }

  /** MaxGranule is the maximum of the granule positions and the start. */
  lemma {:induction false} MaxGranuleIs(chunks: seq<Chunk>, best: int)
    ensures MaxGranule(chunks, best) >= best
    ensures forall i :: 0 <= i < |chunks| ==> chunks[i].page.granule <= MaxGranule(chunks, best)
    ensures MaxGranule(chunks, best) == best ||
            exists i :: 0 <= i < |chunks| && chunks[i].page.granule == MaxGranule(chunks, best)
  {
    if chunks != [] {
      MaxGranuleIs(chunks[1..], Max(best, chunks[0].page.granule));
      assert forall i :: 0 < i < |chunks| ==> chunks[i] == chunks[1..][i - 1];
    }
  }

  /** Whatever lies before, between and behind the pages, as long as it does not hold
      the capture pattern: the duration is that of the largest granule position, or
      zero if there is none above zero. */
  method StreamDuration(chunks: seq<Chunk>, tail: Bytes) returns (duration: real)
    requires Good(chunks) && Junk(tail)
    ensures duration == MaxGranule(chunks, 0) as real / 48000.0
  {
    var r := new Reader(Stream(chunks, tail));
    ScanStream(chunks, tail, 0);
    duration := OpusDuration(r);
  }
}
