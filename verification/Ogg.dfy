/**
 getOpusDuration of common/audio.go: a scanner over Ogg pages that resynchronizes one
 byte at a time. The page layout is that of section 6 of RFC 3533. The duration is the
 returned granule position divided by 48000; the model stops at the granule position.
 Reads are complete, as they are for an in-memory reader or a regular file.
 */
module Ogg {
  import opened Bytes

  const HEADER := 27
  const CAPTURE: seq<byte> := [0x4f, 0x67, 0x67, 0x53]  // "OggS"
  const TWO63: int := 0x8000_0000_0000_0000
  const TWO64: int := 0x1_0000_0000_0000_0000

  /** binary.LittleEndian.Uint64, for any number of bytes. */
  function FromLE(b: seq<byte>): nat {
    if b == [] then 0 else b[0] as int + 256 * FromLE(b[1..])
  }

  /** The conversion of a uint64 to int64. */
  function ToSigned(u: int): int {
    if u < TWO63 then u else u - TWO64
  }

  function Sum(b: seq<byte>): nat {
    if b == [] then 0 else b[0] as int + Sum(b[1..])
  }

  predicate CaptureAt(data: seq<byte>, pos: nat) {
    pos + 4 <= |data| && data[pos..pos + 4] == CAPTURE
  }

  function GranuleAt(data: seq<byte>, pos: nat): int
    requires pos + HEADER <= |data|
  {
    ToSigned(FromLE(data[pos + 6..pos + 14]))
  }

  // ------------------------------------------------------------ the scanner

  /** The reader's offset, the greatest granule position so far, and the pages seen. */
  datatype Scanned = Scanned(pos: nat, total: int, visited: seq<nat>)

  /** Where the reader stands after the page at pos, or nothing if the segment table is cut off. */
  function NextPage(data: seq<byte>, pos: nat): (next: int)
    requires pos + HEADER <= |data|
    ensures next == -1 || next > pos
  {
    var table, segments := pos + HEADER, data[pos + 26] as int;
    if table + segments > |data| then -1
    else table + segments + Sum(data[table..table + segments])
  }

  function Raise(total: int, granule: int): int {
    if granule > total then granule else total
  }

  /** The header no longer fits in what is left. */
  predicate Exhausted(data: seq<byte>, pos: nat) {
    pos + HEADER > |data|
  }

  /** One turn of the loop; a cut-off segment table ends the scan. */
  function Advance(data: seq<byte>, s: Scanned): (s': Scanned)
    requires !Exhausted(data, s.pos)
    ensures s'.pos > s.pos
  {
    if !CaptureAt(data, s.pos) then s.(pos := s.pos + 1)
    else
      var next := NextPage(data, s.pos);
      Scanned(if next < 0 then |data| else next, Raise(s.total, GranuleAt(data, s.pos)), s.visited + [s.pos])
  }

  function Scan(data: seq<byte>, s: Scanned): Scanned
    decreases |data| - s.pos
  {
    if Exhausted(data, s.pos) then s else Scan(data, Advance(data, s))
  }

  const AT_START := Scanned(0, 0, [])

  /** The size of a page's body, from its segment table. */
  method PageSize(table: seq<byte>) returns (size: nat)
    ensures size == Sum(table)
  {
    size := 0;
    for i := 0 to |table|
      invariant size + Sum(table[i..]) == Sum(table)
    {
      size := size + table[i] as int;
    }
  }

  lemma SliceOfSlice(data: seq<byte>, pos: nat, n: nat)
    requires pos + n <= |data| && n >= 14
    ensures data[pos..pos + n][..4] == data[pos..pos + 4]
    ensures data[pos..pos + n][6..14] == data[pos + 6..pos + 14]
  {
    var buf := data[pos..pos + n];
    forall k | 0 <= k < 8
      ensures buf[6..14][k] == data[pos + 6..pos + 14][k]
    {}
  }

  /** Reads the page whose header is in buf and seeks past its body. */
  method SkipPage(data: seq<byte>, pos: nat, buf: seq<byte>) returns (next: int, granule: int)
    requires pos + HEADER <= |data| && buf == data[pos..pos + HEADER]
    ensures next == NextPage(data, pos) && granule == GranuleAt(data, pos)
  {
    SliceOfSlice(data, pos, HEADER);
    granule := ToSigned(FromLE(buf[6..14]));
    var table := pos + HEADER;
    var segments := buf[26] as int;
    if table + segments > |data| {
      return -1, granule;  // io.ReadFull fails
    }
    var size := PageSize(data[table..table + segments]);
    next := table + segments + size;  // seeking past the end succeeds
  }

  /** The loop of getOpusDuration; it ends on every byte string. */
  method OpusGranule(data: seq<byte>) returns (total: int, visited: seq<nat>)
    ensures total == Scan(data, AT_START).total && visited == Scan(data, AT_START).visited
  {
    total, visited := 0, [];
    var pos: nat := 0;  // the reader's offset
    ghost var goal := Scan(data, AT_START);
    while true
      invariant Scan(data, Scanned(pos, total, visited)) == goal
      decreases |data| - pos
    {
      if |data| - pos < HEADER {
        return;  // end of file, or a short read
      }
      ghost var before := Scanned(pos, total, visited);
      var buf := data[pos..pos + HEADER];
      SliceOfSlice(data, pos, HEADER);
      if buf[..4] != CAPTURE {
        pos := pos + HEADER - 26;  // Seek(-26, io.SeekCurrent)
        assert Advance(data, before) == Scanned(pos, total, visited);
        continue;
      }
      var next, granule := SkipPage(data, pos, buf);
      visited := visited + [pos];
      if granule > total {
        total := granule;
      }
      if next < 0 {
        assert Advance(data, before) == Scanned(|data|, total, visited);
        return;
      }
      pos := next;
      assert Advance(data, before) == Scanned(pos, total, visited);
    }
  }

  // ------------------------------------------------------------ well-formed files

  /** fixed holds version, header type; ids holds serial, sequence number, checksum. */
  datatype Page = Page(fixed: seq<byte>, granule: int, ids: seq<byte>, table: seq<byte>, body: seq<byte>)

  predicate WellFormed(p: Page) {
    && |p.fixed| == 2 && |p.ids| == 12
    && -TWO63 <= p.granule < TWO63
    && |p.table| <= 255
    && |p.body| == Sum(p.table)
  }

  function ToLE(n: nat, width: nat): (b: seq<byte>)
    ensures |b| == width
  {
    if width == 0 then [] else [(n % 256) as byte] + ToLE(n / 256, width - 1)
  }

  function ToUnsigned(g: int): int {
    if g < 0 then g + TWO64 else g
  }

  function Header(p: Page): (b: seq<byte>)
    requires WellFormed(p)
    ensures |b| == HEADER
  {
    CAPTURE + p.fixed + ToLE(ToUnsigned(p.granule), 8) + p.ids + [|p.table| as byte]
  }

  function Encode(p: Page): (b: seq<byte>)
    requires WellFormed(p)
    ensures |b| >= HEADER
  {
    Header(p) + p.table + p.body
  }

  predicate AllWellFormed(pages: seq<Page>) {
    forall i :: 0 <= i < |pages| ==> WellFormed(pages[i])
  }

  function EncodeAll(pages: seq<Page>): seq<byte>
    requires AllWellFormed(pages)
  {
    if pages == [] then [] else Encode(pages[0]) + EncodeAll(pages[1..])
  }

  /** Where each page starts when the first one is at offset. */
  function Boundaries(pages: seq<Page>, offset: nat): seq<nat>
    requires AllWellFormed(pages)
  {
    if pages == [] then [] else [offset] + Boundaries(pages[1..], offset + |Encode(pages[0])|)
  }

  /** The larger of a floor and every granule position. */
  function Highest(pages: seq<Page>, floor: int): int {
    if pages == [] then floor
    else Highest(pages[1..], Raise(floor, pages[0].granule))
  }

  lemma {:induction false} LERoundTrip(n: nat, width: nat, bound: nat)
    requires bound == Pow256(width) && n < bound
    ensures FromLE(ToLE(n, width)) == n
  {
    if width > 0 {
      var smaller := Pow256(width - 1);
      assert n / 256 < smaller;
      LERoundTrip(n / 256, width - 1, smaller);
      assert ToLE(n, width)[1..] == ToLE(n / 256, width - 1);
    }
  }

  function Pow256(k: nat): nat {
    if k == 0 then 1 else 256 * Pow256(k - 1)
  }

  lemma Pow256Eight()
    ensures Pow256(8) == TWO64
  {
    assert Pow256(4) == 0x1_0000_0000;
  }

  /** A signed granule position survives its little-endian form. */
  lemma GranuleRoundTrip(g: int)
    requires -TWO63 <= g < TWO63
    ensures ToSigned(FromLE(ToLE(ToUnsigned(g), 8))) == g
  {
    Pow256Eight();
    LERoundTrip(ToUnsigned(g), 8, TWO64);
  }

  /** What the scanner sees at the start of a page inside a longer byte string. */
  lemma PageFields(data: seq<byte>, pos: nat, p: Page, tail: seq<byte>)
    requires WellFormed(p) && pos <= |data| && data[pos..] == Encode(p) + tail
    ensures CaptureAt(data, pos) && GranuleAt(data, pos) == p.granule
    ensures NextPage(data, pos) == pos + |Encode(p)|
    ensures data[pos + |Encode(p)|..] == tail
  {
    var rest := data[pos..];
    var head := Header(p);
    assert rest == head + (p.table + (p.body + tail));
    assert rest[..4] == CAPTURE && data[pos..pos + 4] == rest[..4];
    assert rest[6..14] == ToLE(ToUnsigned(p.granule), 8) && data[pos + 6..pos + 14] == rest[6..14];
    GranuleRoundTrip(p.granule);
    assert rest[26] == head[26];
    assert data[pos + HEADER..pos + HEADER + |p.table|] == rest[HEADER..HEADER + |p.table|] == p.table;
    assert data[pos + |Encode(p)|..] == rest[|Encode(p)|..] == tail;
  }

  /** The pages fill the data from a position to its end. */
  predicate LaidOut(data: seq<byte>, pos: nat, pages: seq<Page>)
    requires AllWellFormed(pages)
  {
    pos <= |data| && data[pos..] == EncodeAll(pages)
  }

  /** One turn of the loop takes in one page. */
  lemma AdvancePage(data: seq<byte>, s: Scanned, pages: seq<Page>) returns (next: Scanned)
    requires AllWellFormed(pages) && LaidOut(data, s.pos, pages) && pages != []
    ensures !Exhausted(data, s.pos) && next == Advance(data, s)
    ensures next.total == Raise(s.total, pages[0].granule) && next.visited == s.visited + [s.pos]
    ensures LaidOut(data, next.pos, pages[1..])
    ensures Boundaries(pages, s.pos) == [s.pos] + Boundaries(pages[1..], next.pos)
  {
    PageFields(data, s.pos, pages[0], EncodeAll(pages[1..]));
    next := Advance(data, s);
  }

  /** Turns of the loop, one after the other, to the end of the data. */
  predicate Turns(data: seq<byte>, states: seq<Scanned>) {
    && states != [] && Exhausted(data, states[|states| - 1].pos)
    && forall i :: 0 <= i < |states| - 1 ==>
       !Exhausted(data, states[i].pos) && states[i + 1] == Advance(data, states[i])
  }

  lemma {:induction false} TurnsAreTheScan(data: seq<byte>, states: seq<Scanned>)
    requires Turns(data, states)
    ensures Scan(data, states[0]) == states[|states| - 1]
  {
    if |states| > 1 {
      TurnsAreTheScan(data, states[1..]);
      assert states[0 + 1] == Advance(data, states[0]);
    }
  }

  /** One turn per page. */
  lemma {:induction false} PageTurns(data: seq<byte>, s: Scanned, pages: seq<Page>) returns (states: seq<Scanned>)
    requires AllWellFormed(pages) && LaidOut(data, s.pos, pages)
    ensures Turns(data, states) && states[0] == s
    ensures var end := states[|states| - 1];
            end.total == Highest(pages, s.total) && end.visited == s.visited + Boundaries(pages, s.pos)
    decreases |pages|
  {
    if pages == [] {
      states := [s];
    } else {
      var next := AdvancePage(data, s, pages);
      var rest := PageTurns(data, next, pages[1..]);
      states := [s] + rest;
      PushTurn(data, s, rest);
    }
  }

  lemma PushTurn(data: seq<byte>, s: Scanned, rest: seq<Scanned>)
    requires Turns(data, rest) && !Exhausted(data, s.pos) && rest[0] == Advance(data, s)
    ensures Turns(data, [s] + rest)
  {
    var states := [s] + rest;
    forall i | 0 <= i < |states| - 1
      ensures !Exhausted(data, states[i].pos) && states[i + 1] == Advance(data, states[i])
    {
      if i > 0 {
        assert states[i] == rest[i - 1] && states[i + 1] == rest[i - 1 + 1];
      }
    }
  }

  lemma ScanPages(data: seq<byte>, s: Scanned, pages: seq<Page>)
    requires AllWellFormed(pages) && LaidOut(data, s.pos, pages)
    ensures Scan(data, s).total == Highest(pages, s.total)
    ensures Scan(data, s).visited == s.visited + Boundaries(pages, s.pos)
  {
    var states := PageTurns(data, s, pages);
    TurnsAreTheScan(data, states);
  }

  /** Bytes in front of the pages where no capture pattern starts are skipped. */
  lemma {:induction false} ScanSkips(data: seq<byte>, s: Scanned, start: nat)
    requires s.pos <= start <= |data|
    requires forall i :: s.pos <= i < start ==> !CaptureAt(data, i)
    requires start + HEADER <= |data| || start == |data|
    ensures Scan(data, s).total == Scan(data, s.(pos := start)).total
    ensures Scan(data, s).visited == Scan(data, s.(pos := start)).visited
    decreases start - s.pos
  {
    if s.pos < start && !Exhausted(data, s.pos) {
      assert Advance(data, s) == s.(pos := s.pos + 1);
      ScanSkips(data, s.(pos := s.pos + 1), start);
    }
  }

  /**
   On any concatenation of well-formed pages, after any prefix where no capture
   pattern starts, the scanner visits exactly the page boundaries and returns the
   larger of 0 and the greatest signed granule position.
   */
  lemma ScansEveryPage(prefix: seq<byte>, pages: seq<Page>)
    requires AllWellFormed(pages)
    requires forall i :: 0 <= i < |prefix| ==> !CaptureAt(prefix + EncodeAll(pages), i)
    ensures var end := Scan(prefix + EncodeAll(pages), AT_START);
            end.total == Highest(pages, 0) && end.visited == Boundaries(pages, |prefix|)
  {
    var data := prefix + EncodeAll(pages);
    assert data[|prefix|..] == EncodeAll(pages);
    ScanSkips(data, AT_START, |prefix|);
    ScanPages(data, AT_START.(pos := |prefix|), pages);
    assert [] + Boundaries(pages, |prefix|) == Boundaries(pages, |prefix|);
  }

  /** Highest is the maximum it is named for. */
  lemma {:induction false} HighestIsMaximum(pages: seq<Page>, floor: int)
    ensures Highest(pages, floor) >= floor
    ensures forall i :: 0 <= i < |pages| ==> pages[i].granule <= Highest(pages, floor)
    ensures Highest(pages, floor) == floor || exists i :: 0 <= i < |pages| && pages[i].granule == Highest(pages, floor)
  {
    if pages != [] {
      var floor' := Raise(floor, pages[0].granule);
      HighestIsMaximum(pages[1..], floor');
      if i :| 0 <= i < |pages[1..]| && pages[1..][i].granule == Highest(pages[1..], floor') {
        assert pages[i + 1].granule == Highest(pages, floor);
      }
    }
  }

  /** The k-th boundary is the length of everything in front of page k. */
  lemma {:induction false} BoundariesAreStarts(pages: seq<Page>, offset: nat, k: nat)
    requires AllWellFormed(pages) && k < |pages|
    ensures |Boundaries(pages, offset)| == |pages|
    ensures Boundaries(pages, offset)[k] == offset + |EncodeAll(pages[..k])|
  {
    if k > 0 {
      BoundariesAreStarts(pages[1..], offset + |Encode(pages[0])|, k - 1);
      assert pages[..k][1..] == pages[1..][..k - 1];
    } else if |pages| > 1 {
      BoundariesAreStarts(pages[1..], offset + |Encode(pages[0])|, 0);
    }
  }
}
