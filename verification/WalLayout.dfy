/**
 * A writer for segment files as the readers take them: records packed into page bodies, padded to a multiple of 8
 * when they fit their page, running on into the next bodies without padding when they do not, page tails too short
 * for a record header left empty, and zeros to the end of the last page.
 */
module WalLayout {
  import opened Bytes
  import opened WalTape

  const PAGE_BODY: nat := 8172

  /** Body bytes of the first page, whose header is longer. */
  function FirstBody(first: nat): nat
    requires FirstHeader(first)
  {
    PAGE_SIZE - first
  }

  /** Bytes left in its page body at tape position p; a page end counts as the start of the next page. */
  function RoomAt(first: nat, p: nat): (room: nat)
    requires FirstHeader(first)
    ensures 0 < room <= PAGE_BODY
  {
    if p < FirstBody(first) then FirstBody(first) - p else PAGE_BODY - (p - FirstBody(first)) % PAGE_BODY
  }

  predicate PageStart(first: nat, p: nat)
    requires FirstHeader(first)
  {
    p == 0 || (FirstBody(first) <= p && (p - FirstBody(first)) % PAGE_BODY == 0)
  }

  predicate Writable(r: seq<byte>) {
    RECORD_HEADER_SIZE <= |r| < TWO_32 && LE32(r, 0) == |r|
  }

  predicate AllWritable(rs: seq<seq<byte>>) {
    forall i :: 0 <= i < |rs| ==> Writable(rs[i])
  }

  /** Tape bytes a record of length len takes when written at p: padded if it fits, bare if it spills. */
  function Extent(first: nat, p: nat, len: nat): (n: nat)
    requires FirstHeader(first)
    ensures len <= n
  {
    if len <= RoomAt(first, p) then Min(AlignRecordLength(len), RoomAt(first, p)) else len
  }

  /** What is written from tape position p on. */
  function Write(first: nat, rs: seq<seq<byte>>, p: nat): seq<byte>
    requires FirstHeader(first)
    decreases |rs|, if RoomAt(first, p) < RECORD_HEADER_SIZE then 1 else 0
  {
    var room := RoomAt(first, p);
    if rs == [] then (if PageStart(first, p) then [] else Zeros(room))
    else if room < RECORD_HEADER_SIZE then
      NextPage(first, p);
      Zeros(room) + Write(first, rs, p + room)
    else
      var n := Extent(first, p, |rs[0]|);
      rs[0] + Zeros(n - |rs[0]|) + Write(first, rs[1..], p + n)
  }

  /** Where on the tape each record is written. */
  function Places(first: nat, rs: seq<seq<byte>>, p: nat): (spans: seq<Span>)
    requires FirstHeader(first)
    ensures |spans| == |rs|
    decreases |rs|, if RoomAt(first, p) < RECORD_HEADER_SIZE then 1 else 0
  {
    var room := RoomAt(first, p);
    if rs == [] then []
    else if room < RECORD_HEADER_SIZE then
      NextPage(first, p);
      Places(first, rs, p + room)
    else [Span(p, |rs[0]|)] + Places(first, rs[1..], p + Extent(first, p, |rs[0]|))
  }

  lemma NextPage(first: nat, p: nat)
    requires FirstHeader(first)
    ensures PageStart(first, p + RoomAt(first, p)) && RoomAt(first, p + RoomAt(first, p)) == PAGE_BODY
  {
    var b := FirstBody(first);
    if p >= b {
      var k, o := (p - b) / PAGE_BODY, (p - b) % PAGE_BODY;
      assert p + RoomAt(first, p) - b == PAGE_BODY * (k + 1);
    }
  }

  /** Writing ends at the end of a page. */
  lemma {:induction false} WriteEnds(first: nat, rs: seq<seq<byte>>, p: nat)
    requires FirstHeader(first)
    ensures PageStart(first, p + |Write(first, rs, p)|)
    decreases |rs|, if RoomAt(first, p) < RECORD_HEADER_SIZE then 1 else 0
  {
    NextPage(first, p);
    if rs != [] {
      if RoomAt(first, p) < RECORD_HEADER_SIZE {
        WriteEnds(first, rs, p + RoomAt(first, p));
      } else {
        WriteEnds(first, rs[1..], p + Extent(first, p, |rs[0]|));
      }
    }
  }

  /** The tape tells the reader to step nowhere it will look for a record. */
  ghost predicate NoSkips(t: Tape, first: nat, rs: seq<seq<byte>>, p: nat)
    requires FirstHeader(first)
    decreases |rs|, if RoomAt(first, p) < RECORD_HEADER_SIZE then 1 else 0
  {
    && (p < |t.skip| ==> t.skip[p] == 0)
    && (rs != [] ==>
          if RoomAt(first, p) < RECORD_HEADER_SIZE then
            NextPage(first, p);
            NoSkips(t, first, rs, p + RoomAt(first, p))
          else NoSkips(t, first, rs[1..], p + Extent(first, p, |rs[0]|)))
  }

  /** The tape has the pages the writer counts on. */
  ghost predicate Paged(t: Tape, first: nat)
    requires FirstHeader(first)
  {
    t.Valid() && forall p :: 0 <= p < |t.pos| ==> t.Room(p) == RoomAt(first, p)
  }

  /** The first record stands where it was written, and the rest of the writing behind its extent. */
  lemma FirstWritten(t: Tape, first: nat, rs: seq<seq<byte>>, p: nat)
    requires FirstHeader(first) && rs != [] && AllWritable(rs)
    requires RoomAt(first, p) >= RECORD_HEADER_SIZE
    requires Holds(t.bytes, p, Write(first, rs, p))
    ensures Holds(t.bytes, p, rs[0]) && LE32(t.bytes, p) == |rs[0]| >= RECORD_HEADER_SIZE
    ensures AllWritable(rs[1..])
    ensures var rest := Write(first, rs[1..], p + Extent(first, p, |rs[0]|));
            && Holds(t.bytes, p + Extent(first, p, |rs[0]|), rest)
            && |Write(first, rs, p)| == Extent(first, p, |rs[0]|) + |rest|
  {
    hide AlignRecordLength, LE32, Extent, RoomAt;
    var r, n := rs[0], Extent(first, p, |rs[0]|);
    assert Writable(r);
    HoldsPart(t.bytes, p, r + Zeros(n - |r|), Write(first, rs[1..], p + n));
    HoldsPart(t.bytes, p, r, Zeros(n - |r|));
    assert t.bytes[p + 0] == r[0] && t.bytes[p + 1] == r[1] && t.bytes[p + 2] == r[2] && t.bytes[p + 3] == r[3];
    LE32Same(t.bytes, p, r, 0);
  }

  /** One record of the scan, whether it fits its page or spills. */
  lemma ScanRecord(t: Tape, first: nat, p: nat)
    requires FirstHeader(first) && Paged(t, first) && p < |t.pos|
    requires RoomAt(first, p) >= RECORD_HEADER_SIZE && t.skip[p] == 0
    requires RECORD_HEADER_SIZE <= LE32(t.bytes, p) && p + LE32(t.bytes, p) <= |t.bytes|
    ensures t.Scan(p) == [Span(p, LE32(t.bytes, p))] + t.Scan(p + Extent(first, p, LE32(t.bytes, p)))
  {
    hide LE32, RoomAt, AlignRecordLength;
  }

  /** A scan finds the written records, where they were written, and nothing else. */
  lemma {:induction false} ScanWritten(t: Tape, first: nat, rs: seq<seq<byte>>, p: nat)
    requires FirstHeader(first) && Paged(t, first) && AllWritable(rs)
    requires Holds(t.bytes, p, Write(first, rs, p)) && p + |Write(first, rs, p)| == |t.bytes|
    requires NoSkips(t, first, rs, p)
    ensures t.Scan(p) == Places(first, rs, p)
    decreases |rs|, if RoomAt(first, p) < RECORD_HEADER_SIZE then 1 else 0
  {
    hide LE32, Extent, RoomAt, Holds, AllWritable, Tape.Scan, Tape.Room;
    var room := RoomAt(first, p);
    if rs == [] {
      ScanZeros(t, first, p);
    } else if room < RECORD_HEADER_SIZE {
      NextPage(first, p);
      SkipTail(t, first, rs, p);
      ScanWritten(t, first, rs, p + room);
    } else {
      FirstWritten(t, first, rs, p);
      ScanWritten(t, first, rs[1..], p + Extent(first, p, |rs[0]|));
      ScanRecord(t, first, p);
    }
  }

  /** Each record can be read where it was written. */
  lemma {:induction false} WrittenHeld(b: seq<byte>, first: nat, rs: seq<seq<byte>>, p: nat, i: nat)
    requires FirstHeader(first) && i < |rs|
    requires Holds(b, p, Write(first, rs, p))
    ensures var s := Places(first, rs, p)[i];
            Holds(b, s.at, rs[i]) && s.len == |rs[i]|
    decreases |rs|, if RoomAt(first, p) < RECORD_HEADER_SIZE then 1 else 0
  {
    hide Extent, RoomAt, Holds;
    var room := RoomAt(first, p);
    if room < RECORD_HEADER_SIZE {
      NextPage(first, p);
      HoldsPart(b, p, Zeros(room), Write(first, rs, p + room));
      WrittenHeld(b, first, rs, p + room, i);
    } else {
      var r, n := rs[0], Extent(first, p, |rs[0]|);
      HoldsPart(b, p, r + Zeros(n - |r|), Write(first, rs[1..], p + n));
      if i == 0 {
        HoldsPart(b, p, r, Zeros(n - |r|));
      } else {
        WrittenHeld(b, first, rs[1..], p + n, i - 1);
      }
    }
  }

  /** A page tail too short for a record header is stepped over. */
  lemma SkipTail(t: Tape, first: nat, rs: seq<seq<byte>>, p: nat)
    requires FirstHeader(first) && Paged(t, first) && rs != []
    requires RoomAt(first, p) < RECORD_HEADER_SIZE
    requires Holds(t.bytes, p, Write(first, rs, p)) && p + |Write(first, rs, p)| == |t.bytes|
    ensures var next := p + RoomAt(first, p);
            && Holds(t.bytes, next, Write(first, rs, next)) && next + |Write(first, rs, next)| == |t.bytes|
            && t.Scan(p) == t.Scan(next)
  {
    hide LE32, RoomAt;
    HoldsPart(t.bytes, p, Zeros(RoomAt(first, p)), Write(first, rs, p + RoomAt(first, p)));
    if p < |t.pos| { t.PageDone(p); }
  }

  lemma ScanZeros(t: Tape, first: nat, p: nat)
    requires FirstHeader(first) && Paged(t, first)
    requires Holds(t.bytes, p, Write(first, [], p)) && p + |Write(first, [], p)| == |t.bytes|
    requires NoSkips(t, first, [], p)
    ensures t.Scan(p) == []
  {
    if p < |t.bytes| {
      var room := RoomAt(first, p);
      assert t.Scan(p + room) == [];
      if room >= RECORD_HEADER_SIZE {
        var z := Zeros(room);
        assert t.bytes[p + 0] == z[0] && t.bytes[p + 1] == z[1] && t.bytes[p + 2] == z[2] && t.bytes[p + 3] == z[3];
      }
    }
  }

  // ---- page headers ----

  /** Pages a tape of this length fills. */
  function PageCount(first: nat, length: nat): nat
    requires FirstHeader(first)
  {
    if length < FirstBody(first) then 0 else 1 + (length - FirstBody(first)) / PAGE_BODY
  }

  /** File position of tape position p. */
  function FilePosition(first: nat, p: nat): nat
    requires FirstHeader(first)
  {
    var b := FirstBody(first);
    if p < b then first + p else PAGE_SIZE * (1 + (p - b) / PAGE_BODY) + PAGE_HEADER_SIZE + (p - b) % PAGE_BODY
  }

  /** Tape position of a body byte: offset o of page k. */
  function TapeIndex(first: nat, k: nat, o: nat): nat
    requires FirstHeader(first) && HeaderSize(first, k) <= o
  {
    if k == 0 then o - first else FirstBody(first) + PAGE_BODY * (k - 1) + (o - PAGE_HEADER_SIZE)
  }

  ghost predicate HeadersFor(first: nat, headers: seq<seq<byte>>, body: seq<byte>)
    requires FirstHeader(first)
  {
    && PageStart(first, |body|)
    && |headers| == PageCount(first, |body|)
    && forall k :: 0 <= k < |headers| ==> |headers[k]| == HeaderSize(first, k)
  }

  /** The tape cut into pages, each behind its header. */
  function SegmentFile(first: nat, headers: seq<seq<byte>>, body: seq<byte>): (data: seq<byte>)
    requires FirstHeader(first) && HeadersFor(first, headers, body)
    ensures |data| == PAGE_SIZE * |headers|
  {
    seq(PAGE_SIZE * |headers|, i requires 0 <= i < PAGE_SIZE * |headers| =>
      var k, o := i / PAGE_SIZE, i % PAGE_SIZE;
      if o < HeaderSize(first, k) then headers[k][o]
      else
        TapeIndexBound(first, headers, body, k, o);
        body[TapeIndex(first, k, o)])
  }

  lemma TapeIndexBound(first: nat, headers: seq<seq<byte>>, body: seq<byte>, k: nat, o: nat)
    requires FirstHeader(first) && HeadersFor(first, headers, body)
    requires k < |headers| && HeaderSize(first, k) <= o < PAGE_SIZE
    ensures TapeIndex(first, k, o) < |body|
  {
    var b, n := FirstBody(first), (|body| - FirstBody(first)) / PAGE_BODY;
    assert |body| >= b && |body| - b == PAGE_BODY * n;
    if k > 0 { assert PAGE_BODY * (k - 1) + PAGE_BODY <= PAGE_BODY * n; }
  }

  /** When all pages are readable, tape and file positions correspond by arithmetic. */
  lemma {:induction false} AllReadable(first: nat, ok: seq<bool>)
    requires FirstHeader(first) && forall k :: 0 <= k < |ok| ==> ok[k]
    ensures |Bodies(first, ok)| == (if |ok| == 0 then 0 else FirstBody(first) + PAGE_BODY * (|ok| - 1))
    ensures forall p :: 0 <= p < |Bodies(first, ok)| ==> Bodies(first, ok)[p] == FilePosition(first, p)
  {
    if |ok| > 0 {
      var k := |ok| - 1;
      AllReadable(first, ok[..k]);
      var before, h, all := Bodies(first, ok[..k]), HeaderSize(first, k), Bodies(first, ok);
      forall p | 0 <= p < |all| ensures all[p] == FilePosition(first, p) {
        if p < |before| {
          assert all[p] == before[p];
        } else {
          assert all[p] == PageBody(k, h)[p - |before|];
          if k > 0 { Quotient(k - 1, p - |before|); }
        }
      }
    }
  }

  lemma Quotient(k: nat, o: nat)
    requires o < PAGE_BODY
    ensures (PAGE_BODY * k + o) / PAGE_BODY == k && (PAGE_BODY * k + o) % PAGE_BODY == o
  {
  }

  /** Reading the tape position of a file position gives back the body byte written there. */
  lemma BodyByte(first: nat, headers: seq<seq<byte>>, body: seq<byte>, p: nat)
    requires FirstHeader(first) && HeadersFor(first, headers, body) && p < |body|
    ensures FilePosition(first, p) < |SegmentFile(first, headers, body)|
    ensures SegmentFile(first, headers, body)[FilePosition(first, p)] == body[p]
    ensures PAGE_SIZE - FilePosition(first, p) % PAGE_SIZE == RoomAt(first, p)
  {
    var b := FirstBody(first);
    var n := (|body| - b) / PAGE_BODY;
    assert |body| - b == PAGE_BODY * n;
    if p < b {
      PagePosition(0, first + p);
    } else {
      var k, o := (p - b) / PAGE_BODY, (p - b) % PAGE_BODY;
      assert PAGE_BODY * k <= p - b < PAGE_BODY * n;
      PagePosition(1 + k, PAGE_HEADER_SIZE + o);
      assert TapeIndex(first, 1 + k, PAGE_HEADER_SIZE + o) == p;
    }
  }

  lemma HeaderByte(first: nat, headers: seq<seq<byte>>, body: seq<byte>, k: nat, o: nat)
    requires FirstHeader(first) && HeadersFor(first, headers, body)
    requires k < |headers| && o < HeaderSize(first, k)
    ensures SegmentFile(first, headers, body)[PAGE_SIZE * k + o] == headers[k][o]
  {
    PagePosition(k, o);
  }
}
