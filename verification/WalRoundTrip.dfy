/** Writing records with WalLayout and reading the file back, for both readers. */
module WalRoundTrip {
  import opened Bytes
  import opened WalLayout
  import opened WalPages
  import opened WalTape
  import Go = GoWalReader
  import Rust = RustWalReader

  /** The tape of a written file is what was written, page for page. */
  lemma TapeOfWritten(s: Segment, headers: seq<seq<byte>>, body: seq<byte>)
    requires s.Valid() && HeadersFor(s.first, headers, body)
    requires s.data == SegmentFile(s.first, headers, body)
    requires forall k :: 0 <= k < |s.ok| ==> s.ok[k]
    ensures Paged(s.Laid(), s.first) && s.Laid().bytes == body
    ensures forall p :: 0 <= p < |body| ==> s.Laid().pos[p] == FilePosition(s.first, p)
  {
    hide HeaderSize, FilePosition, RoomAt, Segment.All;
    var t := s.Laid();
    AllReadable(s.first, s.ok);
    PagesFilled(s.first, |body|);
    forall p | 0 <= p < |body| ensures t.bytes[p] == body[p] && t.Room(p) == RoomAt(s.first, p) {
      BodyByte(s.first, headers, body, p);
    }
  }

  lemma PagesFilled(first: nat, length: nat)
    requires FirstHeader(first) && PageStart(first, length)
    ensures var n := PageCount(first, length);
            length == (if n == 0 then 0 else FirstBody(first) + PAGE_BODY * (n - 1))
  {
  }

  /** Tape position x lies strictly inside one of the records. */
  ghost predicate Inside(spans: seq<Span>, x: nat) {
    exists i :: 0 <= i < |spans| && spans[i].at < x < spans[i].at + spans[i].len
  }

  lemma NotInsideHead(head: Span, tail: seq<Span>, x: nat)
    requires head.at + head.len <= x && !Inside(tail, x)
    ensures !Inside([head] + tail, x)
  {
    var all := [head] + tail;
    forall i | 0 <= i < |all| ensures !(all[i].at < x < all[i].at + all[i].len) {
      if i > 0 { assert all[i] == tail[i - 1]; }
    }
  }

  lemma {:induction false} PlacesFrom(first: nat, rs: seq<seq<byte>>, p: nat, i: nat)
    requires FirstHeader(first) && i < |rs|
    ensures p <= Places(first, rs, p)[i].at
    decreases |rs|, if RoomAt(first, p) < RECORD_HEADER_SIZE then 1 else 0
  {
    if RoomAt(first, p) < RECORD_HEADER_SIZE {
      NextPage(first, p);
      PlacesFrom(first, rs, p + RoomAt(first, p), i);
    } else if i > 0 {
      PlacesFrom(first, rs[1..], p + Extent(first, p, |rs[0]|), i - 1);
    }
  }

  /** A tape that asks the reader to step on only inside records does not do so where it looks for one. */
  lemma {:induction false} SkipsInside(t: Tape, first: nat, rs: seq<seq<byte>>, p: nat)
    requires FirstHeader(first)
    requires forall x :: p <= x < |t.skip| && !Inside(Places(first, rs, p), x) ==> t.skip[x] == 0
    ensures NoSkips(t, first, rs, p)
    decreases |rs|, if RoomAt(first, p) < RECORD_HEADER_SIZE then 1 else 0
  {
    hide RoomAt, Extent;
    forall i | 0 <= i < |rs| ensures p <= Places(first, rs, p)[i].at { PlacesFrom(first, rs, p, i); }
    assert !Inside(Places(first, rs, p), p);
    if rs != [] {
      if RoomAt(first, p) < RECORD_HEADER_SIZE {
        NextPage(first, p);
        SkipsInside(t, first, rs, p + RoomAt(first, p));
      } else {
        var next := p + Extent(first, p, |rs[0]|);
        forall x | next <= x < |t.skip| && !Inside(Places(first, rs[1..], next), x) ensures t.skip[x] == 0 {
          assert Places(first, rs, p) == [Span(p, |rs[0]|)] + Places(first, rs[1..], next);
          NotInsideHead(Span(p, |rs[0]|), Places(first, rs[1..], next), x);
        }
        SkipsInside(t, first, rs[1..], next);
      }
    }
  }

  /** A scan of a written file finds the written records at their places. */
  lemma WrittenSpans(s: Segment, headers: seq<seq<byte>>, rs: seq<seq<byte>>)
    requires s.Valid() && AllWritable(rs) && HeadersFor(s.first, headers, Write(s.first, rs, 0))
    requires s.data == SegmentFile(s.first, headers, Write(s.first, rs, 0))
    requires forall k :: 0 <= k < |s.ok| ==> s.ok[k]
    requires NoSkips(s.Laid(), s.first, rs, 0)
    ensures s.All() == Places(s.first, rs, 0)
    ensures forall i :: 0 <= i < |rs| ==>
              var span := Places(s.first, rs, 0)[i];
              && span.at + span.len <= |s.Laid().bytes| && s.Laid().Raw(span) == rs[i]
              && span.at < |s.Laid().pos| && s.Laid().pos[span.at] == FilePosition(s.first, span.at)
  {
    hide LE32, SegmentFile, HeadersFor, Write, FilePosition, RoomAt;
    var body := Write(s.first, rs, 0);
    TapeOfWritten(s, headers, body);
    ScanWritten(s.Laid(), s.first, rs, 0);
    forall i | 0 <= i < |rs|
      ensures var span := Places(s.first, rs, 0)[i];
              && span.at + span.len <= |s.Laid().bytes| && s.Laid().Raw(span) == rs[i]
              && span.at < |s.Laid().pos| && s.Laid().pos[span.at] == FilePosition(s.first, span.at)
    {
      WrittenHeld(s.Laid().bytes, s.first, rs, 0, i);
      assert InBounds(s.Laid(), s.All());
    }
  }

  // ---- Go ----

  /** Offset within its page of the i-th written record. */
  function PageOffset(first: nat, rs: seq<seq<byte>>, i: nat): nat
    requires FirstHeader(first) && i < |rs|
  {
    FilePosition(first, Places(first, rs, 0)[i].at) % PAGE_SIZE
  }

  ghost predicate GoHeaders(headers: seq<seq<byte>>, rs: seq<seq<byte>>) {
    && HeadersFor(Go.LONG_PAGE_HEADER_SIZE, headers, Write(Go.LONG_PAGE_HEADER_SIZE, rs, 0))
    && forall k :: 0 <= k < |headers| ==> LE16(headers[k], 0) == Go.PAGE_MAGIC
  }

  function GoFile(headers: seq<seq<byte>>, rs: seq<seq<byte>>): seq<byte>
    requires GoHeaders(headers, rs)
  {
    SegmentFile(Go.LONG_PAGE_HEADER_SIZE, headers, Write(Go.LONG_PAGE_HEADER_SIZE, rs, 0))
  }

  /** Whatever the page headers hold besides the magic, the Go reader returns exactly the written records. */
  lemma GoRoundTrip(headers: seq<seq<byte>>, rs: seq<seq<byte>>, segNum: u64)
    requires AllWritable(rs) && GoHeaders(headers, rs)
    ensures |Go.AllRecords(GoFile(headers, rs), segNum, 0)| == |rs|
    ensures forall i :: 0 <= i < |rs| ==>
              var offset := PageOffset(Go.LONG_PAGE_HEADER_SIZE, rs, i);
              Go.AllRecords(GoFile(headers, rs), segNum, 0)[i] == Go.RecordOf(rs[i], Go.LsnValue(segNum, offset), offset)
  {
    hide LE16, LE32, SegmentFile, Write, Places, FilePosition, Go.RecordOf, Segment.All, Segment.Laid, NoSkips;
    var data, s := GoFile(headers, rs), Go.View(GoFile(headers, rs), 0);
    forall k | 0 <= k < |s.ok| ensures s.ok[k] {
      GoMagic(headers, rs, k);
    }
    SkipsInside(s.Laid(), s.first, rs, 0);
    WrittenSpans(s, headers, rs);
  }

  lemma GoMagic(headers: seq<seq<byte>>, rs: seq<seq<byte>>, k: nat)
    requires GoHeaders(headers, rs) && k < |GoFile(headers, rs)| / PAGE_SIZE
    ensures LE16(GoFile(headers, rs), PAGE_SIZE * k) == Go.PAGE_MAGIC
  {
    hide SegmentFile, Write;
    var body := Write(Go.LONG_PAGE_HEADER_SIZE, rs, 0);
    HeaderByte(Go.LONG_PAGE_HEADER_SIZE, headers, body, k, 0);
    HeaderByte(Go.LONG_PAGE_HEADER_SIZE, headers, body, k, 1);
    LE16Same(GoFile(headers, rs), PAGE_SIZE * k, headers[k], 0);
  }

  // ---- Rust ----

  /** Headers whose rem_len is zero on the pages that do not continue a record; on those that do it may be anything. */
  ghost predicate RustHeaders(headers: seq<seq<byte>>, rs: seq<seq<byte>>) {
    var first := Rust.LONG_PAGE_HEADER_SIZE;
    && HeadersFor(first, headers, Write(first, rs, 0))
    && forall k :: 0 < k < |headers| ==>
         BE32(headers[k], 16) == 0 || Inside(Places(first, rs, 0), TapeIndex(first, k, PAGE_HEADER_SIZE))
  }

  function RustFile(headers: seq<seq<byte>>, rs: seq<seq<byte>>): seq<byte>
    requires RustHeaders(headers, rs)
  {
    SegmentFile(Rust.LONG_PAGE_HEADER_SIZE, headers, Write(Rust.LONG_PAGE_HEADER_SIZE, rs, 0))
  }

  lemma RustRemLen(headers: seq<seq<byte>>, rs: seq<seq<byte>>, k: nat)
    requires RustHeaders(headers, rs) && 0 < k < |headers|
    ensures Rust.RemLen(RustFile(headers, rs), k) == BE32(headers[k], 16)
  {
    hide SegmentFile, Write;
    var body := Write(Rust.LONG_PAGE_HEADER_SIZE, rs, 0);
    HeaderByte(Rust.LONG_PAGE_HEADER_SIZE, headers, body, k, 16);
    HeaderByte(Rust.LONG_PAGE_HEADER_SIZE, headers, body, k, 17);
    HeaderByte(Rust.LONG_PAGE_HEADER_SIZE, headers, body, k, 18);
    HeaderByte(Rust.LONG_PAGE_HEADER_SIZE, headers, body, k, 19);
  }

  /** Where a page body starts, position by position. */
  lemma BodyStart(first: nat, x: nat)
    requires FirstHeader(first)
    requires var f := FilePosition(first, x); f / PAGE_SIZE > 0 && f % PAGE_SIZE == PAGE_HEADER_SIZE
    ensures x == TapeIndex(first, FilePosition(first, x) / PAGE_SIZE, PAGE_HEADER_SIZE)
  {
    var b := FirstBody(first);
    if x < b {
      PagePosition(0, first + x);
    } else {
      PagePosition(1 + (x - b) / PAGE_BODY, PAGE_HEADER_SIZE + (x - b) % PAGE_BODY);
    }
  }

  /** The Rust reader, too, returns exactly the written records. */
  lemma RustRoundTrip(headers: seq<seq<byte>>, rs: seq<seq<byte>>)
    requires AllWritable(rs) && RustHeaders(headers, rs)
    ensures |Rust.AllEvents(RustFile(headers, rs))| == |rs|
    ensures forall i :: 0 <= i < |rs| ==>
              var data := RustFile(headers, rs);
              var x := FilePosition(Rust.LONG_PAGE_HEADER_SIZE, Places(Rust.LONG_PAGE_HEADER_SIZE, rs, 0)[i].at);
              && PAGE_SIZE * (x / PAGE_SIZE + 1) <= |data|
              && Rust.AllEvents(data)[i] == Rust.EventOf(rs[i], Rust.LsnValue(data, x / PAGE_SIZE, x % PAGE_SIZE))
  {
    hide LE32, SegmentFile, Write, Places, FilePosition, Rust.EventOf, Segment.All, Segment.Laid, NoSkips;
    var data := RustFile(headers, rs);
    Rust.ViewFacts(data);
    Rust.TapeInPages(data);
    RustNoSkips(headers, rs);
    WrittenSpans(Rust.View(data), headers, rs);
  }

  lemma RustNoSkips(headers: seq<seq<byte>>, rs: seq<seq<byte>>)
    requires RustHeaders(headers, rs)
    ensures NoSkips(Rust.View(RustFile(headers, rs)).Laid(), Rust.LONG_PAGE_HEADER_SIZE, rs, 0)
  {
    hide LE32, BE32, SegmentFile, Write, Places, FilePosition, NoSkips, HeadersFor;
    var data, first := RustFile(headers, rs), Rust.LONG_PAGE_HEADER_SIZE;
    var t := Rust.View(data).Laid();
    Rust.ViewFacts(data);
    Rust.TapeInPages(data);
    TapeOfWritten(Rust.View(data), headers, Write(first, rs, 0));
    forall x | 0 <= x < |t.skip| && !Inside(Places(first, rs, 0), x) ensures t.skip[x] == 0 {
      var k := t.pos[x] / PAGE_SIZE;
      if k > 0 && t.pos[x] % PAGE_SIZE == PAGE_HEADER_SIZE {
        BodyStart(first, x);
        RustRemLen(headers, rs, k);
      }
    }
    SkipsInside(t, first, rs, 0);
  }
}
