/** The Go segment reader: WALReader.ReadRecords and buildRecord in backend/pkg/wal/reader.go. */
module GoWalReader {
  import opened Bytes
  import opened Options
  import opened WalPages
  import opened WalTape
  import BlockRefs
  import LsnText

  const LONG_PAGE_HEADER_SIZE: nat := 40
  const PAGE_MAGIC: int := 0xD118

  datatype Record = Record(lsn: string, lsnValue: u64, pageOffset: u32, recordLen: u32, payloadLen: u32, rmgrId: byte,
                           info: byte, xid: u32, prevLsn: string, prevLsnValue: u64, crc: u32, data: seq<byte>,
                           blocks: seq<BlockRefs.GoRef>)

  function RecordOf(raw: seq<byte>, lsnValue: u64, pageOffset: u32): Record
    requires RECORD_HEADER_SIZE <= |raw| < TWO_32
  {
    var payload := raw[RECORD_HEADER_SIZE..];
    var prev := LE64(raw, 8);
    Record(LsnText.FormatLSN64(lsnValue), lsnValue, pageOffset, |raw|, |payload|, raw[17], raw[16], LE32(raw, 4),
           LsnText.FormatLSN64(prev), prev, LE32(raw, 20), payload, BlockRefs.GoRefs(payload, 0, None))
  }

  method BuildRecord(raw: seq<byte>, lsnValue: u64, pageOffset: u32) returns (r: Record)
    requires RECORD_HEADER_SIZE <= |raw| < TWO_32
    ensures r == RecordOf(raw, lsnValue, pageOffset)
  {
    var payload := raw[RECORD_HEADER_SIZE..];
    var blocks := BlockRefs.GoParseBlockReferences(payload);
    r := Record(LsnText.FormatLSN64(lsnValue), lsnValue, pageOffset, |raw|, |payload|, raw[17], raw[16], LE32(raw, 4),
                LsnText.FormatLSN64(LE64(raw, 8)), LE64(raw, 8), LE32(raw, 20), payload, blocks);
  }

  /** The LSN value the reader assigns: segment number above, offset within the page (not the segment) below. */
  function LsnValue(segNum: u64, pageOffset: nat): u64
    requires pageOffset < PAGE_SIZE
  {
    segNum % TWO_32 * TWO_32 + pageOffset
  }

  /** Which of the whole pages of a file carry the WAL page magic. */
  function ReadablePages(data: seq<byte>): seq<bool> {
    seq(|data| / PAGE_SIZE, k requires 0 <= k < |data| / PAGE_SIZE => LE16(data, PAGE_SIZE * k) == PAGE_MAGIC)
  }

  /** The file as the Go reader sees it. A start offset makes it step byte by byte until it gets there. */
  function View(data: seq<byte>, startOffset: int): (s: Segment)
    ensures s.Valid()
  {
    var pos := Bodies(LONG_PAGE_HEADER_SIZE, ReadablePages(data));
    Segment(data, LONG_PAGE_HEADER_SIZE, ReadablePages(data),
            seq(|pos|, p requires 0 <= p < |pos| => if 0 < startOffset && pos[p] < startOffset then 1 else 0))
  }

  function RecordAt(t: Tape, segNum: u64, s: Span): Record
    requires s.at < |t.pos| && s.at + s.len <= |t.bytes|
    requires RECORD_HEADER_SIZE <= s.len < TWO_32
  {
    RecordOf(t.Raw(s), LsnValue(segNum, t.Offset(s.at)), t.Offset(s.at))
  }

  /** The records a file holds, from the start offset on. */
  function AllRecords(data: seq<byte>, segNum: u64, startOffset: int): seq<Record> {
    var s := View(data, startOffset);
    seq(|s.All()|, i requires 0 <= i < |s.All()| => RecordAt(s.Laid(), segNum, s.All()[i]))
  }

  /**
   * Every record is a slice of the tape: in order, disjoint from the others, as long as its first four bytes say,
   * however many pages it crosses, and starting at or after the start offset.
   */
  lemma RecordsAreSlices(data: seq<byte>, segNum: u64, startOffset: int)
    ensures |AllRecords(data, segNum, startOffset)| == |View(data, startOffset).All()|
    ensures View(data, startOffset).Laid().Slices(View(data, startOffset).All(), 0)
    ensures forall i :: 0 <= i < |AllRecords(data, segNum, startOffset)| ==>
              var t, s := View(data, startOffset).Laid(), View(data, startOffset).All()[i];
              var r := AllRecords(data, segNum, startOffset)[i];
              && s.at + s.len <= |t.bytes| && startOffset <= t.pos[s.at]
              && r.recordLen == s.len == RECORD_HEADER_SIZE + r.payloadLen
              && r.pageOffset == t.pos[s.at] % PAGE_SIZE
              && r.lsnValue == segNum % TWO_32 * TWO_32 + r.pageOffset
              && r.data == t.bytes[s.at + RECORD_HEADER_SIZE..s.at + s.len]
  {
    hide LE16, LE32, LE64;
    var t, spans := View(data, startOffset).Laid(), View(data, startOffset).All();
    forall i | 0 <= i < |spans|
      ensures var s, r := spans[i], AllRecords(data, segNum, startOffset)[i];
              && s.at + s.len <= |t.bytes| && startOffset <= t.pos[s.at]
              && r.recordLen == s.len == RECORD_HEADER_SIZE + r.payloadLen
              && r.pageOffset == t.pos[s.at] % PAGE_SIZE
              && r.lsnValue == segNum % TWO_32 * TWO_32 + r.pageOffset
              && r.data == t.bytes[s.at + RECORD_HEADER_SIZE..s.at + s.len]
    {
      var s := spans[i];
      assert t.skip[s.at] == 0;
      assert t.Raw(s)[RECORD_HEADER_SIZE..] == t.bytes[s.at + RECORD_HEADER_SIZE..s.at + s.len];
    }
  }

  /** The tape of a file is exactly the bodies of its whole pages with the right magic, in file order. */
  lemma TapeIsBodies(data: seq<byte>, startOffset: int)
    ensures forall x: nat :: x in View(data, startOffset).Laid().pos <==>
              && x / PAGE_SIZE < |data| / PAGE_SIZE
              && LE16(data, x / PAGE_SIZE * PAGE_SIZE) == PAGE_MAGIC
              && (if x / PAGE_SIZE == 0 then LONG_PAGE_HEADER_SIZE else PAGE_HEADER_SIZE) <= x % PAGE_SIZE
    ensures var t := View(data, startOffset).Laid();
            forall p :: 0 <= p < |t.pos| ==> t.pos[p] < |data| && t.bytes[p] == data[t.pos[p]]
    ensures forall p, q :: 0 <= p < q < |View(data, startOffset).Laid().pos| ==>
              View(data, startOffset).Laid().pos[p] < View(data, startOffset).Laid().pos[q]
  {
    hide LE16;
    BodiesShape(LONG_PAGE_HEADER_SIZE, ReadablePages(data));
    forall x: nat
      ensures x in View(data, startOffset).Laid().pos <==>
              && x / PAGE_SIZE < |data| / PAGE_SIZE
              && LE16(data, x / PAGE_SIZE * PAGE_SIZE) == PAGE_MAGIC
              && (if x / PAGE_SIZE == 0 then LONG_PAGE_HEADER_SIZE else PAGE_HEADER_SIZE) <= x % PAGE_SIZE
    {
      BodiesExact(LONG_PAGE_HEADER_SIZE, ReadablePages(data), x);
    }
  }

  // ---- the reader ----

  /** A record that did not fit its page: the bytes met so far, and what its first page said of it. */
  datatype Pending = Pending(bytes: seq<byte>, len: nat, lsnValue: u64, offset: u32)

  const NO_PENDING := Pending([], 0, 0, 0)

  /** What is read and from where: the segment file, its number and the start offset. */
  datatype Source = Source(data: seq<byte>, segNum: u64, startOffset: int) {
    /** The records read so far open the file's list, and a scan from tape position p finds the others. */
    ghost predicate Reached(records: seq<Record>, p: nat) {
      View(data, startOffset).At(|records|, p) && records <= AllRecords(data, segNum, startOffset)
    }

    /** Where the reader stands between pages: at p, or inside a record whose first bytes end there. */
    ghost predicate BetweenPages(records: seq<Record>, pending: Pending, p: nat) {
      var s := View(data, startOffset);
      if pending.bytes == [] then Reached(records, p)
      else
        && s.Awaits(|records|, pending.bytes, pending.len, p)
        && records <= AllRecords(data, segNum, startOffset)
        && pending.offset == s.Laid().Offset(p - |pending.bytes|)
        && pending.lsnValue == LsnValue(segNum, pending.offset)
    }

    lemma NextRecord(records: seq<Record>, p: nat, len: nat, raw: seq<byte>)
      requires View(data, startOffset).Found(|records|, p, len, raw)
      requires records <= AllRecords(data, segNum, startOffset)
      ensures p < |View(data, startOffset).Laid().pos| && RECORD_HEADER_SIZE <= len < TWO_32
      ensures var offset := View(data, startOffset).Laid().Offset(p);
              records + [RecordOf(raw, LsnValue(segNum, offset), offset)] <= AllRecords(data, segNum, startOffset)
    {
      hide RecordOf, View, Segment.Laid, Segment.All;
      var s := View(data, startOffset);
      assert AllRecords(data, segNum, startOffset)[|records|] == RecordAt(s.Laid(), segNum, Span(p, len));
      assert s.Laid().Raw(Span(p, len)) == raw;
    }

    lemma SkipAt(k: nat, offset: nat)
      requires k < |data| / PAGE_SIZE && View(data, startOffset).ok[k]
      requires HeaderSize(LONG_PAGE_HEADER_SIZE, k) <= offset < PAGE_SIZE
      ensures var s := View(data, startOffset);
              var p := s.Position(k, offset);
              && p < |s.skip| && s.Laid().Offset(p) == offset
              && s.skip[p] == (if 0 < startOffset && PAGE_SIZE * k + offset < startOffset then 1 else 0)
    {
      hide Segment.Base, ReadablePages, Segment.Laid;
      View(data, startOffset).PageOnTape(k, offset);
    }
  }

  /** The records that start on one page; stop says that the limit was reached. */
  method ReadPage(ghost src: Source, data: seq<byte>, segNum: u64, startOffset: int, limit: int, k: nat, page: seq<byte>,
                  start: nat, found: seq<Record>)
    returns (records: seq<Record>, pending: Pending, stop: bool)
    requires src == Source(data, segNum, startOffset)
    requires View(data, startOffset).IsPage(k, page)
    requires HeaderSize(LONG_PAGE_HEADER_SIZE, k) <= start <= PAGE_SIZE
    requires src.Reached(found, View(data, startOffset).Position(k, start))
    requires limit > 0 ==> |found| < limit
    ensures stop ==> records == Limited(AllRecords(data, segNum, startOffset), limit)
    ensures !stop ==> src.BetweenPages(records, pending, View(data, startOffset).Base(k + 1))
    ensures !stop && limit > 0 ==> |records| < limit
  {
    hide LE32, RecordOf, AllRecords, AlignRecordLength, View;
    hide Segment.Base, Segment.At, Segment.Awaits, Segment.Found, Segment.Laid, Segment.All;
    ghost var seen := View(data, startOffset);
    ViewFirst(data, startOffset);
    records, pending, stop := found, NO_PENDING, false;
    var pageStart, offset := PAGE_SIZE * k, start;
    while offset + RECORD_HEADER_SIZE <= PAGE_SIZE
      invariant HeaderSize(LONG_PAGE_HEADER_SIZE, k) <= offset
      invariant src.Reached(records, seen.Position(k, Min(offset, PAGE_SIZE)))
      invariant limit > 0 ==> |records| < limit
      decreases PAGE_SIZE - offset
    {
      src.SkipAt(k, offset);
      if startOffset > 0 && pageStart + offset < startOffset {
        seen.StepOver(k, |records|, offset);
        offset := offset + 1;
        continue;
      }
      var recLen := LE32(page, offset);
      if recLen == 0 {
        seen.StepOffPage(k, page, |records|, offset);
        return;
      }
      if recLen < RECORD_HEADER_SIZE {
        seen.StepOffPage(k, page, |records|, offset);
        return;
      }
      var lsnValue := LsnValue(segNum, offset);
      if offset + recLen > PAGE_SIZE {
        seen.StepSpill(k, page, |records|, offset);
        pending := Pending(page[offset..PAGE_SIZE], recLen, lsnValue, offset);
        return;
      }
      seen.StepRecord(k, page, |records|, offset);
      src.NextRecord(records, seen.Position(k, offset), recLen, page[offset..offset + recLen]);
      var record := BuildRecord(page[offset..offset + recLen], lsnValue, offset);
      records := records + [record];
      offset := offset + AlignRecordLength(recLen);
      if limit > 0 && |records| >= limit {
        stop := true;
        return;
      }
    }
    seen.StepOffPage(k, page, |records|, Min(offset, PAGE_SIZE));
  }

  /** The pending record takes its next bytes from page k; it is complete when none are left pending. */
  method Resume(ghost src: Source, data: seq<byte>, segNum: u64, startOffset: int, k: nat, page: seq<byte>,
                found: seq<Record>, before: Pending)
    returns (records: seq<Record>, pending: Pending, offset: nat)
    requires src == Source(data, segNum, startOffset)
    requires View(data, startOffset).IsPage(k, page) && before.bytes != []
    requires src.BetweenPages(found, before, View(data, startOffset).Base(k))
    ensures HeaderSize(LONG_PAGE_HEADER_SIZE, k) <= offset <= PAGE_SIZE
    ensures pending.bytes == [] ==>
              |records| == |found| + 1 && src.Reached(records, View(data, startOffset).Position(k, offset))
    ensures pending.bytes != [] ==>
              records == found && src.BetweenPages(records, pending, View(data, startOffset).Base(k + 1))
  {
    hide LE16, LE32, RecordOf, AllRecords, View, LsnValue;
    hide Segment.Base, Segment.At, Segment.Awaits, Segment.Found, Segment.Laid, Segment.All;
    ghost var seen := View(data, startOffset);
    ViewFirst(data, startOffset);
    seen.PageShape(k, page);
    seen.AwaitsLonger(|found|, before.bytes, before.len, seen.Base(k));
    var headerSize := HeaderSize(LONG_PAGE_HEADER_SIZE, k);
    records, pending := found, before;
    var available := PAGE_SIZE - headerSize;
    var need := pending.len - |pending.bytes|;
    var take := need;
    if take > available {
      take := available;
    }
    pending := pending.(bytes := pending.bytes + page[headerSize..headerSize + take]);
    offset := headerSize + take;
    if |pending.bytes| == pending.len {
      seen.StepComplete(k, page, |records|, before.bytes, pending.len);
      src.NextRecord(records, seen.Base(k) - |before.bytes|, pending.len, pending.bytes);
      var record := BuildRecord(pending.bytes, pending.lsnValue, pending.offset);
      records := records + [record];
      pending := NO_PENDING;
    } else {
      seen.StepAppend(k, page, |records|, before.bytes, pending.len);
    }
  }

  method ReadRecords(data: seq<byte>, segNum: u64, startOffset: int, limit: int) returns (records: seq<Record>)
    ensures records == Limited(AllRecords(data, segNum, startOffset), limit)
  {
    hide LE16, LE32, RecordOf, AllRecords, View, Limited, LsnValue, ReadablePages;
    hide Segment.Base, Segment.At, Segment.Awaits, Segment.Found, Segment.Laid, Segment.All;
    ghost var src, seen := Source(data, segNum, startOffset), View(data, startOffset);
    ViewFirst(data, startOffset);
    records := [];
    var pending := NO_PENDING;
    seen.BaseEnds();
    seen.Start();

    var k := 0;
    while PAGE_SIZE * k + PAGE_SIZE <= |data|
      invariant 0 <= k <= |data| / PAGE_SIZE
      invariant src.BetweenPages(records, pending, seen.Base(k))
      invariant limit > 0 ==> |records| < limit
      decreases |data| - PAGE_SIZE * k
    {
      var pageStart := PAGE_SIZE * k;
      var page := data[pageStart..pageStart + PAGE_SIZE];
      var headerSize := if pageStart == 0 then LONG_PAGE_HEADER_SIZE else PAGE_HEADER_SIZE;
      k := k + 1;
      var magic := LE16(page, 0);
      LE16Same(page, 0, data, pageStart);
      seen.BaseOver(k - 1);
      if magic != PAGE_MAGIC {
        continue;
      }
      var offset := headerSize;
      if |pending.bytes| > 0 {
        records, pending, offset := Resume(src, data, segNum, startOffset, k - 1, page, records, pending);
        if |pending.bytes| > 0 {
          continue;
        }
        if limit > 0 && |records| >= limit {
          LimitReached(records, AllRecords(data, segNum, startOffset), limit);
          return;
        }
      }
      var stop;
      records, pending, stop := ReadPage(src, data, segNum, startOffset, limit, k - 1, page, offset, records);
      if stop {
        return;
      }
    }
    if pending.bytes == [] {
      seen.Stop(|records|);
    } else {
      seen.StopPending(|records|, pending.bytes, pending.len);
    }
    CountRecords(data, segNum, startOffset);
    LimitNotReached(records, AllRecords(data, segNum, startOffset), limit);
  }

  lemma ViewFirst(data: seq<byte>, startOffset: int)
    ensures var s := View(data, startOffset);
            && s.first == LONG_PAGE_HEADER_SIZE && s.data == data
            && |s.ok| == |data| / PAGE_SIZE
            && forall k :: 0 <= k < |s.ok| ==> s.ok[k] == (LE16(data, PAGE_SIZE * k) == PAGE_MAGIC)
  {
  }

  lemma CountRecords(data: seq<byte>, segNum: u64, startOffset: int)
    ensures |AllRecords(data, segNum, startOffset)| == |View(data, startOffset).All()|
  {
    hide RecordOf;
  }
}
