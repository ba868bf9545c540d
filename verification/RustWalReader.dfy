/** The Rust segment reader: read_records and parse_record_bytes in collector/src/wal_file.rs. */
module RustWalReader {
  import opened Bytes
  import opened Options
  import opened WalPages
  import opened WalTape
  import BlockRefs
  import LsnText

  const LONG_PAGE_HEADER_SIZE: nat := 36

  datatype Event = Event(xlogPtr: string, lsnValue: u64, recordLen: u32, payloadLen: u32, rmgrId: byte, info: byte,
                         xid: u32, blockNum: Option<u32>, relOid: Option<u32>, blocks: seq<BlockRefs.RustRef>)

  function FirstBlockNum(blocks: seq<BlockRefs.RustRef>): Option<u32> {
    if blocks == [] then None else Some(blocks[0].blockNum)
  }

  function FirstRelOid(blocks: seq<BlockRefs.RustRef>): Option<u32> {
    if blocks == [] || blocks[0].rel.None? then None else Some(blocks[0].rel.value.node)
  }

  function EventOf(raw: seq<byte>, lsnValue: u64): Event
    requires RECORD_HEADER_SIZE <= |raw| < TWO_32
  {
    var payload := raw[RECORD_HEADER_SIZE..];
    var blocks := BlockRefs.RustRefs(payload, 0, None);
    Event(LsnText.FormatLSN64(lsnValue), lsnValue, |raw|, |payload|, raw[17], raw[16], LE32(raw, 4),
          FirstBlockNum(blocks), FirstRelOid(blocks), blocks)
  }

  method ParseRecordBytes(raw: seq<byte>, lsnValue: u64) returns (e: Event)
    requires RECORD_HEADER_SIZE <= |raw| < TWO_32
    ensures e == EventOf(raw, lsnValue)
  {
    var payload := raw[RECORD_HEADER_SIZE..];
    var blocks := BlockRefs.RustParseBlockRefs(payload);
    e := Event(LsnText.FormatLSN64(lsnValue), lsnValue, |raw|, |payload|, raw[17], raw[16], LE32(raw, 4),
               FirstBlockNum(blocks), FirstRelOid(blocks), blocks);
  }

  // ---- page headers ----

  function PageAddr(data: seq<byte>, k: nat): u64
    requires PAGE_SIZE * (k + 1) <= |data|
  {
    BE64(data, PAGE_SIZE * k + 8)
  }

  /** What the header of page k says is left of a record begun on an earlier page. */
  function RemLen(data: seq<byte>, k: nat): u32
    requires PAGE_SIZE * (k + 1) <= |data|
  {
    BE32(data, PAGE_SIZE * k + 16)
  }

  /** Page address plus offset in u64; a debug build stops where this wraps. */
  function LsnValue(data: seq<byte>, k: nat, offset: nat): u64
    requires PAGE_SIZE * (k + 1) <= |data|
  {
    (PageAddr(data, k) + offset) % TWO_64
  }

  /** A page entered with no record pending starts with rem_len bytes to step over, the first page excepted. */
  function SkipAt(data: seq<byte>, x: nat): (skip: nat)
    requires PAGE_SIZE * (x / PAGE_SIZE + 1) <= |data|
    ensures x % PAGE_SIZE >= PAGE_HEADER_SIZE ==> skip <= PAGE_SIZE - x % PAGE_SIZE
  {
    if x / PAGE_SIZE > 0 && x % PAGE_SIZE == PAGE_HEADER_SIZE
    then Min(RemLen(data, x / PAGE_SIZE), PAGE_SIZE - PAGE_HEADER_SIZE)
    else 0
  }

  function AllPages(data: seq<byte>): seq<bool> {
    seq(|data| / PAGE_SIZE, _ => true)
  }

  /** The file as the Rust reader sees it: every whole page counts, whatever its magic. */
  function View(data: seq<byte>): (s: Segment)
    ensures s.Valid()
  {
    hide BE32;
    var pos := Bodies(LONG_PAGE_HEADER_SIZE, AllPages(data));
    BodiesRoom(LONG_PAGE_HEADER_SIZE, AllPages(data));
    Segment(data, LONG_PAGE_HEADER_SIZE, AllPages(data),
            seq(|pos|, p requires 0 <= p < |pos| => WithinPages(data, pos[p]); SkipAt(data, pos[p])))
  }

  lemma WithinPages(data: seq<byte>, x: nat)
    requires x < PAGE_SIZE * (|data| / PAGE_SIZE)
    ensures PAGE_SIZE * (x / PAGE_SIZE + 1) <= |data|
  {
  }

  function EventAt(data: seq<byte>, t: Tape, s: Span): Event
    requires s.at < |t.pos| && s.at + s.len <= |t.bytes| && PAGE_SIZE * (t.pos[s.at] / PAGE_SIZE + 1) <= |data|
    requires RECORD_HEADER_SIZE <= s.len < TWO_32
  {
    EventOf(t.Raw(s), LsnValue(data, t.pos[s.at] / PAGE_SIZE, t.Offset(s.at)))
  }

  /** Every tape position lies in a whole page. */
  lemma TapeInPages(data: seq<byte>)
    ensures forall p :: 0 <= p < |View(data).Laid().pos| ==>
              PAGE_SIZE * (View(data).Laid().pos[p] / PAGE_SIZE + 1) <= |data|
  {
    BodiesRoom(LONG_PAGE_HEADER_SIZE, AllPages(data));
    forall p | 0 <= p < |View(data).Laid().pos|
      ensures PAGE_SIZE * (View(data).Laid().pos[p] / PAGE_SIZE + 1) <= |data|
    {
      WithinPages(data, View(data).Laid().pos[p]);
    }
  }

  /** The records a file holds. */
  function AllEvents(data: seq<byte>): seq<Event> {
    TapeInPages(data);
    var s := View(data);
    seq(|s.All()|, i requires 0 <= i < |s.All()| => EventAt(data, s.Laid(), s.All()[i]))
  }

  // ---- the reader ----

  /** The events read so far open the file's list, and a scan from tape position p finds the others. */
  ghost predicate Reached(data: seq<byte>, events: seq<Event>, p: nat) {
    View(data).At(|events|, p) && events <= AllEvents(data)
  }

  ghost predicate BetweenPages(data: seq<byte>, events: seq<Event>, pending: seq<byte>, len: nat, lsn: u64, p: nat) {
    var s := View(data);
    if pending == [] then Reached(data, events, p)
    else
      && s.Awaits(|events|, pending, len, p)
      && events <= AllEvents(data)
      && LsnIs(data, p - |pending|, lsn)
  }

  ghost predicate LsnIs(data: seq<byte>, p: nat, lsn: u64) {
    var t := View(data).Laid();
    && p < |t.pos| && PAGE_SIZE * (t.pos[p] / PAGE_SIZE + 1) <= |data|
    && lsn == LsnValue(data, t.pos[p] / PAGE_SIZE, t.Offset(p))
  }

  lemma NextEvent(data: seq<byte>, events: seq<Event>, p: nat, len: nat, raw: seq<byte>, lsn: u64)
    requires View(data).Found(|events|, p, len, raw)
    requires events <= AllEvents(data)
    requires LsnIs(data, p, lsn)
    ensures RECORD_HEADER_SIZE <= len < TWO_32
    ensures events + [EventOf(raw, lsn)] <= AllEvents(data)
  {
    hide EventOf, View, Segment.Laid, Segment.All, LsnValue;
    TapeInPages(data);
    var s := View(data);
    assert AllEvents(data)[|events|] == EventAt(data, s.Laid(), Span(p, len));
    assert s.Laid().Raw(Span(p, len)) == raw;
  }

  lemma ViewFacts(data: seq<byte>)
    ensures var s := View(data);
            && s.first == LONG_PAGE_HEADER_SIZE && s.data == data
            && |s.ok| == |data| / PAGE_SIZE && forall k :: 0 <= k < |s.ok| ==> s.ok[k]
    ensures |AllEvents(data)| == |View(data).All()|
  {
    hide EventOf;
  }

  /** What the reader meets at an offset of page k. */
  lemma OffsetFacts(data: seq<byte>, k: nat, offset: nat)
    requires k < |data| / PAGE_SIZE && HeaderSize(LONG_PAGE_HEADER_SIZE, k) <= offset < PAGE_SIZE
    ensures View(data).first == LONG_PAGE_HEADER_SIZE && |View(data).ok| == |data| / PAGE_SIZE
    ensures var s := View(data);
            var p := s.Position(k, offset);
            && LsnIs(data, p, LsnValue(data, k, offset))
            && p < |s.skip|
            && s.skip[p] == (if k > 0 && offset == PAGE_HEADER_SIZE
                             then Min(RemLen(data, k), PAGE_SIZE - PAGE_HEADER_SIZE) else 0)
  {
    hide BE32, BE64, Segment.Base, Segment.Laid;
    View(data).PageOnTape(k, offset);
    PagePosition(k, offset);
  }

  /** The records on page k from start on, once the bytes rem_len counts have been stepped over. */
  method ReadPage(data: seq<byte>, k: nat, page: seq<byte>, start: nat, found: seq<Event>)
    returns (events: seq<Event>, pending: seq<byte>, pendingLen: nat, pendingLsn: u64)
    requires View(data).IsPage(k, page)
    requires HeaderSize(LONG_PAGE_HEADER_SIZE, k) <= start <= PAGE_SIZE
    requires start == PAGE_HEADER_SIZE && PAGE_SIZE * (k + 1) <= |data| ==> RemLen(data, k) == 0 || k == 0
    requires Reached(data, found, View(data).Position(k, start))
    ensures BetweenPages(data, events, pending, pendingLen, pendingLsn, View(data).Base(k + 1))
  {
    hide BE32, BE64, LE32, EventOf, AllEvents, View, LsnIs, LsnValue, PageAddr, RemLen, AlignRecordLength;
    hide Segment.Base, Segment.At, Segment.Awaits, Segment.Found, Segment.Laid, Segment.All;
    ghost var seen := View(data);
    ViewFacts(data);
    events, pending, pendingLen, pendingLsn := found, [], 0, 0;
    var offset := start;
    while offset + RECORD_HEADER_SIZE <= PAGE_SIZE
      invariant start <= offset && (offset == PAGE_HEADER_SIZE ==> start == offset)
      invariant Reached(data, events, seen.Position(k, Min(offset, PAGE_SIZE)))
      decreases PAGE_SIZE - offset
    {
      var totalLen := LE32(page, offset);
      OffsetFacts(data, k, offset);
      if totalLen == 0 || totalLen < RECORD_HEADER_SIZE || offset + totalLen > PAGE_SIZE {
        if totalLen >= RECORD_HEADER_SIZE && offset + totalLen > PAGE_SIZE {
          seen.StepSpill(k, page, |events|, offset);
          pending := page[offset..PAGE_SIZE];
          pendingLen := totalLen;
          pendingLsn := LsnValue(data, k, offset);
          return;
        }
        seen.StepOffPage(k, page, |events|, offset);
        return;
      }
      var lsnValue := LsnValue(data, k, offset);
      seen.StepRecord(k, page, |events|, offset);
      NextEvent(data, events, seen.Position(k, offset), totalLen, page[offset..offset + totalLen], lsnValue);
      var event := ParseRecordBytes(page[offset..offset + totalLen], lsnValue);
      events := events + [event];
      offset := offset + AlignRecordLength(totalLen);
    }
    seen.StepOffPage(k, page, |events|, Min(offset, PAGE_SIZE));
  }

  /** The pending record takes its next bytes from page k; it is complete when none are left pending. */
  method Resume(data: seq<byte>, k: nat, page: seq<byte>, found: seq<Event>, before: seq<byte>, pendingLen: nat,
                pendingLsn: u64)
    returns (events: seq<Event>, pending: seq<byte>, offset: nat)
    requires View(data).IsPage(k, page) && before != []
    requires BetweenPages(data, found, before, pendingLen, pendingLsn, View(data).Base(k))
    ensures HeaderSize(LONG_PAGE_HEADER_SIZE, k) < offset <= PAGE_SIZE
    ensures pending == [] ==> Reached(data, events, View(data).Position(k, offset))
    ensures pending != [] ==>
              BetweenPages(data, events, pending, pendingLen, pendingLsn, View(data).Base(k + 1))
  {
    hide BE32, BE64, LE32, EventOf, AllEvents, View, LsnIs;
    hide Segment.Base, Segment.At, Segment.Awaits, Segment.Found, Segment.Laid, Segment.All;
    ghost var seen := View(data);
    ViewFacts(data);
    seen.PageShape(k, page);
    seen.AwaitsLonger(|found|, before, pendingLen, seen.Base(k));
    var headerSize := HeaderSize(LONG_PAGE_HEADER_SIZE, k);
    events, pending := found, before;
    var take := Min(pendingLen - |pending|, PAGE_SIZE - headerSize);
    pending := pending + page[headerSize..headerSize + take];
    offset := headerSize + take;
    if |pending| == pendingLen {
      seen.StepComplete(k, page, |events|, before, pendingLen);
      NextEvent(data, events, seen.Base(k) - |before|, pendingLen, pending, pendingLsn);
      var event := ParseRecordBytes(pending, pendingLsn);
      events := events + [event];
      pending := [];
    } else {
      seen.StepAppend(k, page, |events|, before, pendingLen);
    }
  }

  method ReadRecords(data: seq<byte>) returns (events: seq<Event>)
    ensures events == AllEvents(data)
  {
    hide BE32, BE64, LE32, EventOf, AllEvents, View, LsnIs, LsnValue, PageAddr, RemLen, AlignRecordLength;
    hide Segment.Base, Segment.At, Segment.Awaits, Segment.Found, Segment.Laid, Segment.All;
    ghost var seen := View(data);
    ViewFacts(data);
    events := [];
    var pending: seq<byte> := [];
    var pendingLen: nat, pendingLsn: u64 := 0, 0;
    seen.BaseEnds();
    seen.Start();

    var k := 0;
    while PAGE_SIZE * k < |data|
      invariant 0 <= k <= |data| / PAGE_SIZE
      invariant BetweenPages(data, events, pending, pendingLen, pendingLsn, seen.Base(k))
      decreases |data| - PAGE_SIZE * k
    {
      var pageStart := PAGE_SIZE * k;
      if pageStart + PAGE_SIZE > |data| {
        break;
      }
      var page := data[pageStart..pageStart + PAGE_SIZE];
      var headerSize := if pageStart == 0 then LONG_PAGE_HEADER_SIZE else PAGE_HEADER_SIZE;
      k := k + 1;
      var offset := headerSize;
      var remLen := RemLen(data, k - 1);
      seen.BaseOver(k - 1);
      if pending != [] {
        events, pending, offset := Resume(data, k - 1, page, events, pending, pendingLen, pendingLsn);
        if pending == [] {
          pendingLen, pendingLsn := 0, 0;
        } else {
          continue;
        }
      } else if pageStart > 0 && remLen > 0 {
        OffsetFacts(data, k - 1, offset);
        seen.StepOver(k - 1, |events|, offset);
        if remLen >= PAGE_SIZE - headerSize {
          continue;
        }
        offset := offset + remLen;
      }
      events, pending, pendingLen, pendingLsn := ReadPage(data, k - 1, page, offset, events);
    }
    if pending == [] {
      seen.Stop(|events|);
    } else {
      seen.StopPending(|events|, pending, pendingLen);
    }
  }

  // ---- LSN order ----

  /** Page k carries address base + 8192 k, and no address in the file overflows 64 bits. */
  ghost predicate Addressed(data: seq<byte>, base: u64) {
    && base + PAGE_SIZE * (|data| / PAGE_SIZE) <= TWO_64
    && forall k :: 0 <= k < |data| / PAGE_SIZE ==> PageAddr(data, k) == base + PAGE_SIZE * k
  }

  lemma EventLsn(raw: seq<byte>, lsn: u64)
    requires RECORD_HEADER_SIZE <= |raw| < TWO_32
    ensures EventOf(raw, lsn).lsnValue == lsn
  {
  }

  /** Each record's LSN is then base plus the file position of its first byte. */
  lemma LsnIsPosition(data: seq<byte>, base: u64, i: nat)
    requires Addressed(data, base) && i < |AllEvents(data)|
    ensures |AllEvents(data)| == |View(data).All()| && View(data).All()[i].at < |View(data).Laid().pos|
    ensures AllEvents(data)[i].lsnValue == base + View(data).Laid().pos[View(data).All()[i].at]
  {
    hide BE64, BE32, LE32, View, EventOf, PageAddr, Segment.Laid, Segment.All;
    TapeInPages(data);
    ViewFacts(data);
    var s := View(data);
    var span := s.All()[i];
    var x := s.Laid().pos[span.at];
    EventLsn(s.Laid().Raw(span), LsnValue(data, x / PAGE_SIZE, x % PAGE_SIZE));
    assert PageAddr(data, x / PAGE_SIZE) == base + PAGE_SIZE * (x / PAGE_SIZE);
  }

  /** LSNs strictly increase in emission order, records that span pages included, whatever the rem_len fields say. */
  lemma LsnsIncrease(data: seq<byte>, base: u64)
    requires Addressed(data, base)
    ensures forall i, j :: 0 <= i < j < |AllEvents(data)| ==> AllEvents(data)[i].lsnValue < AllEvents(data)[j].lsnValue
  {
    hide BE64, BE32, LE32, EventOf, PageAddr, Segment.Laid;
    var s := View(data);
    BodiesShape(LONG_PAGE_HEADER_SIZE, AllPages(data));
    forall i, j | 0 <= i < j < |AllEvents(data)|
      ensures AllEvents(data)[i].lsnValue < AllEvents(data)[j].lsnValue
    {
      LsnIsPosition(data, base, i);
      LsnIsPosition(data, base, j);
      assert s.All()[i].at < s.All()[j].at;
    }
  }
}
