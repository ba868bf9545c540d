/** How a poll outgrows its cap on a segment file that fits in sixteen megabytes. */
module WalPollCap {
  import opened Bytes
  import opened Options
  import opened RustWalReader
  import opened WalLayout
  import opened WalPoll
  import opened WalRoundTrip
  import opened WalTape

  const FIRST: nat := LONG_PAGE_HEADER_SIZE

  // ---- polling a written segment ----

  /** A first poll of a written segment whose pages carry their addresses sees as many LSNs as there are records. */
  lemma WrittenLsns(headers: seq<seq<byte>>, rs: seq<seq<byte>>, base: u64)
    requires AllWritable(rs) && RustHeaders(headers, rs) && Addressed(RustFile(headers, rs), base)
    ensures |Lsns(Batch([Some(RustFile(headers, rs))]))| == |rs|
  {
    hide AllWritable, RustHeaders, RustFile, Addressed, AllEvents, Lsns;
    var data := RustFile(headers, rs);
    RustRoundTrip(headers, rs);
    LsnsIncrease(data, base);
    var events := AllEvents(data);
    forall i, j | 0 <= i < j < |events| ensures events[i].xlogPtr != events[j].xlogPtr {
      TextIsValue(data, data, i, j);
    }
    DistinctCount(events);
  }

  /** So a first poll without a limit outgrows the cap exactly when more records than that were written. */
  lemma WrittenCap(headers: seq<seq<byte>>, rs: seq<seq<byte>>, base: u64)
    requires AllWritable(rs) && RustHeaders(headers, rs) && Addressed(RustFile(headers, rs), base)
    ensures |Poll({}, ListingOf([Some(RustFile(headers, rs))]), 0).seen| > SEEN_CAP <==> |rs| > SEEN_CAP
  {
    hide AllWritable, RustHeaders, RustFile, Addressed, Lsns, Poll, Batch;
    WrittenLsns(headers, rs, base);
    var batch := Batch([Some(RustFile(headers, rs))]);
    assert Lsns(batch) - {} == Lsns(batch);
    SeenCap({}, batch, 0);
  }

  // ---- one such segment ----

  /** A record of nothing but a header. */
  const BARE: seq<byte> := PutLE32(RECORD_HEADER_SIZE) + Zeros(20)

  lemma BareWritable(n: nat)
    ensures AllWritable(seq(n, _ => BARE)) && |BARE| == RECORD_HEADER_SIZE
  {
    LE32Same(BARE, 0, PutLE32(RECORD_HEADER_SIZE), 0);
  }

  /** A page header with the page's address and no bytes left of an earlier record. */
  function Header(k: nat): (h: seq<byte>)
    requires PAGE_SIZE * k < TWO_32
    ensures |h| == HeaderSize(FIRST, k)
  {
    Zeros(12) + PutBE32(PAGE_SIZE * k) + Zeros(HeaderSize(FIRST, k) - 16)
  }

  lemma HeaderHolds(k: nat)
    requires PAGE_SIZE * k < TWO_32
    ensures BE64(Header(k), 8) == PAGE_SIZE * k && BE32(Header(k), 16) == 0
  {
    var h, address := Header(k), PutBE32(PAGE_SIZE * k);
    assert h[12] == address[0] && h[13] == address[1] && h[14] == address[2] && h[15] == address[3];
    BE32Same(h, 12, address, 0);
    BE32Same(h, 8, Zeros(4), 0);
    BE32Same(h, 16, Zeros(4), 0);
  }

  /** Bare records take no more than twice their length, and the last page is filled up. */
  lemma {:induction false} BareLength(n: nat, p: nat)
    ensures |Write(FIRST, seq(n, _ => BARE), p)| <= 48 * n + PAGE_BODY
    ensures n > 0 && RoomAt(FIRST, p) >= RECORD_HEADER_SIZE ==>
              |Write(FIRST, seq(n, _ => BARE), p)| <= 48 * n - 24 + PAGE_BODY
    decreases n, if RoomAt(FIRST, p) < RECORD_HEADER_SIZE then 1 else 0
  {
    hide RoomAt;
    var rs := seq(n, _ => BARE);
    BareWritable(n);
    if n > 0 {
      if RoomAt(FIRST, p) < RECORD_HEADER_SIZE {
        NextPage(FIRST, p);
        BareLength(n, p + RoomAt(FIRST, p));
      } else {
        assert rs[1..] == seq(n - 1, _ => BARE);
        BareLength(n - 1, p + Extent(FIRST, p, |BARE|));
      }
    }
  }

  /** A segment of fifty thousand and one records, small enough for PostgreSQL's segment size, outgrows the cap. */
  lemma CapOutgrown() returns (data: seq<byte>)
    ensures |data| <= 16 * 1024 * 1024
    ensures |Poll({}, ListingOf([Some(data)]), 0).seen| > SEEN_CAP
  {
    hide Write, RoomAt, RustFile, SegmentFile, Poll, Batch;
    var n := SEEN_CAP + 1;
    var rs := seq(n, _ => BARE);
    var body := Write(FIRST, rs, 0);
    BareWritable(n);
    BareLength(n, 0);
    WriteEnds(FIRST, rs, 0);
    var pages := PageCount(FIRST, |body|);
    assert PAGE_SIZE * pages <= 16 * 1024 * 1024;
    var headers := seq(pages, k requires 0 <= k < pages => Header(k));
    forall k | 0 <= k < pages ensures BE64(headers[k], 8) == PAGE_SIZE * k && BE32(headers[k], 16) == 0 {
      HeaderHolds(k);
    }
    assert RustHeaders(headers, rs);
    data := RustFile(headers, rs);
    AddressesWritten(headers, rs);
    WrittenCap(headers, rs, 0);
  }

  lemma AddressesWritten(headers: seq<seq<byte>>, rs: seq<seq<byte>>)
    requires RustHeaders(headers, rs) && PAGE_SIZE * |headers| <= TWO_32
    requires forall k :: 0 <= k < |headers| ==> BE64(headers[k], 8) == PAGE_SIZE * k
    ensures |RustFile(headers, rs)| == PAGE_SIZE * |headers|
    ensures Addressed(RustFile(headers, rs), 0)
  {
    hide SegmentFile, Write, BE64;
    var data, body := RustFile(headers, rs), Write(FIRST, rs, 0);
    forall k | 0 <= k < |headers| ensures PageAddr(data, k) == PAGE_SIZE * k {
      forall o | 8 <= o < 16 ensures data[PAGE_SIZE * k + o] == headers[k][o] {
        HeaderByte(FIRST, headers, body, k, o);
      }
      assert data[PAGE_SIZE * k + 8..PAGE_SIZE * k + 16] == headers[k][8..16];
      BE64Same(data, PAGE_SIZE * k + 8, headers[k], 8);
    }
  }
}
