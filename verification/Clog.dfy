/** The commit-log reader of backend/pkg/clog/reader.go: two status bits per transaction in 8 KB pages, 32 to a file. */
module Clog {
  import opened Bytes
  import opened Options
  import LsnText

  const PAGE_SIZE: int := 8192
  const XACTS_PER_BYTE: int := 4
  const XACTS_PER_PAGE: int := 32768
  const PAGES_PER_SEGMENT: int := 32
  const XACTS_PER_SEGMENT: int := 1048576

  type status = s: int | 0 <= s < 4

  function StatusName(s: status): (name: string)
    ensures (name == "in-progress" <==> s == 0) && (name == "committed" <==> s == 1)
    ensures (name == "aborted" <==> s == 2) && (name == "subtrans" <==> s == 3)
  {
    match s
    case 0 => "in-progress"
    case 1 => "committed"
    case 2 => "aborted"
    case _ => "subtrans"
  }

  datatype Transaction = Transaction(xid: u32, status: status, name: string)

  datatype Page = Page(pageNum: nat, startXid: u32, endXid: u32, transactions: seq<Transaction>)

  /** The status directory: file contents by name. */
  type Directory = map<string, seq<byte>>

  function SegmentName(segment: nat): string {
    LsnText.HexPadded(segment, 4)
  }

  /** The file GetCLOGPath names for a transaction. */
  function ClogFile(xid: u32): string {
    SegmentName(xid / XACTS_PER_SEGMENT)
  }

  /** Four upper-case digits spell the segment number of the transaction. */
  lemma FileNamesSegment(xid: u32)
    ensures |ClogFile(xid)| == 4 && LsnText.UpperHex(ClogFile(xid))
    ensures LsnText.HexNumber(ClogFile(xid)) == xid / (8192 * 4 * 32)
  {
    var segment := xid / XACTS_PER_SEGMENT;
    LsnText.HexShape(segment);
    assert LsnText.Power16(4) == 0x1_0000;
    LsnText.HexLength(segment, 0x1_0000, 4);
    LsnText.PaddedRoundTrip(segment, 4);
  }

  // ---- one page ----

  function TwoBits(b: byte, bitPos: nat): status
    requires bitPos < 4
  {
    match bitPos
    case 0 => b % 4
    case 1 => b / 4 % 4
    case 2 => b / 16 % 4
    case _ => b / 64
  }

  function Pack(s0: status, s1: status, s2: status, s3: status): byte {
    s0 + 4 * s1 + 16 * s2 + 64 * s3
  }

  /** The i-th transaction of a page; the addition is modulo 2^32, as in the source. */
  function TransactionAt(pageNum: nat, data: seq<byte>, i: nat): Transaction
    requires |data| == PAGE_SIZE && i < XACTS_PER_PAGE
  {
    var s := TwoBits(data[i / XACTS_PER_BYTE], i % XACTS_PER_BYTE);
    Transaction((StartXid(pageNum) + i) % TWO_32, s, StatusName(s))
  }

  function StartXid(pageNum: nat): u32 {
    pageNum % TWO_32 * XACTS_PER_PAGE % TWO_32
  }

  method ParsePage(pageNum: nat, data: seq<byte>) returns (page: Page)
    requires |data| == PAGE_SIZE
    ensures page.pageNum == pageNum && page.startXid == StartXid(pageNum)
    ensures page.endXid == (page.startXid + XACTS_PER_PAGE - 1) % TWO_32
    ensures |page.transactions| == XACTS_PER_PAGE
    ensures forall i :: 0 <= i < XACTS_PER_PAGE ==> page.transactions[i] == TransactionAt(pageNum, data, i)
  {
    hide StatusName, TwoBits, StartXid;
    var startXid := StartXid(pageNum);
    var endXid := (startXid + XACTS_PER_PAGE - 1) % TWO_32;
    var transactions: seq<Transaction> := [];
    for byteIdx := 0 to PAGE_SIZE
      invariant |transactions| == byteIdx * 4
      invariant forall i :: 0 <= i < |transactions| ==> transactions[i] == TransactionAt(pageNum, data, i)
    {
      var b := data[byteIdx];
      for bitPos := 0 to 4
        invariant |transactions| == byteIdx * 4 + bitPos
        invariant forall i :: 0 <= i < |transactions| ==> transactions[i] == TransactionAt(pageNum, data, i)
      {
        var status := TwoBits(b, bitPos);
        var xid := (startXid + (byteIdx * 4 + bitPos)) % TWO_32;
        assert Transaction(xid, status, StatusName(status)) == TransactionAt(pageNum, data, byteIdx * 4 + bitPos);
        transactions := transactions + [Transaction(xid, status, StatusName(status))];
      }
    }
    page := Page(pageNum, startXid, endXid, transactions);
  }

  /** Re-packing the four statuses of a byte gives back the byte. */
  lemma PackUnpack(b: byte)
    ensures Pack(TwoBits(b, 0), TwoBits(b, 1), TwoBits(b, 2), TwoBits(b, 3)) == b
  {
    assert b / 16 == b / 4 / 4 && b / 64 == b / 16 / 4;
  }

  /** And any four statuses can be read back from the byte they pack to. */
  lemma UnpackPack(s0: status, s1: status, s2: status, s3: status)
    ensures var p := Pack(s0, s1, s2, s3);
            TwoBits(p, 0) == s0 && TwoBits(p, 1) == s1 && TwoBits(p, 2) == s2 && TwoBits(p, 3) == s3
  {
    var p := Pack(s0, s1, s2, s3);
    assert p / 4 == s1 + 4 * s2 + 16 * s3;
    assert p / 16 == s2 + 4 * s3;
  }

  /** So the transactions of a page determine its bytes. */
  lemma PageRepacks(pageNum: nat, data: seq<byte>, k: nat)
    requires |data| == PAGE_SIZE && k < PAGE_SIZE
    ensures Pack(TransactionAt(pageNum, data, 4 * k).status, TransactionAt(pageNum, data, 4 * k + 1).status,
                 TransactionAt(pageNum, data, 4 * k + 2).status, TransactionAt(pageNum, data, 4 * k + 3).status) == data[k]
  {
    hide StatusName, StartXid, TwoBits, Pack;
    PackUnpack(data[k]);
  }

  // ---- files ----

  /** A page can be read when its file is there and long enough. */
  predicate Readable(dir: Directory, name: string, pageOffset: nat) {
    name in dir && PAGE_SIZE * (pageOffset + 1) <= |dir[name]|
  }

  function PageBytes(dir: Directory, name: string, pageOffset: nat): (data: seq<byte>)
    requires Readable(dir, name, pageOffset)
    ensures |data| == PAGE_SIZE
  {
    dir[name][PAGE_SIZE * pageOffset..PAGE_SIZE * (pageOffset + 1)]
  }

  method ReadPage(dir: Directory, name: string, absolutePageNum: nat, pageOffset: nat) returns (page: Option<Page>)
    ensures page.Some? <==> Readable(dir, name, pageOffset)
    ensures page.Some? ==>
              && |page.value.transactions| == XACTS_PER_PAGE
              && forall i :: 0 <= i < XACTS_PER_PAGE ==>
                   page.value.transactions[i] == TransactionAt(absolutePageNum, PageBytes(dir, name, pageOffset), i)
  {
    hide TransactionAt, StartXid;
    if name !in dir {
      return None;
    }
    var offset := pageOffset * PAGE_SIZE;
    if offset + PAGE_SIZE > |dir[name]| {
      return None;
    }
    var parsed := ParsePage(absolutePageNum, PageBytes(dir, name, pageOffset));
    page := Some(parsed);
  }

  // ---- direct addressing ----

  predicate Known(dir: Directory, xid: u32) {
    Readable(dir, ClogFile(xid), xid / XACTS_PER_PAGE % PAGES_PER_SEGMENT)
  }

  /** Segment, page, byte and two-bit field of a transaction, each by division. */
  function StatusOf(dir: Directory, xid: u32): status
    requires Known(dir, xid)
  {
    var page := xid / XACTS_PER_PAGE % PAGES_PER_SEGMENT;
    TwoBits(dir[ClogFile(xid)][PAGE_SIZE * page + xid % XACTS_PER_PAGE / XACTS_PER_BYTE], xid % XACTS_PER_BYTE)
  }

  /** The known transactions from a up to but not including n, ascending, each addressed directly. */
  function Upto(dir: Directory, a: nat, n: nat): seq<Transaction>
    requires n <= TWO_32
  {
    if n <= a then []
    else
      var xid := n - 1;
      Upto(dir, a, n - 1) +
      (if Known(dir, xid) then [Transaction(xid, StatusOf(dir, xid), StatusName(StatusOf(dir, xid)))] else [])
  }

  /** Which is to say: ascending, no repeats, all of them, nothing else, each with its own status. */
  lemma {:induction false} UptoExact(dir: Directory, a: nat, n: nat)
    requires n <= TWO_32
    ensures forall i, j :: 0 <= i < j < |Upto(dir, a, n)| ==> Upto(dir, a, n)[i].xid < Upto(dir, a, n)[j].xid
    ensures forall t :: t in Upto(dir, a, n) ==>
              a <= t.xid < n && Known(dir, t.xid) && t.status == StatusOf(dir, t.xid) && t.name == StatusName(t.status)
    ensures forall xid: u32 :: a <= xid < n && Known(dir, xid) ==>
              Transaction(xid, StatusOf(dir, xid), StatusName(StatusOf(dir, xid))) in Upto(dir, a, n)
  {
    hide Known, StatusOf, StatusName;
    if n > a {
      UptoExact(dir, a, n - 1);
      var before, all := Upto(dir, a, n - 1), Upto(dir, a, n);
      forall i, j | 0 <= i < j < |all| ensures all[i].xid < all[j].xid {
        assert i < |before| && all[i] == before[i];
        assert before[i] in before;
        if j < |before| { assert all[j] == before[j]; }
      }
    }
  }

  // ---- the range scan ----

  /** The i-th transaction of page p of the log is transaction 32768 p + i, found where direct addressing looks. */
  lemma PageAddresses(dir: Directory, p: nat, i: nat)
    requires p < TWO_32 / XACTS_PER_PAGE && i < XACTS_PER_PAGE
    ensures var xid := XACTS_PER_PAGE * p + i;
            && xid < TWO_32
            && ClogFile(xid) == SegmentName(p / PAGES_PER_SEGMENT)
            && (Known(dir, xid) <==> Readable(dir, SegmentName(p / PAGES_PER_SEGMENT), p % PAGES_PER_SEGMENT))
    ensures var xid := XACTS_PER_PAGE * p + i;
            Known(dir, xid) ==>
              TransactionAt(p, PageBytes(dir, SegmentName(p / PAGES_PER_SEGMENT), p % PAGES_PER_SEGMENT), i)
              == Transaction(xid, StatusOf(dir, xid), StatusName(StatusOf(dir, xid)))
  {
    hide SegmentName, TwoBits, StatusName;
    var xid := XACTS_PER_PAGE * p + i;
    Divisions(p, i);
    assert StartXid(p) == XACTS_PER_PAGE * p;
  }

  lemma Divisions(p: nat, i: nat)
    requires i < XACTS_PER_PAGE
    ensures var xid := XACTS_PER_PAGE * p + i;
            && xid / XACTS_PER_PAGE == p && xid % XACTS_PER_PAGE == i
            && xid / XACTS_PER_SEGMENT == p / PAGES_PER_SEGMENT
            && xid % XACTS_PER_BYTE == i % XACTS_PER_BYTE
  {
    var q, r := p / PAGES_PER_SEGMENT, p % PAGES_PER_SEGMENT;
    PageQuotient(p, i);
    SegmentQuotient(q, XACTS_PER_PAGE * r + i);
    ByteRemainder(8192 * p + i / XACTS_PER_BYTE, i % XACTS_PER_BYTE);
  }

  lemma PageQuotient(p: nat, i: nat)
    requires i < XACTS_PER_PAGE
    ensures (XACTS_PER_PAGE * p + i) / XACTS_PER_PAGE == p && (XACTS_PER_PAGE * p + i) % XACTS_PER_PAGE == i
  {
  }

  lemma SegmentQuotient(q: nat, rest: nat)
    requires rest < XACTS_PER_SEGMENT
    ensures (XACTS_PER_SEGMENT * q + rest) / XACTS_PER_SEGMENT == q
  {
  }

  lemma ByteRemainder(q: nat, rest: nat)
    requires rest < XACTS_PER_BYTE
    ensures (XACTS_PER_BYTE * q + rest) % XACTS_PER_BYTE == rest
  {
  }

  method ReadRange(dir: Directory, startXid: u32, endXid: u32) returns (results: seq<Transaction>)
    ensures results == Upto(dir, startXid, endXid + 1)
  {
    hide Known, StatusOf, StatusName, Readable, TransactionAt, SegmentName, PageBytes, ClogFile, StartXid;
    results := [];
    var startPage := startXid / XACTS_PER_PAGE;
    var endPage := endXid / XACTS_PER_PAGE;
    var pageNum: u32 := startPage;
    while pageNum <= endPage
      invariant startPage <= pageNum
      invariant pageNum <= endPage + 1 || pageNum == startPage
      invariant results == Upto(dir, startXid, Min(XACTS_PER_PAGE * pageNum, endXid + 1))
      decreases endPage + 1 - pageNum
    {
      var name := SegmentName(pageNum / PAGES_PER_SEGMENT);
      var page := ReadPage(dir, name, pageNum, pageNum % PAGES_PER_SEGMENT);
      if page.None? {
        Unreadable(dir, startXid, endXid, pageNum, XACTS_PER_PAGE);
        pageNum := pageNum + 1;
        continue;
      }
      var transactions := page.value.transactions;
      for i := 0 to |transactions|
        invariant results == Upto(dir, startXid, Min(XACTS_PER_PAGE * pageNum + i, endXid + 1))
      {
        PageAddresses(dir, pageNum, i);
        var tx := transactions[i];
        TransactionXid(pageNum, PageBytes(dir, name, pageNum % PAGES_PER_SEGMENT), i);
        if tx.xid >= startXid && tx.xid <= endXid {
          results := results + [tx];
        }
      }
      pageNum := pageNum + 1;
    }
  }

  lemma TransactionXid(p: nat, data: seq<byte>, i: nat)
    requires p < TWO_32 / XACTS_PER_PAGE && i < XACTS_PER_PAGE && |data| == PAGE_SIZE
    ensures TransactionAt(p, data, i).xid == XACTS_PER_PAGE * p + i
  {
    hide TwoBits, StatusName;
    assert StartXid(p) == XACTS_PER_PAGE * p;
  }

  /** A page that cannot be read adds nothing. */
  lemma {:induction false} Unreadable(dir: Directory, a: u32, b: u32, p: nat, n: nat)
    requires p < TWO_32 / XACTS_PER_PAGE && n <= XACTS_PER_PAGE
    requires !Readable(dir, SegmentName(p / PAGES_PER_SEGMENT), p % PAGES_PER_SEGMENT)
    ensures Upto(dir, a, Min(XACTS_PER_PAGE * p + n, b + 1)) == Upto(dir, a, Min(XACTS_PER_PAGE * p, b + 1))
  {
    hide Known, StatusOf, StatusName, Readable, SegmentName, TransactionAt, ClogFile;
    if n > 0 {
      Unreadable(dir, a, b, p, n - 1);
      PageAddresses(dir, p, n - 1);
    }
  }

  // ---- statistics ----

  datatype Statistics = Statistics(inProgress: nat, committed: nat, aborted: nat, subtrans: nat, total: nat)

  /** The places of the transactions with a given status. */
  ghost function With(txs: seq<Transaction>, s: status): set<nat> {
    set i: nat | i < |txs| && txs[i].status == s
  }

  lemma WithLast(txs: seq<Transaction>, n: nat, s: status)
    requires n < |txs|
    ensures |With(txs[..n + 1], s)| == |With(txs[..n], s)| + (if txs[n].status == s then 1 else 0)
  {
    var less, more := txs[..n], txs[..n + 1];
    assert With(more, s) == if txs[n].status == s then With(less, s) + {n} else With(less, s);
  }

  method GetStatistics(page: Page) returns (stats: Statistics)
    ensures stats.inProgress == |With(page.transactions, 0)| && stats.committed == |With(page.transactions, 1)|
    ensures stats.aborted == |With(page.transactions, 2)| && stats.subtrans == |With(page.transactions, 3)|
    ensures stats.total == |page.transactions| == stats.inProgress + stats.committed + stats.aborted + stats.subtrans
  {
    var txs := page.transactions;
    stats := Statistics(0, 0, 0, 0, |txs|);
    for i := 0 to |txs|
      invariant stats.inProgress == |With(txs[..i], 0)| && stats.committed == |With(txs[..i], 1)|
      invariant stats.aborted == |With(txs[..i], 2)| && stats.subtrans == |With(txs[..i], 3)|
      invariant stats.total == |txs| && stats.inProgress + stats.committed + stats.aborted + stats.subtrans == i
    {
      WithLast(txs, i, 0);
      WithLast(txs, i, 1);
      WithLast(txs, i, 2);
      WithLast(txs, i, 3);
      match txs[i].status {
        case 0 => stats := stats.(inProgress := stats.inProgress + 1);
        case 1 => stats := stats.(committed := stats.committed + 1);
        case 2 => stats := stats.(aborted := stats.aborted + 1);
        case _ => stats := stats.(subtrans := stats.subtrans + 1);
      }
    }
    assert txs[..|txs|] == txs;
  }
}
