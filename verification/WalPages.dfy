/**
 * How a reader's walk over the pages of a segment file moves along its tape: one lemma for each branch a page-by-page
 * reader with a buffer for spanning records can take. Both readers are proved with these.
 */
module WalPages {
  import opened Bytes
  import opened WalTape

  /** A segment file as one reader sees it: its first header's size, the pages it accepts and where it steps on. */
  datatype Segment = Segment(data: seq<byte>, first: nat, ok: seq<bool>, skip: seq<nat>) {

    ghost predicate Valid() {
      && FirstHeader(first)
      && |ok| == |data| / PAGE_SIZE
      && |skip| == |Bodies(first, ok)|
      && forall p :: 0 <= p < |skip| ==> skip[p] <= PAGE_SIZE - Bodies(first, ok)[p] % PAGE_SIZE
    }

    function Laid(): (t: Tape)
      requires Valid()
      ensures t.Valid() && t.pos == Bodies(first, ok) && t.skip == skip
      ensures forall p :: 0 <= p < |t.pos| ==> t.pos[p] < |data| && t.bytes[p] == data[t.pos[p]]
    {
      BodiesRoom(first, ok);
      Tape(Gather(data, Bodies(first, ok)), Bodies(first, ok), skip)
    }

    /** The spans of all records the file holds. */
    function All(): (spans: seq<Span>)
      requires Valid()
      ensures Laid().Slices(spans, 0)
      ensures InBounds(Laid(), spans)
    {
      Laid().ScanSlices(0);
      Laid().Scan(0)
    }

    /** How much of the tape the first k pages fill. */
    ghost function Base(k: nat): nat
      requires Valid() && k <= |ok|
    {
      |Bodies(first, ok[..k])|
    }

    /** The tape position of an offset in page k. */
    ghost function Position(k: nat, offset: nat): nat
      requires Valid() && k < |ok| && HeaderSize(first, k) <= offset
    {
      Base(k) + (offset - HeaderSize(first, k))
    }

    /** page is the k-th page of the file, and the reader accepts it. */
    ghost predicate IsPage(k: nat, page: seq<byte>) {
      && Valid() && k < |ok| && ok[k]
      && page == data[PAGE_SIZE * k..PAGE_SIZE * k + PAGE_SIZE]
    }

    /** n records have been found and a scan from p finds the others. */
    ghost predicate At(n: nat, p: nat)
      requires Valid()
    {
      p <= |Laid().pos| && n <= |All()| && Laid().Scan(p) == All()[n..]
    }

    /** The n-th record goes on past position p, and bytes are what precedes p of it. */
    ghost predicate Awaits(n: nat, bytes: seq<byte>, len: nat, p: nat)
      requires Valid()
    {
      && RECORD_HEADER_SIZE <= |bytes| <= p <= |Laid().pos|
      && |bytes| < len
      && var q := p - |bytes|;
      && At(n, q)
      && bytes == Laid().bytes[q..p]
      && len == LE32(Laid().bytes, q)
      && RECORD_HEADER_SIZE <= Laid().Room(q) < len
      && skip[q] == 0
    }

    /** The n-th record is the slice of len bytes at p, which reads raw. */
    ghost predicate Found(n: nat, p: nat, len: nat, raw: seq<byte>)
      requires Valid()
    {
      && n < |All()| && All()[n] == Span(p, len)
      && |raw| == len && p + len <= |Laid().bytes| && raw == Laid().bytes[p..p + len]
    }

    // ---- pages on the tape ----

    lemma BaseEnds()
      requires Valid()
      ensures Base(0) == 0 && Base(|ok|) == |Laid().pos|
    {
      assert ok[..|ok|] == ok;
    }

    lemma BaseOver(k: nat)
      requires Valid() && k < |ok|
      ensures Base(k + 1) == Base(k) + (if ok[k] then PAGE_SIZE - HeaderSize(first, k) else 0)
      ensures Base(k + 1) <= |Laid().pos|
    {
      assert ok[..k + 1][..k] == ok[..k];
      BodiesPrefix(first, ok, k + 1);
    }

    lemma PageOnTape(k: nat, offset: nat)
      requires Valid() && k < |ok| && ok[k]
      requires HeaderSize(first, k) <= offset < PAGE_SIZE
      ensures var t, p := Laid(), Position(k, offset);
              && p < |t.pos| && t.pos[p] == PAGE_SIZE * k + offset && t.bytes[p] == data[PAGE_SIZE * k + offset]
              && t.Offset(p) == offset
    {
      var h, p, through := HeaderSize(first, k), Position(k, offset), Bodies(first, ok[..k + 1]);
      assert ok[..k + 1][..k] == ok[..k];
      BodiesPrefix(first, ok, k + 1);
      assert through[p] == PageBody(k, h)[offset - h] == PAGE_SIZE * k + offset;
      assert Laid().pos[p] == through[p];
      PagePosition(k, offset);
    }

    lemma PageShape(k: nat, page: seq<byte>)
      requires IsPage(k, page)
      ensures Valid() && k < |ok| && ok[k] && |page| == PAGE_SIZE && HeaderSize(first, k) <= PAGE_SIZE - RECORD_HEADER_SIZE
      ensures Base(k + 1) == Base(k) + (PAGE_SIZE - HeaderSize(first, k)) <= |Laid().pos|
    {
      BaseOver(k);
    }

    /** A stretch of a page is the same stretch of the tape. */
    lemma StretchOnTape(k: nat, page: seq<byte>, offset: nat, len: nat)
      requires IsPage(k, page) && HeaderSize(first, k) <= offset && offset + len <= PAGE_SIZE
      ensures var t, p := Laid(), Position(k, offset);
              p + len <= |t.bytes| && page[offset..offset + len] == t.bytes[p..p + len]
    {
      hide Laid, Base;
      var t, p := Laid(), Position(k, offset);
      BaseOver(k);
      var onPage, onTape := page[offset..offset + len], t.bytes[p..p + len];
      forall i | 0 <= i < len ensures onPage[i] == onTape[i] {
        PageOnTape(k, offset + i);
      }
    }

    lemma WordOnTape(k: nat, page: seq<byte>, offset: nat)
      requires IsPage(k, page) && HeaderSize(first, k) <= offset && offset + 4 <= PAGE_SIZE
      ensures var t, p := Laid(), Position(k, offset);
              p + 4 <= |t.bytes| && LE32(page, offset) == LE32(t.bytes, p)
    {
      hide Laid, Base;
      var t, p := Laid(), Position(k, offset);
      StretchOnTape(k, page, offset, 4);
      var onPage, onTape := page[offset..offset + 4], t.bytes[p..p + 4];
      assert onPage[0] == onTape[0] && onPage[1] == onTape[1] && onPage[2] == onTape[2] && onPage[3] == onTape[3];
      LE32Same(page, offset, t.bytes, p);
    }

    // ---- one step of a reader ----

    lemma Start()
      requires Valid()
      ensures At(0, 0)
    {
      hide Laid, LE32;
      assert All()[0..] == All();
    }

    lemma StepOver(k: nat, n: nat, offset: nat)
      requires Valid() && k < |ok| && ok[k] && HeaderSize(first, k) <= offset
      requires offset + RECORD_HEADER_SIZE <= PAGE_SIZE
      requires At(n, Position(k, offset))
      requires Position(k, offset) < |skip| ==> skip[Position(k, offset)] > 0
      ensures Position(k, offset) < |skip|
      ensures At(n, Position(k, offset + skip[Position(k, offset)]))
    {
      hide Laid, All, Base;
      PageOnTape(k, offset);
      Laid().SkipStep(Position(k, offset));
    }

    /** No record header fits, or there is none: nothing more on this page. */
    lemma StepOffPage(k: nat, page: seq<byte>, n: nat, offset: nat)
      requires IsPage(k, page) && HeaderSize(first, k) <= offset <= PAGE_SIZE
      requires At(n, Position(k, offset))
      requires offset + RECORD_HEADER_SIZE > PAGE_SIZE
            || ((Position(k, offset) < |skip| ==> skip[Position(k, offset)] == 0)
                && LE32(page, offset) < RECORD_HEADER_SIZE)
      ensures At(n, Base(k + 1))
    {
      hide Laid, All, Base, LE32;
      BaseOver(k);
      if offset < PAGE_SIZE {
        PageOnTape(k, offset);
        if offset + RECORD_HEADER_SIZE <= PAGE_SIZE { WordOnTape(k, page, offset); }
        Laid().PageDone(Position(k, offset));
      }
    }

    lemma StepRecord(k: nat, page: seq<byte>, n: nat, offset: nat)
      requires IsPage(k, page) && HeaderSize(first, k) <= offset
      requires offset + RECORD_HEADER_SIZE <= PAGE_SIZE
      requires At(n, Position(k, offset))
      requires Position(k, offset) < |skip| ==> skip[Position(k, offset)] == 0
      requires RECORD_HEADER_SIZE <= LE32(page, offset) && offset + LE32(page, offset) <= PAGE_SIZE
      ensures var len := LE32(page, offset);
              && Found(n, Position(k, offset), len, page[offset..offset + len])
              && At(n + 1, Position(k, Min(offset + AlignRecordLength(len), PAGE_SIZE)))
    {
      hide Laid, All, Base, LE32, AlignRecordLength;
      var p, len := Position(k, offset), LE32(page, offset);
      BaseOver(k);
      PageOnTape(k, offset);
      WordOnTape(k, page, offset);
      StretchOnTape(k, page, offset, len);
      Laid().FitStep(p, All(), n);
    }

    lemma StepSpill(k: nat, page: seq<byte>, n: nat, offset: nat)
      requires IsPage(k, page) && HeaderSize(first, k) <= offset
      requires offset + RECORD_HEADER_SIZE <= PAGE_SIZE
      requires At(n, Position(k, offset))
      requires Position(k, offset) < |skip| ==> skip[Position(k, offset)] == 0
      requires RECORD_HEADER_SIZE <= LE32(page, offset) && offset + LE32(page, offset) > PAGE_SIZE
      ensures Awaits(n, page[offset..PAGE_SIZE], LE32(page, offset), Base(k + 1))
      ensures Base(k + 1) - (PAGE_SIZE - offset) == Position(k, offset)
    {
      hide Laid, All, Base, LE32;
      BaseOver(k);
      PageOnTape(k, offset);
      WordOnTape(k, page, offset);
      StretchOnTape(k, page, offset, PAGE_SIZE - offset);
    }

    /** The pending record takes a whole page body and still goes on. */
    lemma StepAppend(k: nat, page: seq<byte>, n: nat, bytes: seq<byte>, len: nat)
      requires IsPage(k, page) && Awaits(n, bytes, len, Base(k))
      requires |bytes| + (PAGE_SIZE - HeaderSize(first, k)) < len
      ensures var more := bytes + page[HeaderSize(first, k)..PAGE_SIZE];
              && Awaits(n, more, len, Base(k + 1))
              && Base(k + 1) - |more| == Base(k) - |bytes|
    {
      hide Laid, All, Base, LE32, At;
      var h, t := HeaderSize(first, k), Laid();
      BaseOver(k);
      StretchOnTape(k, page, h, PAGE_SIZE - h);
      var p, next := Base(k), Base(k + 1);
      Glue(t.bytes, p - |bytes|, p, next);
    }

    /** The pending record ends on this page. */
    lemma StepComplete(k: nat, page: seq<byte>, n: nat, bytes: seq<byte>, len: nat)
      requires IsPage(k, page) && Awaits(n, bytes, len, Base(k))
      requires len - |bytes| <= PAGE_SIZE - HeaderSize(first, k)
      ensures var end := HeaderSize(first, k) + (len - |bytes|);
              && Found(n, Base(k) - |bytes|, len, bytes + page[HeaderSize(first, k)..end])
              && At(n + 1, Position(k, end))
    {
      hide Laid, All, Base, LE32, HeaderSize;
      var h, t := HeaderSize(first, k), Laid();
      var need, p := len - |bytes|, Base(k);
      PageShape(k, page);
      StretchOnTape(k, page, h, need);
      Glue(t.bytes, p - |bytes|, p, p + need);
      t.SpillStep(p - |bytes|, All(), n);
    }

    /** At the end of the tape nothing is left to find. */
    lemma Stop(n: nat)
      requires Valid() && At(n, Base(|ok|))
      ensures n == |All()|
    {
      hide Laid, All, LE32;
      BaseEnds();
    }

    /** A record still pending at the end of the tape is not one of the file's records. */
    lemma StopPending(n: nat, bytes: seq<byte>, len: nat)
      requires Valid() && Awaits(n, bytes, len, Base(|ok|))
      ensures n == |All()|
    {
      hide Laid, All, LE32;
      BaseEnds();
      Laid().CutShort(|Laid().pos| - |bytes|);
    }

    lemma AwaitsLonger(n: nat, bytes: seq<byte>, len: nat, p: nat)
      requires Valid() && Awaits(n, bytes, len, p)
      ensures RECORD_HEADER_SIZE <= |bytes| < len && |bytes| <= p
    {
    }
  }

  /** Spans that can be cut out of a tape and have room for a record header. */
  ghost predicate InBounds(t: Tape, spans: seq<Span>) {
    forall i :: 0 <= i < |spans| ==>
      && spans[i].at < |t.pos| && spans[i].at + spans[i].len <= |t.bytes|
      && RECORD_HEADER_SIZE <= spans[i].len < TWO_32
  }
}
