/**
 * What both WAL readers are measured against. A tape is the segment file with the page headers cut out:
 * the bodies of the readable pages, end to end. Scan walks a tape by position alone. It has no pages to
 * iterate over and no buffer for records that cross them, so a record is simply a slice of the tape.
 */
module WalTape {
  import opened Bytes

  const PAGE_SIZE: int := 8192
  const PAGE_HEADER_SIZE: int := 20
  const RECORD_HEADER_SIZE: int := 24
  const RECORD_ALIGN: int := 8

  function AlignRecordLength(length: nat): (aligned: nat)
    ensures length <= aligned < length + RECORD_ALIGN && aligned % RECORD_ALIGN == 0
  {
    (length + RECORD_ALIGN - 1) / RECORD_ALIGN * RECORD_ALIGN
  }

  /** A record on a tape: len bytes from position at. */
  datatype Span = Span(at: nat, len: nat)

  /**
   * bytes[p] stands at position pos[p] of the file; skip[p] > 0 makes a reader that is about to look for
   * a record at p step that many bytes instead.
   */
  datatype Tape = Tape(bytes: seq<byte>, pos: seq<nat>, skip: seq<nat>) {

    /** Offset of position p within its page. */
    function Offset(p: nat): nat
      requires p < |pos|
    {
      pos[p] % PAGE_SIZE
    }

    /** Bytes from p to the end of its page. */
    function Room(p: nat): (room: nat)
      requires p < |pos|
      ensures 0 < room <= PAGE_SIZE
    {
      PAGE_SIZE - Offset(p)
    }

    ghost predicate Valid() {
      && |bytes| == |pos| == |skip|
      && (forall p :: 0 <= p < |pos| ==> p + Room(p) <= |pos| && skip[p] <= Room(p))
    }

    /** The records a reader finds from position p on. */
    function Scan(p: nat): seq<Span>
      requires Valid()
      decreases |pos| - p
    {
      if p >= |pos| then []
      else
        var room := Room(p);
        if room < RECORD_HEADER_SIZE then Scan(p + room)
        else if skip[p] > 0 then Scan(p + skip[p])
        else
          var len := LE32(bytes, p);
          if len < RECORD_HEADER_SIZE then Scan(p + room)
          else if len <= room then [Span(p, len)] + Scan(p + Min(AlignRecordLength(len), room))
          else if p + len <= |bytes| then [Span(p, len)] + Scan(p + len)
          else []
    }

    /** A record that fits its page: it is the next of the records still to come. */
    lemma FitStep(p: nat, all: seq<Span>, n: nat)
      requires Valid() && p < |pos| && n <= |all| && Scan(p) == all[n..]
      requires RECORD_HEADER_SIZE <= Room(p) && skip[p] == 0
      requires RECORD_HEADER_SIZE <= LE32(bytes, p) <= Room(p)
      ensures n < |all| && all[n] == Span(p, LE32(bytes, p))
      ensures Scan(p + Min(AlignRecordLength(LE32(bytes, p)), Room(p))) == all[n + 1..]
    {
      hide LE32;
      assert all[n] == Scan(p)[0];
      assert all[n + 1..] == Scan(p)[1..];
    }

    /** A record that runs over the end of its page, and whose bytes are all there. */
    lemma SpillStep(p: nat, all: seq<Span>, n: nat)
      requires Valid() && p < |pos| && n <= |all| && Scan(p) == all[n..]
      requires RECORD_HEADER_SIZE <= Room(p) && skip[p] == 0
      requires Room(p) < LE32(bytes, p) && p + LE32(bytes, p) <= |bytes|
      ensures n < |all| && all[n] == Span(p, LE32(bytes, p))
      ensures Scan(p + LE32(bytes, p)) == all[n + 1..]
    {
      hide LE32;
      assert all[n] == Scan(p)[0];
      assert all[n + 1..] == Scan(p)[1..];
    }

    /** Nothing more on this page: the scan goes on at the next. */
    lemma PageDone(p: nat)
      requires Valid() && p < |pos|
      requires Room(p) < RECORD_HEADER_SIZE || (skip[p] == 0 && LE32(bytes, p) < RECORD_HEADER_SIZE)
      ensures Scan(p) == Scan(p + Room(p))
    {
      hide LE32;
    }

    lemma SkipStep(p: nat)
      requires Valid() && p < |pos|
      requires RECORD_HEADER_SIZE <= Room(p) && skip[p] > 0
      ensures Scan(p) == Scan(p + skip[p])
    {
      hide LE32;
    }

    /** A record whose end is not on the tape is not returned. */
    lemma CutShort(p: nat)
      requires Valid() && p < |pos|
      requires RECORD_HEADER_SIZE <= Room(p) && skip[p] == 0
      requires Room(p) < LE32(bytes, p) && |bytes| < p + LE32(bytes, p)
      ensures Scan(p) == []
    {
      hide LE32;
    }

    function Raw(s: Span): (raw: seq<byte>)
      requires s.at + s.len <= |bytes|
      ensures |raw| == s.len
    {
      bytes[s.at..s.at + s.len]
    }

    /**
     * Spans that a reader may return: in order, disjoint, each holding its own length in its first four
     * bytes, long enough for a record header, and not starting where the reader is told to step on.
     */
    ghost predicate Slices(spans: seq<Span>, from: nat)
      requires Valid()
    {
      && (forall i :: 0 <= i < |spans| ==>
            && from <= spans[i].at
            && RECORD_HEADER_SIZE <= spans[i].len
            && spans[i].at + spans[i].len <= |bytes|
            && LE32(bytes, spans[i].at) == spans[i].len
            && skip[spans[i].at] == 0)
      && (forall i, j :: 0 <= i < j < |spans| ==> spans[i].at + spans[i].len <= spans[j].at)
    }

    lemma {:induction false} ScanSlices(p: nat)
      requires Valid()
      ensures Slices(Scan(p), p)
      decreases |pos| - p
    {
      hide LE32, AlignRecordLength, Room;
      if p < |pos| {
        var room := Room(p);
        if room < RECORD_HEADER_SIZE {
          ScanSlices(p + room);
        } else if skip[p] > 0 {
          ScanSlices(p + skip[p]);
        } else {
          var len := LE32(bytes, p);
          if len < RECORD_HEADER_SIZE {
            ScanSlices(p + room);
          } else if len <= room {
            var next := p + Min(AlignRecordLength(len), room);
            ScanSlices(next);
            SlicesCons(Span(p, len), Scan(next), p, next);
          } else if p + len <= |bytes| {
            ScanSlices(p + len);
            SlicesCons(Span(p, len), Scan(p + len), p, p + len);
          }
        }
      }
    }

    lemma SlicesCons(s: Span, rest: seq<Span>, from: nat, next: nat)
      requires Valid() && Slices(rest, next)
      requires from <= s.at && s.at + s.len <= next && RECORD_HEADER_SIZE <= s.len && s.at + s.len <= |bytes|
      requires LE32(bytes, s.at) == s.len && skip[s.at] == 0
      ensures Slices([s] + rest, from)
    {
      hide LE32;
      var all := [s] + rest;
      forall i | 0 <= i < |all|
        ensures from <= all[i].at && RECORD_HEADER_SIZE <= all[i].len && all[i].at + all[i].len <= |bytes|
        ensures LE32(bytes, all[i].at) == all[i].len && skip[all[i].at] == 0
      {
        if i > 0 { assert all[i] == rest[i - 1]; }
      }
      forall i, j | 0 <= i < j < |all| ensures all[i].at + all[i].len <= all[j].at {
        assert all[j] == rest[j - 1];
        if i > 0 { assert all[i] == rest[i - 1]; }
      }
    }
  }

  // ---- the tape of a file ----

  /** File positions of the body of page k, whose header takes header bytes. */
  function PageBody(k: nat, header: nat): (body: seq<nat>)
    requires header <= PAGE_SIZE
    ensures |body| == PAGE_SIZE - header
    ensures forall i :: 0 <= i < |body| ==> body[i] == PAGE_SIZE * k + header + i
  {
    seq(PAGE_SIZE - header, i requires 0 <= i < PAGE_SIZE - header => PAGE_SIZE * k + header + i)
  }

  /** Header size of page k: the first page of a segment carries a longer one. */
  function HeaderSize(first: nat, k: nat): nat {
    if k == 0 then first else PAGE_HEADER_SIZE
  }

  predicate FirstHeader(first: nat) { PAGE_HEADER_SIZE <= first <= PAGE_SIZE - RECORD_HEADER_SIZE }

  /** File positions of the bodies of the pages marked readable among the first |ok|, end to end. */
  function Bodies(first: nat, ok: seq<bool>): seq<nat>
    requires FirstHeader(first)
  {
    if |ok| == 0 then []
    else
      var k := |ok| - 1;
      Bodies(first, ok[..k]) + (if ok[k] then PageBody(k, HeaderSize(first, k)) else [])
  }

  /** Every position has the rest of its page behind it, and positions only grow. */
  lemma {:induction false} BodiesShape(first: nat, ok: seq<bool>)
    requires FirstHeader(first)
    ensures forall p :: 0 <= p < |Bodies(first, ok)| ==> BodyPosition(first, ok, Bodies(first, ok), p)
    ensures forall p, q :: 0 <= p < q < |Bodies(first, ok)| ==> Bodies(first, ok)[p] < Bodies(first, ok)[q]
  {
    if |ok| > 0 {
      var k := |ok| - 1;
      BodiesShape(first, ok[..k]);
      var before, all := Bodies(first, ok[..k]), Bodies(first, ok);
      forall p | 0 <= p < |all| ensures BodyPosition(first, ok, all, p) {
        if p < |before| {
          assert BodyPosition(first, ok[..k], before, p);
          assert all[p] == before[p];
        } else {
          var h := HeaderSize(first, k);
          assert all[p] == PageBody(k, h)[p - |before|] == PAGE_SIZE * k + (h + (p - |before|));
          PagePosition(k, h + (p - |before|));
        }
      }
      forall p, q | 0 <= p < q < |all| ensures all[p] < all[q] {
        if q < |before| {
          assert all[p] == before[p] && all[q] == before[q];
        } else if p < |before| {
          assert BodyPosition(first, ok[..k], before, p);
        }
      }
    }
  }

  /** The same facts without BodyPosition around them. */
  lemma BodiesRoom(first: nat, ok: seq<bool>)
    requires FirstHeader(first)
    ensures forall p :: 0 <= p < |Bodies(first, ok)| ==> Bodies(first, ok)[p] < PAGE_SIZE * |ok|
    ensures forall p :: 0 <= p < |Bodies(first, ok)| ==>
              p + (PAGE_SIZE - Bodies(first, ok)[p] % PAGE_SIZE) <= |Bodies(first, ok)|
  {
    BodiesShape(first, ok);
    var bodies := Bodies(first, ok);
    forall p | 0 <= p < |bodies|
      ensures bodies[p] < PAGE_SIZE * |ok| && p + (PAGE_SIZE - bodies[p] % PAGE_SIZE) <= |bodies|
    {
      assert BodyPosition(first, ok, bodies, p);
    }
  }

  lemma PagePosition(k: nat, offset: nat)
    requires offset < PAGE_SIZE
    ensures (PAGE_SIZE * k + offset) / PAGE_SIZE == k && (PAGE_SIZE * k + offset) % PAGE_SIZE == offset
  {
  }

  /** bodies[p] is a body byte of a readable page, and the rest of that page follows it. */
  ghost predicate BodyPosition(first: nat, ok: seq<bool>, bodies: seq<nat>, p: nat)
    requires p < |bodies|
  {
    var k := bodies[p] / PAGE_SIZE;
    && k < |ok| && ok[k]
    && HeaderSize(first, k) <= bodies[p] % PAGE_SIZE
    && p + (PAGE_SIZE - bodies[p] % PAGE_SIZE) <= |bodies|
  }

  /** The tape leaves nothing out: its positions are exactly the body bytes of the readable pages. */
  lemma {:induction false} BodiesExact(first: nat, ok: seq<bool>, x: nat)
    requires FirstHeader(first)
    ensures x in Bodies(first, ok) <==>
            x / PAGE_SIZE < |ok| && ok[x / PAGE_SIZE] && HeaderSize(first, x / PAGE_SIZE) <= x % PAGE_SIZE
  {
    if |ok| > 0 {
      var k := |ok| - 1;
      BodiesExact(first, ok[..k], x);
      var h := HeaderSize(first, k);
      if x / PAGE_SIZE == k {
        if h <= x % PAGE_SIZE {
          assert PageBody(k, h)[x % PAGE_SIZE - h] == x;
        }
      } else {
        forall i | 0 <= i < PAGE_SIZE - h ensures PageBody(k, h)[i] != x { PagePosition(k, h + i); }
      }
    }
  }

  /** The bodies of the first k pages open the bodies of all of them. */
  lemma {:induction false} BodiesPrefix(first: nat, ok: seq<bool>, k: nat)
    requires FirstHeader(first) && k <= |ok|
    ensures Bodies(first, ok[..k]) <= Bodies(first, ok)
    decreases |ok| - k
  {
    if k == |ok| {
      assert ok[..k] == ok;
    } else {
      BodiesPrefix(first, ok, k + 1);
      assert ok[..k + 1][..k] == ok[..k];
    }
  }

  /** The bytes of data at the given positions. */
  function Gather(data: seq<byte>, pos: seq<nat>): seq<byte>
    requires forall p :: 0 <= p < |pos| ==> pos[p] < |data|
  {
    seq(|pos|, p requires 0 <= p < |pos| => data[pos[p]])
  }
}
