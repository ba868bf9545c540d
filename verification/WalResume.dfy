/** Starting in the middle: what a start offset leaves out, and what the Rust reader steps over at the top of a page. */
module WalResume {
  import opened Bytes
  import opened WalPages
  import opened WalTape
  import Go = GoWalReader
  import Rust = RustWalReader

  // ---- one step of a scan ----

  /** What a scan finds at p, if anything, and where it looks next. */
  function Step(t: Tape, p: nat): (seq<Span>, nat)
    requires t.Valid() && p < |t.pos|
  {
    var room := t.Room(p);
    if room < RECORD_HEADER_SIZE then ([], p + room)
    else if t.skip[p] > 0 then ([], p + t.skip[p])
    else
      var len := LE32(t.bytes, p);
      if len < RECORD_HEADER_SIZE then ([], p + room)
      else if len <= room then ([Span(p, len)], p + Min(AlignRecordLength(len), room))
      else if p + len <= |t.bytes| then ([Span(p, len)], p + len)
      else ([], |t.pos|)
  }

  lemma StepFacts(t: Tape, p: nat)
    requires t.Valid() && p < |t.pos|
    ensures var (found, next) := Step(t, p);
            && p < next <= |t.pos| && t.Scan(p) == found + t.Scan(next)
            && (found != [] ==>
                  && |found| == 1 && found[0].at == p && t.Room(p) >= RECORD_HEADER_SIZE && t.skip[p] == 0
                  && (next <= p + t.Room(p) || next == p + found[0].len))
            && (found == [] ==> next <= p + t.Room(p) || t.Scan(next) == [])
            && (found == [] && t.Room(p) >= RECORD_HEADER_SIZE && t.skip[p] > 0 ==> next == p + t.skip[p])
  {
    hide LE32, AlignRecordLength;
  }

  // ---- from one record on ----

  /** Scanning from the start of a record that a scan finds finds the rest of what that scan finds. */
  lemma {:induction false} ScanFrom(t: Tape, p: nat, i: nat)
    requires t.Valid() && i < |t.Scan(p)|
    ensures var at := t.Scan(p)[i].at;
            && p <= at < |t.pos| && t.Room(at) >= RECORD_HEADER_SIZE && t.skip[at] == 0
            && t.Scan(at) == t.Scan(p)[i..]
    decreases |t.pos| - p
  {
    InScan(t, p, i);
    hide Tape.Scan, Tape.Room, Step;
    StepFacts(t, p);
    var (found, next) := Step(t, p);
    if i < |found| {
      assert t.Scan(p)[0..] == t.Scan(p);
    } else {
      ScanFrom(t, next, i - |found|);
      assert t.Scan(p)[i..] == t.Scan(next)[i - |found|..];
    }
  }

  lemma InScan(t: Tape, p: nat, i: nat)
    requires t.Valid() && i < |t.Scan(p)|
    ensures p < |t.pos|
  {
  }

  /** What a scan finds does not depend on the steps asked for before it. */
  lemma {:induction false} SameAhead(t: Tape, u: Tape, p: nat)
    requires t.Valid() && u.Valid() && t.bytes == u.bytes && t.pos == u.pos
    requires forall x :: p <= x < |t.skip| ==> t.skip[x] == u.skip[x]
    ensures t.Scan(p) == u.Scan(p)
    decreases |t.pos| - p
  {
    if p < |t.pos| {
      SameStep(t, u, p);
      hide Step, Tape.Scan;
      StepFacts(t, p);
      StepFacts(u, p);
      SameAhead(t, u, Step(t, p).1);
    }
  }

  lemma SameStep(t: Tape, u: Tape, p: nat)
    requires t.Valid() && u.Valid() && t.bytes == u.bytes && t.pos == u.pos && p < |t.pos| && t.skip[p] == u.skip[p]
    ensures Step(t, p) == Step(u, p)
  {
    hide LE32, AlignRecordLength;
  }

  /** The rest of a page follows on the tape as it does in the file. */
  lemma RestOfPage(s: Segment, x: nat, m: nat)
    requires s.Valid() && x < |s.Laid().pos| && m < s.Laid().Room(x)
    ensures x + m < |s.Laid().pos| && s.Laid().pos[x + m] == s.Laid().pos[x] + m
    ensures s.Laid().Room(x + m) == s.Laid().Room(x) - m
  {
    BodiesShape(s.first, s.ok);
    var t := s.Laid();
    assert BodyPosition(s.first, s.ok, t.pos, x);
    var k, o := t.pos[x] / PAGE_SIZE, t.pos[x] % PAGE_SIZE;
    s.PageOnTape(k, o);
    s.PageOnTape(k, o + m);
    hide Segment.Laid, Segment.Base;
    var p := s.Position(k, o);
    PagePosition(k, o + m);
  }

  /** A position with room for a record header does not lie in a page tail without. */
  lemma PageEndsBefore(s: Segment, p: nat, to: nat)
    requires s.Valid() && p < to < |s.Laid().pos| && s.Laid().Room(p) < RECORD_HEADER_SIZE <= s.Laid().Room(to)
    ensures p + s.Laid().Room(p) <= to
  {
    hide Segment.Laid;
    if to < p + s.Laid().Room(p) { RestOfPage(s, p, to - p); }
  }

  /** Stepping byte by byte gets to a position in which a record header fits. */
  lemma {:induction false} StepsTo(s: Segment, p: nat, to: nat)
    requires s.Valid() && p <= to < |s.Laid().pos| && s.Laid().Room(to) >= RECORD_HEADER_SIZE
    requires forall x :: p <= x < to ==> s.skip[x] == 1
    ensures s.Laid().Scan(p) == s.Laid().Scan(to)
    decreases |s.Laid().pos| - p
  {
    hide LE32, Segment.Valid;
    var t := s.Laid();
    if p < to {
      if t.Room(p) < RECORD_HEADER_SIZE {
        PageEndsBefore(s, p, to);
        StepsTo(s, p + t.Room(p), to);
      } else {
        StepsTo(s, p + 1, to);
      }
    }
  }

  /**
   * A start offset at the first byte of any record the whole file holds leaves out exactly the records before it: reading
   * can be resumed there.
   */
  lemma GoResumes(data: seq<byte>, segNum: u64, i: nat)
    requires i < |Go.AllRecords(data, segNum, 0)|
    ensures |Go.AllRecords(data, segNum, 0)| == |Go.View(data, 0).All()|
    ensures Go.View(data, 0).All()[i].at < |Go.View(data, 0).Laid().pos|
    ensures var start := Go.View(data, 0).Laid().pos[Go.View(data, 0).All()[i].at];
            Go.AllRecords(data, segNum, start) == Go.AllRecords(data, segNum, 0)[i..]
  {
    hide LE16, LE32, LE64, Go.RecordOf, Segment.Laid, Tape.Scan;
    var whole := Go.View(data, 0);
    assert whole.All() == whole.Laid().Scan(0);
    ScanFrom(whole.Laid(), 0, i);
    var at := whole.All()[i].at;
    var start := whole.Laid().pos[at];
    BodiesShape(Go.LONG_PAGE_HEADER_SIZE, Go.ReadablePages(data));
    var later := Go.View(data, start);
    AfterHeader(data, at);
    StepsTo(later, 0, at);
    SameAhead(whole.Laid(), later.Laid(), at);
    assert later.All() == whole.All()[i..];
  }

  lemma AfterHeader(data: seq<byte>, x: nat)
    requires x < |Go.View(data, 0).Laid().pos|
    ensures Go.View(data, 0).Laid().pos[x] > 0
  {
    var t := Go.View(data, 0).Laid();
    BodiesShape(Go.LONG_PAGE_HEADER_SIZE, Go.ReadablePages(data));
    assert BodyPosition(Go.LONG_PAGE_HEADER_SIZE, Go.ReadablePages(data), t.pos, x);
  }

  // ---- the rest of an earlier record ----

  /** None of the records starts before position q and ends behind it. */
  ghost predicate NoneOver(spans: seq<Span>, q: nat) {
    forall j :: 0 <= j < |spans| ==> !(spans[j].at < q < spans[j].at + spans[j].len)
  }

  lemma NoneOverTail(head: Span, rest: seq<Span>, q: nat)
    requires NoneOver([head] + rest, q)
    ensures NoneOver(rest, q) && !(head.at < q < head.at + head.len)
  {
    var all := [head] + rest;
    assert all[0] == head;
    forall j | 0 <= j < |rest| ensures !(rest[j].at < q < rest[j].at + rest[j].len) { assert all[j + 1] == rest[j]; }
  }

  /** The pages from position p on end at q or before it, up to q. */
  ghost predicate EndBefore(t: Tape, p: nat, q: nat)
    requires q <= |t.pos|
  {
    forall x :: p <= x < q ==> x + t.Room(x) <= q
  }

  lemma EndsBefore(t: Tape, p: nat, q: nat, next: nat)
    requires p < q <= |t.pos| && EndBefore(t, p, q) && p <= next
    ensures p + t.Room(p) <= q && EndBefore(t, next, q)
  {
  }

  /** A scan that no record carries over the start of a page finds none among the bytes to be stepped over there. */
  lemma {:induction false} SteppedOver(t: Tape, p: nat, q: nat, i: nat)
    requires t.Valid() && p <= q < |t.pos| && t.Room(q) >= RECORD_HEADER_SIZE
    requires EndBefore(t, p, q)
    requires NoneOver(t.Scan(p), q) && i < |t.Scan(p)|
    ensures !(q <= t.Scan(p)[i].at < q + t.skip[q])
    decreases |t.pos| - p
  {
    InScan(t, p, i);
    hide Tape.Scan, Tape.Room, Step, NoneOver, EndBefore;
    StepFacts(t, p);
    var (found, next) := Step(t, p);
    if p == q {
      if t.skip[q] > 0 { ScanBehind(t, q + t.skip[q], i); }
    } else {
      EndsBefore(t, p, q, next);
      if found != [] {
        assert found == [found[0]];
        NoneOverTail(found[0], t.Scan(next), q);
      }
      if i >= |found| { SteppedOver(t, next, q, i - |found|); }
    }
  }

  lemma ScanBehind(t: Tape, p: nat, i: nat)
    requires t.Valid() && i < |t.Scan(p)|
    ensures p <= t.Scan(p)[i].at
  {
    hide Tape.Scan;
    t.ScanSlices(p);
  }

  lemma BaseStarts(s: Segment, k: nat, x: nat)
    requires s.Valid() && 0 < k < |s.ok| && s.ok[k] && x < s.Position(k, PAGE_HEADER_SIZE)
    ensures s.Position(k, PAGE_HEADER_SIZE) < |s.Laid().pos|
    ensures x + s.Laid().Room(x) <= s.Position(k, PAGE_HEADER_SIZE)
  {
    var q := s.Position(k, PAGE_HEADER_SIZE);
    s.PageOnTape(k, PAGE_HEADER_SIZE);
    BodiesShape(s.first, s.ok);
    assert BodyPosition(s.first, s.ok, s.Laid().pos, x);
    hide Segment.Laid, Segment.Base;
    if q < x + s.Laid().Room(x) { RestOfPage(s, x, q - x); }
  }

  /** Tape and file agree on how far into a page a position is. */
  lemma IntoPage(s: Segment, k: nat, x: nat)
    requires s.Valid() && 0 < k < |s.ok| && s.ok[k] && x < |s.Laid().pos|
    requires PAGE_SIZE * k + PAGE_HEADER_SIZE <= s.Laid().pos[x] < PAGE_SIZE * (k + 1)
    ensures x - s.Position(k, PAGE_HEADER_SIZE) == s.Laid().pos[x] - (PAGE_SIZE * k + PAGE_HEADER_SIZE)
  {
    BodiesShape(s.first, s.ok);
    s.PageOnTape(k, s.Laid().pos[x] - PAGE_SIZE * k);
    hide Segment.Laid, Segment.Base;
  }

  /**
   * The Rust reader starts no record among the bytes a page's rem_len counts, unless a record it has been reading runs on
   * into that page.
   */
  lemma RemLenSteppedOver(data: seq<byte>, k: nat, i: nat)
    requires 0 < k < |data| / PAGE_SIZE && i < |Rust.View(data).All()|
    requires NoneOver(Rust.View(data).All(), Rust.View(data).Position(k, PAGE_HEADER_SIZE))
    ensures var start := Rust.View(data).Laid().pos[Rust.View(data).All()[i].at];
            var body := PAGE_SIZE * k + PAGE_HEADER_SIZE;
            !(body <= start < body + Min(Rust.RemLen(data, k), PAGE_SIZE - PAGE_HEADER_SIZE))
  {
    hide BE32, BE64, LE32, Segment.Laid, Segment.Base, Rust.View, Tape.Scan;
    var s := Rust.View(data);
    Rust.ViewFacts(data);
    Rust.OffsetFacts(data, k, PAGE_HEADER_SIZE);
    var t, q := s.Laid(), s.Position(k, PAGE_HEADER_SIZE);
    s.PageOnTape(k, PAGE_HEADER_SIZE);
    forall x | 0 <= x < q ensures x + t.Room(x) <= q { BaseStarts(s, k, x); }
    assert s.All() == t.Scan(0);
    SteppedOver(t, 0, q, i);
    var x := s.All()[i].at;
    if PAGE_SIZE * k + PAGE_HEADER_SIZE <= t.pos[x] < PAGE_SIZE * (k + 1) { IntoPage(s, k, x); }
  }
}
