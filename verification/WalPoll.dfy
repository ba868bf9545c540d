/** Polling the newest WAL segments for records not reported before: collect_new_wal_events in collector/src/wal_file.rs. */
module WalPoll {
  import opened Bytes
  import opened Options
  import opened RustWalReader
  import opened Sets
  import LsnText

  const SEEN_CAP: nat := 50_000

  // ---- one poll as a function ----

  function Lsns(events: seq<Event>): set<string> {
    set i | 0 <= i < |events| :: events[i].xlogPtr
  }

  /** The events of a batch whose LSN is neither in seen nor on an earlier event of the batch, in read order. */
  function Fresh(seen: set<string>, batch: seq<Event>): seq<Event>
    decreases |batch|
  {
    if batch == [] then []
    else if batch[0].xlogPtr in seen then Fresh(seen, batch[1..])
    else [batch[0]] + Fresh(seen + {batch[0].xlogPtr}, batch[1..])
  }

  /** The last limit elements; all of them when limit is zero. */
  function LastOnes<T>(s: seq<T>, limit: nat): seq<T> {
    if 0 < limit < |s| then s[|s| - limit..] else s
  }

  /** A poll sees no segment files at all, or the records of the newest two. */
  datatype Listing = NoSegments | Records(batch: seq<Event>)

  datatype Outcome = Outcome(seen: set<string>, events: seq<Event>, cleared: bool)

  function Poll(seen: set<string>, listing: Listing, limit: nat): Outcome {
    match listing
    case NoSegments => Outcome(seen, [], false)
    case Records(batch) =>
      var events := LastOnes(Fresh(seen, batch), limit);
      var marked := seen + Lsns(batch);
      if |marked| > SEEN_CAP then Outcome(Lsns(events), events, true) else Outcome(marked, events, false)
  }

  /** The records of the newest two segments, older first; a file that cannot be read (None) contributes nothing. */
  function Batch(segments: seq<Option<seq<byte>>>): seq<Event> {
    if segments == [] then []
    else
      var last := SegmentEvents(segments[|segments| - 1]);
      if |segments| == 1 then last else SegmentEvents(segments[|segments| - 2]) + last
  }

  function SegmentEvents(segment: Option<seq<byte>>): seq<Event> {
    if segment.Some? then AllEvents(segment.value) else []
  }

  function ListingOf(segments: seq<Option<seq<byte>>>): Listing {
    if segments == [] then NoSegments else Records(Batch(segments))
  }

  // ---- what a poll is to report ----

  /** The event at place i has an LSN neither in seen nor on an earlier event of the batch. */
  predicate FirstRead(seen: set<string>, batch: seq<Event>, i: nat)
    requires i < |batch|
  {
    batch[i].xlogPtr !in seen && forall j :: 0 <= j < i ==> batch[j].xlogPtr != batch[i].xlogPtr
  }

  /** at lists the places of a batch where an LSN is first read, in read order. */
  ghost predicate FirstPlaces(seen: set<string>, batch: seq<Event>, at: seq<nat>) {
    && (forall i :: i in at <==> 0 <= i < |batch| && FirstRead(seen, batch, i))
    && (forall k, l :: 0 <= k < l < |at| ==> at[k] < at[l])
  }

  /** The events are those last read among the first reads: limit of them, or all when there are fewer or no limit. */
  ghost predicate LastRead(seen: set<string>, batch: seq<Event>, limit: nat, events: seq<Event>) {
    exists at: seq<nat> ::
      && FirstPlaces(seen, batch, at)
      && |events| == (if limit == 0 then |at| else Min(limit, |at|))
      && forall k :: 0 <= k < |events| ==>
           at[|at| - |events| + k] < |batch| && events[k] == batch[at[|at| - |events| + k]]
  }

  // ---- the collector ----

  class Collector {
    var seenLsns: set<string>

    constructor ()
      ensures seenLsns == {}
    {
      seenLsns := {};
    }

    /** One segment's records: mark them all, report the ones not marked before. */
    method Absorb(segment: seq<byte>, reported: seq<Event>) returns (events: seq<Event>)
      modifies this
      ensures seenLsns == old(seenLsns) + Lsns(AllEvents(segment))
      ensures events == reported + Fresh(old(seenLsns), AllEvents(segment))
    {
      hide AllEvents;
      events := reported;
      var records := ReadRecords(segment);
      ghost var all := AllEvents(segment);
      assert all[0..] == all;
      for i := 0 to |records|
        invariant records == all
        invariant seenLsns == old(seenLsns) + Lsns(all[..i])
        invariant events + Fresh(seenLsns, all[i..]) == reported + Fresh(old(seenLsns), all)
      {
        assert all[i..][0] == all[i] && all[i..][1..] == all[i + 1..];
        LsnsSnoc(all, i);
        if records[i].xlogPtr !in seenLsns {
          seenLsns := seenLsns + {records[i].xlogPtr};
          events := events + [records[i]];
        }
      }
      assert all[..|all|] == all;
    }

    /** The unseen records of the newest two segments; each file that cannot be read is passed over. */
    method Gather(segments: seq<Option<seq<byte>>>) returns (events: seq<Event>)
      requires segments != []
      modifies this
      ensures seenLsns == old(seenLsns) + Lsns(Batch(segments))
      ensures events == Fresh(old(seenLsns), Batch(segments))
    {
      hide AllEvents, Fresh, Lsns;
      events := [];
      ghost var before, older := seenLsns, [];
      NothingRead(before);
      if |segments| >= 2 && segments[|segments| - 2].Some? {
        older := AllEvents(segments[|segments| - 2].value);
        events := Absorb(segments[|segments| - 2].value, events);
      }
      var newest := segments[|segments| - 1];
      FreshConcat(before, older, SegmentEvents(newest));
      assert older + SegmentEvents(newest) == Batch(segments);
      NothingRead(seenLsns);
      if newest.Some? {
        events := Absorb(newest.value, events);
      }
    }

    /** Forget everything but the given events. */
    method Forget(events: seq<Event>)
      modifies this
      ensures seenLsns == Lsns(events)
    {
      hide Lsns;
      seenLsns := {};
      NothingRead({});
      assert events[..0] == [];
      for i := 0 to |events|
        invariant seenLsns == Lsns(events[..i])
      {
        LsnsSnoc(events, i);
        seenLsns := seenLsns + {events[i].xlogPtr};
      }
      assert events[..|events|] == events;
    }

    method Collect(segments: seq<Option<seq<byte>>>, limit: nat) returns (events: seq<Event>)
      modifies this
      ensures Poll(old(seenLsns), ListingOf(segments), limit).seen == seenLsns
      ensures Poll(old(seenLsns), ListingOf(segments), limit).events == events
      ensures segments == [] ==> events == [] && seenLsns == old(seenLsns)
      ensures segments != [] ==> LastRead(old(seenLsns), Batch(segments), limit, events)
      ensures segments != [] ==>
                var all := old(seenLsns) + Lsns(Batch(segments));
                seenLsns == if |all| > 50_000 then Lsns(events) else all
    {
      hide Batch, Fresh, Lsns, LastRead;
      if |segments| == 0 {
        return [];
      }
      events := Gather(segments);
      if limit > 0 && |events| > limit {
        events := events[|events| - limit..];
      }
      ReportsLast(old(seenLsns), Batch(segments), limit, events);
      if |seenLsns| > SEEN_CAP {
        Forget(events);
      }
    }
  }

  // ---- what one poll keeps ----

  lemma NothingRead(seen: set<string>)
    ensures Fresh(seen, []) == [] && Lsns([]) == {} && seen + Lsns([]) == seen
  {
    assert seen + {} == seen;
  }

  lemma LsnsSnoc(events: seq<Event>, i: nat)
    requires i < |events|
    ensures Lsns(events[..i + 1]) == Lsns(events[..i]) + {events[i].xlogPtr}
    ensures Lsns(events[..0]) == {}
  {
    var more, less := events[..i + 1], events[..i];
    forall l | l in Lsns(more) ensures l in Lsns(less) + {events[i].xlogPtr} {
      var j :| 0 <= j < |more| && more[j].xlogPtr == l;
      if j < i { assert less[j].xlogPtr == l; }
    }
    forall l | l in Lsns(less) ensures l in Lsns(more) {
      var j :| 0 <= j < |less| && less[j].xlogPtr == l;
      assert more[j].xlogPtr == l;
    }
    assert more[i].xlogPtr in Lsns(more);
  }

  lemma LsnsConcat(a: seq<Event>, b: seq<Event>)
    ensures Lsns(a + b) == Lsns(a) + Lsns(b)
  {
    forall i | 0 <= i < |a| ensures a[i].xlogPtr in Lsns(a + b) { assert (a + b)[i] == a[i]; }
    forall i | 0 <= i < |b| ensures b[i].xlogPtr in Lsns(a + b) { assert (a + b)[|a| + i] == b[i]; }
  }

  lemma LsnsHead(events: seq<Event>)
    requires events != []
    ensures Lsns(events) == {events[0].xlogPtr} + Lsns(events[1..])
  {
    assert events == [events[0]] + events[1..];
    LsnsConcat([events[0]], events[1..]);
    assert [events[0]][0].xlogPtr in Lsns([events[0]]);
    assert Lsns([events[0]]) == {events[0].xlogPtr};
  }

  /** Reading two segments in turn is reading their records as one batch. */
  lemma {:induction false} FreshConcat(seen: set<string>, a: seq<Event>, b: seq<Event>)
    ensures Fresh(seen, a + b) == Fresh(seen, a) + Fresh(seen + Lsns(a), b)
    ensures seen + Lsns(a + b) == (seen + Lsns(a)) + Lsns(b)
    decreases |a|
  {
    hide Lsns;
    LsnsConcat(a, b);
    if a == [] {
      assert a + b == b;
      NothingRead(seen);
    } else {
      var head, rest := a[0], a[1..];
      assert (a + b)[1..] == rest + b;
      LsnsHead(a);
      var seen' := if head.xlogPtr in seen then seen else seen + {head.xlogPtr};
      FreshConcat(seen', rest, b);
      assert seen' + Lsns(rest) == seen + Lsns(a);
    }
  }

  ghost predicate DistinctLsns(events: seq<Event>) {
    forall i, j :: 0 <= i < j < |events| ==> events[i].xlogPtr != events[j].xlogPtr
  }

  /** Fresh events are distinct, unseen, and cover every unseen LSN of the batch. */
  lemma {:induction false} FreshFacts(seen: set<string>, batch: seq<Event>)
    ensures DistinctLsns(Fresh(seen, batch))
    ensures Lsns(Fresh(seen, batch)) == Lsns(batch) - seen
    decreases |batch|
  {
    if batch != [] {
      var head, rest := batch[0], batch[1..];
      LsnsHead(batch);
      if head.xlogPtr in seen {
        FreshFacts(seen, rest);
      } else {
        var others := Fresh(seen + {head.xlogPtr}, rest);
        FreshFacts(seen + {head.xlogPtr}, rest);
        assert ([head] + others)[1..] == others;
        LsnsHead([head] + others);
        forall i | 0 <= i < |others| ensures others[i].xlogPtr != head.xlogPtr {
          assert others[i].xlogPtr in Lsns(others);
        }
      }
    }
  }

  lemma FirstReadTail(seen: set<string>, batch: seq<Event>, i: nat)
    requires i + 1 < |batch|
    ensures FirstRead(seen, batch, i + 1) <==> FirstRead(seen + {batch[0].xlogPtr}, batch[1..], i)
  {
    var rest := batch[1..];
    if FirstRead(seen + {batch[0].xlogPtr}, rest, i) {
      forall j | 0 <= j < i + 1 ensures batch[j].xlogPtr != batch[i + 1].xlogPtr {
        if j > 0 { assert rest[j - 1] == batch[j]; }
      }
    }
  }

  lemma FirstReadHead(seen: set<string>, batch: seq<Event>)
    requires batch != []
    ensures FirstRead(seen, batch, 0) <==> batch[0].xlogPtr !in seen
  {
  }

  /** Places in what follows the first event, as places in the whole, with place 0 before them if head says so. */
  function Behind(at: seq<nat>, head: bool): (all: seq<nat>)
    ensures |all| == |at| + (if head then 1 else 0)
  {
    (if head then [0] else []) + seq(|at|, k requires 0 <= k < |at| => at[k] + 1)
  }

  lemma BehindFacts(at: seq<nat>, head: bool)
    requires forall k, l :: 0 <= k < l < |at| ==> at[k] < at[l]
    ensures forall k, l :: 0 <= k < l < |at| + (if head then 1 else 0) ==> Behind(at, head)[k] < Behind(at, head)[l]
    ensures forall i :: i in Behind(at, head) <==> (i == 0 && head) || (i > 0 && i - 1 in at)
  {
    var all, d := Behind(at, head), if head then 1 else 0;
    forall i | i > 0 && i - 1 in at ensures i in all {
      var k :| 0 <= k < |at| && at[k] == i - 1;
      assert all[k + d] == i;
    }
  }

  lemma FreshHead(seen: set<string>, batch: seq<Event>)
    requires batch != []
    ensures Fresh(seen, batch)
         == (if batch[0].xlogPtr in seen then [] else [batch[0]]) + Fresh(seen + {batch[0].xlogPtr}, batch[1..])
  {
    if batch[0].xlogPtr in seen { assert seen + {batch[0].xlogPtr} == seen; }
  }

  /** The fresh events are the batch's own events at the places where an LSN is first read, in read order. */
  lemma {:induction false} FreshFirsts(seen: set<string>, batch: seq<Event>) returns (at: seq<nat>)
    ensures |Fresh(seen, batch)| == |at|
    ensures forall k :: 0 <= k < |at| ==> at[k] < |batch| && Fresh(seen, batch)[k] == batch[at[k]]
    ensures forall k, l :: 0 <= k < l < |at| ==> at[k] < at[l]
    ensures forall i :: i in at <==> 0 <= i < |batch| && FirstRead(seen, batch, i)
    decreases |batch|
  {
    hide FirstRead, Fresh;
    if batch == [] {
      NothingRead(seen);
      return [];
    }
    var seen', head := seen + {batch[0].xlogPtr}, batch[0].xlogPtr !in seen;
    var later := FreshFirsts(seen', batch[1..]);
    at := Behind(later, head);
    FreshHead(seen, batch);
    FirstReadHead(seen, batch);
    BehindFacts(later, head);
    var d := if head then 1 else 0;
    forall k | 0 <= k < |at| ensures at[k] < |batch| && Fresh(seen, batch)[k] == batch[at[k]] {
      if k >= d { assert at[k] == later[k - d] + 1; }
    }
    hide Behind;
    forall i ensures i in at <==> 0 <= i < |batch| && FirstRead(seen, batch, i) {
      if 0 < i < |batch| { FirstReadTail(seen, batch, i - 1); }
    }
  }

  /** Cutting the fresh events down to the last limit leaves those read last. */
  lemma ReportsLast(seen: set<string>, batch: seq<Event>, limit: nat, events: seq<Event>)
    requires var all := Fresh(seen, batch);
             events == if limit > 0 && |all| > limit then all[|all| - limit..] else all
    ensures LastRead(seen, batch, limit, events)
  {
    hide Fresh, FirstRead;
    var at := FreshFirsts(seen, batch);
    assert FirstPlaces(seen, batch, at);
  }

  /** Of any segments only the newest two are read, the older one first; one that cannot be read adds nothing. */
  lemma TwoNewest(others: seq<Option<seq<byte>>>, older: Option<seq<byte>>, newest: Option<seq<byte>>)
    ensures Batch(others + [older, newest]) == Batch([older]) + Batch([newest])
    ensures Batch([None]) == [] && forall data :: Batch([Some(data)]) == AllEvents(data)
  {
    hide AllEvents;
    var all := others + [older, newest];
    assert all[|all| - 1] == newest && all[|all| - 2] == older;
  }

  lemma LastOnesFacts(events: seq<Event>, limit: nat)
    requires DistinctLsns(events)
    ensures DistinctLsns(LastOnes(events, limit)) && Lsns(LastOnes(events, limit)) <= Lsns(events)
  {
    var last := LastOnes(events, limit);
    var d := |events| - |last|;
    forall i | 0 <= i < |last| ensures last[i] == events[d + i] && last[i].xlogPtr in Lsns(events) {
    }
  }

  /** A poll reports each LSN once, none it has seen, and remembers all it reports. */
  lemma PollReports(seen: set<string>, listing: Listing, limit: nat)
    ensures var o := Poll(seen, listing, limit);
            && DistinctLsns(o.events) && Lsns(o.events) !! seen && Lsns(o.events) <= o.seen
            && (!o.cleared ==> seen <= o.seen)
            && (limit > 0 ==> |o.events| <= limit)
  {
    if listing.Records? {
      FreshFacts(seen, listing.batch);
      LastOnesFacts(Fresh(seen, listing.batch), limit);
    }
  }

  lemma {:induction false} DistinctCount(events: seq<Event>)
    requires DistinctLsns(events)
    ensures |Lsns(events)| == |events|
  {
    if events != [] {
      var n := |events| - 1;
      LsnsSnoc(events, n);
      assert events[..n + 1] == events;
      DistinctCount(events[..n]);
      forall i | 0 <= i < n ensures events[..n][i].xlogPtr != events[n].xlogPtr { }
    }
  }

  /**
   * The remembered set outgrows its cap exactly when the batch holds more unseen LSNs than the cap and the limit does
   * not cut them down to it.
   */
  lemma SeenCap(seen: set<string>, batch: seq<Event>, limit: nat)
    ensures |Poll(seen, Records(batch), limit).seen| > SEEN_CAP
       <==> (limit == 0 || limit > SEEN_CAP) && |Lsns(batch) - seen| > SEEN_CAP
  {
    hide Fresh, Lsns;
    var all := Fresh(seen, batch);
    FreshFacts(seen, batch);
    DistinctCount(all);
    LastOnesFacts(all, limit);
    DistinctCount(LastOnes(all, limit));
    SubsetSize(Lsns(batch) - seen, seen + Lsns(batch));
  }

  // ---- runs ----

  datatype Tick = Tick(listing: Listing, limit: nat)

  /** The set remembered after the first n polls of a run. */
  function SeenAfter(ticks: seq<Tick>, n: nat): set<string>
    requires n <= |ticks|
    decreases n, 0
  {
    if n == 0 then {} else Result(ticks, n - 1).seen
  }

  /** What the n-th poll does. */
  function Result(ticks: seq<Tick>, n: nat): Outcome
    requires n < |ticks|
    decreases n, 1
  {
    Poll(SeenAfter(ticks, n), ticks[n].listing, ticks[n].limit)
  }

  /** What a poll has reported stays remembered until a later poll clears the set. */
  lemma {:induction false} Remembered(ticks: seq<Tick>, i: nat, j: nat)
    requires i < j <= |ticks|
    requires forall k :: i < k < j ==> !Result(ticks, k).cleared
    ensures Lsns(Result(ticks, i).events) <= SeenAfter(ticks, j)
    decreases j
  {
    hide Poll, Lsns;
    if j == i + 1 {
      PollReports(SeenAfter(ticks, i), ticks[i].listing, ticks[i].limit);
    } else {
      Remembered(ticks, i, j - 1);
      PollReports(SeenAfter(ticks, j - 1), ticks[j - 1].listing, ticks[j - 1].limit);
      assert !Result(ticks, j - 1).cleared;
    }
  }

  /** Two polls with no clearing poll strictly between them report no LSN twice, nor does one poll. */
  lemma NoRepeats(ticks: seq<Tick>, i: nat, j: nat)
    requires i <= j < |ticks|
    requires forall k :: i < k < j ==> !Result(ticks, k).cleared
    ensures i < j ==> Lsns(Result(ticks, i).events) !! Lsns(Result(ticks, j).events)
    ensures DistinctLsns(Result(ticks, j).events)
  {
    hide Poll, Lsns;
    PollReports(SeenAfter(ticks, j), ticks[j].listing, ticks[j].limit);
    if i < j { Remembered(ticks, i, j); }
  }

  /** With every limit between 1 and the cap, the remembered set never outgrows the cap. */
  lemma {:induction false} SeenStaysBounded(ticks: seq<Tick>, n: nat)
    requires n <= |ticks|
    requires forall k :: 0 <= k < |ticks| ==> 0 < ticks[k].limit <= SEEN_CAP
    ensures |SeenAfter(ticks, n)| <= SEEN_CAP
  {
    if n > 0 {
      var tick := ticks[n - 1];
      SeenStaysBounded(ticks, n - 1);
      PollReports(SeenAfter(ticks, n - 1), tick.listing, tick.limit);
      if tick.listing.Records? { SeenCap(SeenAfter(ticks, n - 1), tick.listing.batch, tick.limit); }
    }
  }

  /** Distinct LSN texts on events the reader built are distinct LSN values, and the reverse. */
  lemma TextIsValue(data: seq<byte>, data': seq<byte>, i: nat, j: nat)
    requires i < |AllEvents(data)| && j < |AllEvents(data')|
    ensures AllEvents(data)[i].xlogPtr == AllEvents(data')[j].xlogPtr
       <==> AllEvents(data)[i].lsnValue == AllEvents(data')[j].lsnValue
  {
    EventText(data, i);
    EventText(data', j);
    LsnText.FormatInjective(AllEvents(data)[i].lsnValue, AllEvents(data')[j].lsnValue);
  }

  lemma EventText(data: seq<byte>, i: nat)
    requires i < |AllEvents(data)|
    ensures AllEvents(data)[i].xlogPtr == LsnText.FormatLSN64(AllEvents(data)[i].lsnValue)
  {
    hide LE32, BE32, BE64;
  }
}
