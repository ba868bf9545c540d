/**
 * The error-report store of backend/internal/telemetrystore/store.go. Fingerprints, and the instants the clock
 * returns, are inputs.
 */
module TelemetryStore {
  import opened Options

  type Time = int

  datatype Event = Event(hash: string, message: string, level: string, url: string, userAgent: string, stack: string,
                         count: nat, firstSeen: Time, lastSeen: Time, lastEventId: string, lastTimestamp: Time)

  datatype Input = Input(eventId: string, timestamp: Time, level: string, message: string, url: string,
                         userAgent: string, stack: string)

  type Events = map<string, Event>

  function OrDefault(v: string, fallback: string): string {
    if v != "" then v else fallback
  }

  // ---- the steps of the store ----

  /** Merge a report into its event, or add one. */
  function Recorded(m: Events, h: string, input: Input, first: Time, now: Time): Events {
    if h in m then
      var e := m[h];
      m[h := e.(count := e.count + 1, lastSeen := now, lastEventId := input.eventId, lastTimestamp := input.timestamp,
                level := OrDefault(input.level, e.level), userAgent := OrDefault(input.userAgent, e.userAgent))]
    else
      m[h := Event(h, input.message, input.level, input.url, input.userAgent, input.stack, 1, first, now,
                   input.eventId, input.timestamp)]
  }

  function Purged(m: Events, cutoff: Time): Events {
    map h | h in m && m[h].lastSeen >= cutoff :: m[h]
  }

  /** m' keeps max of m's events, none of them older than one that was dropped; ties may fall either way. */
  ghost predicate Capped(m: Events, m': Events, max: int) {
    if max <= 0 || |m| <= max then m' == m
    else
      && |m'| == max
      && (forall h :: h in m' ==> h in m && m'[h] == m[h])
      && (forall gone, kept :: gone in m && gone !in m' && kept in m' ==> m[gone].lastSeen <= m[kept].lastSeen)
  }

  datatype Op =
    | Record(hash: string, input: Input, first: Time, now: Time)
    | Purge(cutoff: Time)
    | Enforce

  ghost predicate Step(m: Events, op: Op, m': Events, max: int) {
    match op
    case Record(h, input, first, now) =>
      if h in m then m' == Recorded(m, h, input, first, now) else Capped(Recorded(m, h, input, first, now), m', max)
    case Purge(cutoff) => m' == Purged(m, cutoff)
    case Enforce => Capped(m, m', max)
  }

  // ---- the store ----

  /** a need not come after b. */
  predicate InOrder(a: Event, b: Event, newestFirst: bool) {
    if newestFirst then a.lastSeen >= b.lastSeen else a.lastSeen <= b.lastSeen
  }

  ghost predicate Ordered(s: seq<Event>, newestFirst: bool) {
    forall i, j :: 0 <= i < j < |s| ==> InOrder(s[i], s[j], newestFirst)
  }

  lemma InOrderTransitive(a: Event, b: Event, c: Event, newestFirst: bool)
    requires InOrder(a, b, newestFirst) && InOrder(b, c, newestFirst)
    ensures InOrder(a, c, newestFirst)
  {
  }

  lemma InsertOrdered(s: seq<Event>, k: nat, e: Event, newestFirst: bool)
    requires k <= |s| && Ordered(s, newestFirst)
    requires forall j :: 0 <= j < k ==> InOrder(s[j], e, newestFirst)
    requires k < |s| ==> InOrder(e, s[k], newestFirst)
    ensures Ordered(s[..k] + [e] + s[k..], newestFirst)
  {
    hide InOrder;
    var t := s[..k] + [e] + s[k..];
    forall i, j | 0 <= i < j < |t| ensures InOrder(t[i], t[j], newestFirst) {
      if i == k && j > k + 1 {
        InOrderTransitive(e, s[k], s[j - 1], newestFirst);
      }
    }
  }

  lemma InsertSame(s: seq<Event>, k: nat, e: Event)
    requires k <= |s|
    ensures multiset(s[..k] + [e] + s[k..]) == multiset(s) + multiset{e}
  {
    assert s == s[..k] + s[k..];
  }

  /** Stands for sort.Slice on LastSeen. */
  method SortByLastSeen(all: seq<Event>, newestFirst: bool) returns (sorted: seq<Event>)
    ensures multiset(sorted) == multiset(all) && Ordered(sorted, newestFirst)
  {
    sorted := [];
    for i := 0 to |all|
      invariant multiset(sorted) == multiset(all[..i]) && Ordered(sorted, newestFirst)
    {
      var k := 0;
      while k < |sorted| && InOrder(sorted[k], all[i], newestFirst)
        invariant 0 <= k <= |sorted|
        invariant forall j :: 0 <= j < k ==> InOrder(sorted[j], all[i], newestFirst)
      {
        k := k + 1;
      }
      InsertOrdered(sorted, k, all[i], newestFirst);
      InsertSame(sorted, k, all[i]);
      assert all[..i + 1] == all[..i] + [all[i]];
      sorted := sorted[..k] + [all[i]] + sorted[k..];
    }
    assert all[..|all|] == all;
  }

  lemma Twice(s: seq<Event>, i: nat, j: nat)
    requires i < j < |s| && s[i] == s[j]
    ensures multiset(s)[s[i]] >= 2
  {
    assert s == s[..j] + ([s[j]] + s[j + 1..]);
    assert s[i] in s[..j];
  }

  /** s holds each event of m once and nothing else. */
  ghost predicate Lists(m: Events, s: multiset<Event>) {
    forall e :: s[e] == if e.hash in m && m[e.hash] == e then 1 else 0
  }

  lemma ListsDistinct(m: Events, s: seq<Event>)
    requires Lists(m, multiset(s))
    ensures forall i :: 0 <= i < |s| ==> s[i].hash in m && m[s[i].hash] == s[i]
    ensures forall i, j :: 0 <= i < j < |s| ==> s[i].hash != s[j].hash
    ensures forall h :: h in m && m[h].hash == h ==> m[h] in s
  {
    forall i | 0 <= i < |s| ensures s[i].hash in m && m[s[i].hash] == s[i] {
      assert s[i] in multiset(s);
    }
    forall i, j | 0 <= i < j < |s| ensures s[i].hash != s[j].hash {
      if s[i] == s[j] {
        Twice(s, i, j);
      }
    }
    forall h | h in m && m[h].hash == h ensures m[h] in s {
      assert m[h] in multiset(s);
    }
  }

  function Hashes(s: seq<Event>): set<string> {
    set i | 0 <= i < |s| :: s[i].hash
  }

  function Without(m: Events, s: seq<Event>): Events {
    m - Hashes(s)
  }

  lemma UnderCap(m: Events, max: int)
    requires max <= 0 || |m| <= max
    ensures Capped(m, m, max)
  {
  }

  lemma WithoutNone(m: Events, s: seq<Event>)
    ensures Without(m, s[..0]) == m
  {
    assert Hashes(s[..0]) == {};
  }

  lemma WithoutKeeps(m: Events, s: seq<Event>)
    ensures forall h :: h in Without(m, s) ==> h in m && Without(m, s)[h] == m[h]
  {
  }

  lemma HashNew(s: seq<Event>, i: nat)
    requires i < |s| && forall j, k :: 0 <= j < k < |s| ==> s[j].hash != s[k].hash
    ensures s[i].hash !in Hashes(s[..i])
  {
  }

  lemma HashesPrefix(s: seq<Event>, n: nat)
    requires n <= |s|
    ensures forall k :: 0 <= k < n ==> s[k].hash in Hashes(s[..n])
  {
    forall k | 0 <= k < n ensures s[k].hash in Hashes(s[..n]) {
      assert s[..n][k] == s[k];
    }
  }

  lemma HashesSnoc(s: seq<Event>, i: nat)
    requires i < |s|
    ensures Hashes(s[..i + 1]) == Hashes(s[..i]) + {s[i].hash}
  {
    HashesPrefix(s, i);
    HashesPrefix(s, i + 1);
    forall h | h in Hashes(s[..i + 1]) ensures h in Hashes(s[..i]) + {s[i].hash} {
      var j :| 0 <= j < i + 1 && s[..i + 1][j].hash == h;
    }
    forall h | h in Hashes(s[..i]) ensures h in Hashes(s[..i + 1]) {
      var j :| 0 <= j < i && s[..i][j].hash == h;
      assert s[j].hash == h;
    }
  }

  lemma DropNext(m: Events, s: seq<Event>, i: nat)
    requires Lists(m, multiset(s)) && i < |s|
    ensures var before := Without(m, s[..i]);
            && s[i].hash in before
            && before - {s[i].hash} == Without(m, s[..i + 1])
            && |before - {s[i].hash}| == |before| - 1
  {
    hide Lists;
    ListsDistinct(m, s);
    var before, h := Without(m, s[..i]), s[i].hash;
    HashesSnoc(s, i);
    HashNew(s, i);
    assert before - {h} == Without(m, s[..i + 1]);
    assert (before - {h}).Keys == before.Keys - {h};
  }

  /** Dropping the head of a list sorted oldest first leaves max events, none older than a dropped one. */
  lemma CappedBySorted(m: Events, s: seq<Event>, max: int)
    requires Lists(m, multiset(s)) && Ordered(s, false) && forall h :: h in m ==> m[h].hash == h
    requires 0 < max < |m| == |s|
    requires |Without(m, s[..|s| - max])| == max
    ensures Capped(m, Without(m, s[..|s| - max]), max)
  {
    hide Lists, InOrder, Hashes;
    ListsDistinct(m, s);
    var m' := Without(m, s[..|s| - max]);
    forall gone, kept | gone in m && gone !in m' && kept in m' ensures m[gone].lastSeen <= m[kept].lastSeen {
      DroppedNotNewer(m, s, |s| - max, gone, kept);
    }
  }

  lemma DroppedNotNewer(m: Events, s: seq<Event>, n: nat, gone: string, kept: string)
    requires n <= |s| && Ordered(s, false)
    requires forall i :: 0 <= i < |s| ==> s[i].hash in m && m[s[i].hash] == s[i]
    requires gone in m && gone in Hashes(s[..n])
    requires kept in m && kept !in Hashes(s[..n]) && m[kept] in s && m[kept].hash == kept
    ensures m[gone].lastSeen <= m[kept].lastSeen
  {
    hide InOrder;
    var g :| 0 <= g < n && s[..n][g].hash == gone;
    var k :| 0 <= k < |s| && s[k] == m[kept];
    HashesPrefix(s, n);
    assert k >= n;
    assert InOrder(s[g], s[k], false);
    OlderFirst(s[g], s[k]);
  }

  lemma OlderFirst(a: Event, b: Event)
    requires InOrder(a, b, false)
    ensures a.lastSeen <= b.lastSeen
  {
  }

  class Store {
    var events: Events
    const retention: int
    const maxEvents: int

    /** Each event carries the fingerprint it is stored under; eviction deletes by the fingerprint it carries. */
    ghost predicate Valid()
      reads this
    {
      forall h :: h in events ==> events[h].hash == h
    }

    constructor (retention: int, maxEvents: int)
      ensures Valid() && events == map[]
      ensures this.retention == retention && this.maxEvents == maxEvents
    {
      this.retention := retention;
      this.maxEvents := maxEvents;
      events := map[];
    }

    /** The events as a list, in no particular order. */
    method Values() returns (all: seq<Event>)
      requires Valid()
      ensures Lists(events, multiset(all)) && |all| == |events|
    {
      all := [];
      var keys := events.Keys;
      while keys != {}
        invariant keys <= events.Keys && |all| + |keys| == |events|
        invariant forall e :: multiset(all)[e] == if e.hash in events && events[e.hash] == e && e.hash !in keys then 1 else 0
        decreases |keys|
      {
        var h :| h in keys;
        all := all + [events[h]];
        keys := keys - {h};
      }
    }

    method EnforceCap()
      requires Valid()
      modifies this`events
      ensures Valid() && Capped(old(events), events, maxEvents)
    {
      hide Lists, Hashes, InOrder, Without, Capped;
      if maxEvents <= 0 || |events| <= maxEvents {
        UnderCap(events, maxEvents);
        return;
      }
      var all := Values();
      var sorted := SortByLastSeen(all, false);
      assert |sorted| == |multiset(sorted)| == |multiset(all)| == |all|;
      var excess := |sorted| - maxEvents;
      WithoutNone(events, sorted);
      for i := 0 to excess
        invariant events == Without(old(events), sorted[..i])
        invariant |events| == |sorted| - i
      {
        DropNext(old(events), sorted, i);
        events := events - {sorted[i].hash};
      }
      CappedBySorted(old(events), sorted, maxEvents);
      WithoutKeeps(old(events), sorted[..excess]);
    }

    method Record(h: string, input: Input, first: Time, now: Time)
      requires Valid()
      modifies this`events
      ensures Valid() && Step(old(events), Op.Record(h, input, first, now), events, maxEvents)
    {
      if h in events {
        var e := events[h];
        events := events[h := e.(count := e.count + 1, lastSeen := now, lastEventId := input.eventId,
                                 lastTimestamp := input.timestamp, level := OrDefault(input.level, e.level),
                                 userAgent := OrDefault(input.userAgent, e.userAgent))];
        return;
      }
      events := events[h := Event(h, input.message, input.level, input.url, input.userAgent, input.stack, 1, first, now,
                                  input.eventId, input.timestamp)];
      EnforceCap();
    }

    method PurgeBefore(cutoff: Time) returns (removed: nat)
      requires Valid()
      modifies this`events
      ensures Valid() && Step(old(events), Purge(cutoff), events, maxEvents)
      ensures removed == |old(events)| - |events|
    {
      removed := 0;
      var keys := events.Keys;
      while keys != {}
        invariant Valid() && keys <= events.Keys
        invariant removed + |events| == |old(events)|
        invariant forall h :: h in events <==> h in old(events) && (h in keys || old(events)[h].lastSeen >= cutoff)
        invariant forall h :: h in events ==> events[h] == old(events)[h]
        decreases |keys|
      {
        var h :| h in keys;
        keys := keys - {h};
        if events[h].lastSeen < cutoff {
          assert (events - {h}).Keys == events.Keys - {h};
          events := events - {h};
          removed := removed + 1;
        }
      }
      assert events == Purged(old(events), cutoff);
    }

    /** The periodic upkeep: purge what is past retention, then enforce the cap. */
    method Maintain(now: Time)
      requires Valid()
      modifies this`events
      ensures Valid()
      ensures Capped(if retention > 0 then Purged(old(events), now - retention) else old(events), events, maxEvents)
    {
      if retention > 0 {
        var removed := PurgeBefore(now - retention);
      }
      EnforceCap();
    }

    /** The events since the given instant, in no particular order. */
    method Matching(since: Option<Time>) returns (matching: seq<Event>)
      requires Valid()
      ensures forall e :: multiset(matching)[e] == if e.hash in events && events[e.hash] == e && Since(e, since) then 1 else 0
    {
      hide Since;
      var all := Values();
      matching := [];
      for i := 0 to |all|
        invariant forall e :: multiset(matching)[e] == if Since(e, since) then multiset(all[..i])[e] else 0
      {
        assert all[..i + 1] == all[..i] + [all[i]];
        if !Since(all[i], since) {
          continue;
        }
        matching := matching + [all[i]];
      }
      assert all[..|all|] == all;
    }

    method TopSince(limit: int, since: Option<Time>) returns (out: seq<Event>)
      requires Valid()
      ensures Top(events, since, limit, out)
    {
      var matching := Matching(since);
      var sorted := SortByLastSeen(matching, true);
      out := if limit > 0 && |sorted| > limit then sorted[..limit] else sorted;
      TopFromSorted(events, since, limit, sorted, out);
    }
  }

  predicate Since(e: Event, since: Option<Time>) {
    since.None? || e.lastSeen >= since.value
  }

  /** out is the newest first: events since the given instant, at most limit of them, none left out newer than one let in. */
  ghost predicate Top(m: Events, since: Option<Time>, limit: int, out: seq<Event>) {
    && Ordered(out, true)
    && (forall i :: 0 <= i < |out| ==> out[i].hash in m && m[out[i].hash] == out[i] && Since(out[i], since))
    && (forall i, j :: 0 <= i < j < |out| ==> out[i].hash != out[j].hash)
    && (limit > 0 ==> |out| <= limit)
    && (forall h :: h in m && Since(m[h], since) && m[h] !in out ==>
          0 < limit == |out| && forall i :: 0 <= i < |out| ==> m[h].lastSeen <= out[i].lastSeen)
  }

  lemma TopFromSorted(m: Events, since: Option<Time>, limit: int, sorted: seq<Event>, out: seq<Event>)
    requires forall h :: h in m ==> m[h].hash == h
    requires forall e :: multiset(sorted)[e] == if e.hash in m && m[e.hash] == e && Since(e, since) then 1 else 0
    requires Ordered(sorted, true)
    requires out == if limit > 0 && |sorted| > limit then sorted[..limit] else sorted
    ensures Top(m, since, limit, out)
  {
    var wanted := map h | h in m && Since(m[h], since) :: m[h];
    assert Lists(wanted, multiset(sorted));
    ListsDistinct(wanted, sorted);
    forall i | 0 <= i < |out| ensures out[i] == sorted[i] { }
    forall h | h in m && Since(m[h], since) && m[h] !in out
      ensures 0 < limit == |out| && forall i :: 0 <= i < |out| ==> m[h].lastSeen <= out[i].lastSeen
    {
      LeftOut(wanted, sorted, out, h);
    }
  }

  lemma LeftOut(wanted: Events, sorted: seq<Event>, out: seq<Event>, h: string)
    requires h in wanted && wanted[h] in sorted && wanted[h] !in out
    requires out <= sorted && Ordered(sorted, true)
    ensures |out| < |sorted| && forall i :: 0 <= i < |out| ==> wanted[h].lastSeen <= out[i].lastSeen
  {
    var k :| 0 <= k < |sorted| && sorted[k] == wanted[h];
    assert k >= |out|;
    forall i | 0 <= i < |out| ensures wanted[h].lastSeen <= out[i].lastSeen {
      assert InOrder(sorted[i], sorted[k], true);
    }
  }
}
