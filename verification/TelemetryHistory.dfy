/** What the store holds as a function of everything that was ever done to it. */
module TelemetryHistory {
  import opened Options
  import opened Sets
  import opened TelemetryStore

  // ---- the history ----

  /** When each fingerprint was last recorded. */
  function LastRecorded(ops: seq<Op>): map<string, Time> {
    if ops == [] then map[]
    else
      var before, op := LastRecorded(ops[..|ops| - 1]), ops[|ops| - 1];
      if op.Record? then before[op.hash := op.now] else before
  }

  /** Fingerprints whose last record some later purge reaches. */
  function Expired(ops: seq<Op>): set<string> {
    if ops == [] then {}
    else
      var before, op := Expired(ops[..|ops| - 1]), ops[|ops| - 1];
      match op
      case Record(h, _, _, _) => before - {h}
      case Purge(cutoff) =>
        var last := LastRecorded(ops[..|ops| - 1]);
        before + set h | h in last && last[h] < cutoff
      case Enforce => before
  }

  /** Fingerprints recorded more recently than h. */
  function Newer(last: map<string, Time>, h: string): set<string>
    requires h in last
  {
    set x | x in last && last[x] > last[h]
  }

  /** The max most recently recorded fingerprints, less the expired; all of them when max is not positive. */
  function Survivors(ops: seq<Op>, max: int): set<string> {
    var last := LastRecorded(ops);
    set h | h in last && h !in Expired(ops) && (max <= 0 || |Newer(last, h)| < max)
  }

  /** Every record carries a later time than all records before it. */
  predicate StrictlyIncreasing(ops: seq<Op>) {
    ops == [] ||
    (var before, op := ops[..|ops| - 1], ops[|ops| - 1];
     && StrictlyIncreasing(before)
     && (op.Record? ==> forall h :: h in LastRecorded(before) ==> LastRecorded(before)[h] < op.now))
  }

  // ---- the store on a history ----

  /** states[i] is a state the store may be in after the first i operations, starting empty. */
  ghost predicate Run(ops: seq<Op>, states: seq<Events>, max: int) {
    && |states| == |ops| + 1
    && states[0] == map[]
    && forall i :: 0 <= i < |ops| ==> Step(states[i], ops[i], states[i + 1], max)
  }

  ghost predicate Matches(ops: seq<Op>, m: Events, max: int) {
    && m.Keys == Survivors(ops, max)
    && forall h :: h in m ==> m[h].hash == h && m[h].lastSeen == LastRecorded(ops)[h]
  }

  // ---- counting ----

  lemma MapSize<K, V>(m: map<K, V>)
    ensures |m| == |m.Keys|
  {
  }

  /** Newer fingerprints than an unexpired one are unexpired themselves. */
  lemma {:induction false} NewerUnexpired(ops: seq<Op>, h: string, x: string)
    requires StrictlyIncreasing(ops)
    requires h in LastRecorded(ops) && h !in Expired(ops) && x in Newer(LastRecorded(ops), h)
    ensures x !in Expired(ops)
  {
    if ops != [] {
      var before, op := ops[..|ops| - 1], ops[|ops| - 1];
      if op.Record? {
        if h != op.hash && x != op.hash { NewerUnexpired(before, h, x); }
      } else {
        NewerUnexpired(before, h, x);
      }
    }
  }

  lemma {:induction false} ExpiredRecorded(ops: seq<Op>)
    ensures Expired(ops) <= LastRecorded(ops).Keys
  {
    if ops != [] { ExpiredRecorded(ops[..|ops| - 1]); }
  }

  /** The survivors newer than a survivor are all the fingerprints newer than it. */
  lemma NewerSurvive(ops: seq<Op>, max: int, h: string)
    requires StrictlyIncreasing(ops) && h in Survivors(ops, max)
    ensures Newer(LastRecorded(ops), h) <= Survivors(ops, max) - {h}
  {
    var last := LastRecorded(ops);
    forall x | x in Newer(last, h) ensures x in Survivors(ops, max) {
      NewerUnexpired(ops, h, x);
      SubsetSize(Newer(last, x), Newer(last, h));
    }
  }

  /** No two fingerprints were last recorded at the same time. */
  lemma {:induction false} TimesDiffer(ops: seq<Op>, x: string, y: string)
    requires StrictlyIncreasing(ops) && x in LastRecorded(ops) && y in LastRecorded(ops) && x != y
    ensures LastRecorded(ops)[x] != LastRecorded(ops)[y]
  {
    var before, op := ops[..|ops| - 1], ops[|ops| - 1];
    if op.Record? && (op.hash == x || op.hash == y) {
    } else {
      TimesDiffer(before, x, y);
    }
  }

  lemma {:induction false} SurvivorsBounded(ops: seq<Op>, max: int)
    requires StrictlyIncreasing(ops) && max > 0
    ensures |Survivors(ops, max)| <= max
  {
    var s := Survivors(ops, max);
    if s != {} {
      var oldest := Oldest(ops, s);
      NewerSurvive(ops, max, oldest);
      forall x | x in s && x != oldest ensures x in Newer(LastRecorded(ops), oldest) {
        TimesDiffer(ops, x, oldest);
      }
      assert Newer(LastRecorded(ops), oldest) == s - {oldest};
    }
  }

  lemma {:induction false} Oldest(ops: seq<Op>, s: set<string>) returns (h: string)
    requires s != {} && s <= LastRecorded(ops).Keys
    ensures h in s && forall x :: x in s ==> LastRecorded(ops)[h] <= LastRecorded(ops)[x]
    decreases |s|
  {
    h :| h in s;
    if s != {h} {
      var other := Oldest(ops, s - {h});
      if LastRecorded(ops)[other] < LastRecorded(ops)[h] { h := other; }
    }
  }

  // ---- one operation ----

  /** The summaries of a history with one more operation. */
  lemma Snoc(ops: seq<Op>, op: Op)
    ensures LastRecorded(ops + [op]) == (if op.Record? then LastRecorded(ops)[op.hash := op.now] else LastRecorded(ops))
    ensures StrictlyIncreasing(ops + [op]) ==> StrictlyIncreasing(ops)
    ensures op.Enforce? ==> Expired(ops + [op]) == Expired(ops)
    ensures op.Record? ==> Expired(ops + [op]) == Expired(ops) - {op.hash}
  {
    SnocRecorded(ops, op);
    SnocExpired(ops, op);
    hide LastRecorded, Expired;
    var more := ops + [op];
    assert more[..|more| - 1] == ops;
  }

  lemma SnocRecorded(ops: seq<Op>, op: Op)
    ensures LastRecorded(ops + [op]) == (if op.Record? then LastRecorded(ops)[op.hash := op.now] else LastRecorded(ops))
  {
    var more := ops + [op];
    assert more[..|more| - 1] == ops;
  }

  lemma SnocExpired(ops: seq<Op>, op: Op)
    ensures op.Enforce? ==> Expired(ops + [op]) == Expired(ops)
    ensures op.Record? ==> Expired(ops + [op]) == Expired(ops) - {op.hash}
  {
    hide LastRecorded;
    var more := ops + [op];
    assert more[..|more| - 1] == ops;
  }

  /** Recording h makes h the newest and moves it ahead of everything else. */
  lemma NewerAfterRecord(ops: seq<Op>, op: Op, x: string)
    requires op.Record? && StrictlyIncreasing(ops + [op])
    requires x == op.hash || x in LastRecorded(ops)
    ensures Newer(LastRecorded(ops + [op]), x)
         == if x == op.hash then {} else Newer(LastRecorded(ops), x) + {op.hash}
  {
    Snoc(ops, op);
    var more := ops + [op];
    assert more[..|more| - 1] == ops;
  }

  /** Recording a fingerprint the store holds changes no membership. */
  lemma SurvivorsSame(ops: seq<Op>, op: Op, max: int)
    requires op.Record? && StrictlyIncreasing(ops + [op]) && op.hash in Survivors(ops, max)
    ensures Survivors(ops + [op], max) == Survivors(ops, max)
  {
    hide StrictlyIncreasing, LastRecorded, Expired;
    Snoc(ops, op);
    var last, h := LastRecorded(ops), op.hash;
    NewerAfterRecord(ops, op, h);
    forall x | x in last && x != h ensures x in Survivors(ops + [op], max) <==> x in Survivors(ops, max) {
      NewerAfterRecord(ops, op, x);
      SubsetSize(Newer(last, x), Newer(last, x) + {h});
      if x in Survivors(ops, max) && h !in Newer(last, x) {
        TimesDiffer(ops, x, h);
        assert Newer(last, x) + {x} <= Newer(last, h);
        SubsetSize(Newer(last, x) + {x}, Newer(last, h));
      }
      if h in Newer(last, x) { assert Newer(last, x) + {h} == Newer(last, x); }
    }
  }

  lemma NewerWithin(newer: set<string>, s: set<string>, h: string)
    requires newer <= s
    ensures |newer + {h}| <= |s| + 1
  {
    SubsetSize(newer + {h}, s + {h});
  }

  /** With room to spare, recording a fingerprint it does not hold keeps every other as it was. */
  lemma OtherKept(ops: seq<Op>, op: Op, max: int, x: string)
    requires op.Record? && StrictlyIncreasing(ops + [op]) && x in LastRecorded(ops) && x != op.hash
    requires max <= 0 || |Survivors(ops, max)| < max
    ensures x in Survivors(ops + [op], max) <==> x in Survivors(ops, max)
  {
    hide StrictlyIncreasing, LastRecorded, Expired, Newer;
    Snoc(ops, op);
    var last, h := LastRecorded(ops), op.hash;
    NewerAfterRecord(ops, op, x);
    SubsetSize(Newer(last, x), Newer(last, x) + {h});
    if x in Survivors(ops, max) {
      NewerSurvive(ops, max, x);
      NewerWithin(Newer(last, x), Survivors(ops, max) - {x}, h);
    }
  }

  /** The one just recorded survives, and nothing is there that was not there before. */
  lemma NewestSurvives(ops: seq<Op>, op: Op, max: int)
    requires op.Record? && StrictlyIncreasing(ops + [op])
    ensures op.hash in Survivors(ops + [op], max)
    ensures Survivors(ops + [op], max) <= LastRecorded(ops).Keys + {op.hash}
    ensures Survivors(ops, max) <= LastRecorded(ops).Keys
  {
    hide StrictlyIncreasing, LastRecorded, Expired, Newer;
    Snoc(ops, op);
    NewerAfterRecord(ops, op, op.hash);
  }

  /** Recording one it does not hold adds it... */
  lemma SurvivorsGrow(ops: seq<Op>, op: Op, max: int)
    requires op.Record? && StrictlyIncreasing(ops + [op]) && op.hash !in Survivors(ops, max)
    requires max <= 0 || |Survivors(ops, max)| < max
    ensures Survivors(ops + [op], max) == Survivors(ops, max) + {op.hash}
  {
    hide StrictlyIncreasing, LastRecorded, Survivors;
    NewestSurvives(ops, op, max);
    forall x | x in LastRecorded(ops) && x != op.hash
      ensures x in Survivors(ops + [op], max) <==> x in Survivors(ops, max)
    {
      OtherKept(ops, op, max, x);
    }
  }

  lemma NotNewer(last: map<string, Time>, h: string, x: string)
    requires h in last && x in last && last[x] <= last[h]
    ensures x !in Newer(last, h)
  {
  }

  /** At the cap, every other but the oldest is kept as it was. */
  lemma OthersShift(ops: seq<Op>, op: Op, max: int, oldest: string, x: string)
    requires op.Record? && StrictlyIncreasing(ops + [op])
    requires op.hash !in Survivors(ops, max) && 0 < max == |Survivors(ops, max)| && oldest in Survivors(ops, max)
    requires forall y :: y in Survivors(ops, max) ==> LastRecorded(ops)[oldest] <= LastRecorded(ops)[y]
    requires x in LastRecorded(ops) && x != op.hash
    ensures x in Survivors(ops + [op], max) <==> x in Survivors(ops, max) && x != oldest
  {
    hide StrictlyIncreasing, LastRecorded, Expired, Newer;
    Snoc(ops, op);
    var last, h, s := LastRecorded(ops), op.hash, Survivors(ops, max);
    NewerAfterRecord(ops, op, x);
    SubsetSize(Newer(last, x), Newer(last, x) + {h});
    if x == oldest {
      OldestOutlived(ops, s, oldest);
      NewerSurvive(ops, max, oldest);
    } else if x in s {
      NewerSurvive(ops, max, x);
      NotNewer(last, x, oldest);
      NewerWithin(Newer(last, x), s - {x, oldest}, h);
    }
  }

  /** ...and at the cap displaces the oldest. */
  lemma SurvivorsShift(ops: seq<Op>, op: Op, max: int, oldest: string)
    requires op.Record? && StrictlyIncreasing(ops + [op])
    requires op.hash !in Survivors(ops, max) && 0 < max == |Survivors(ops, max)| && oldest in Survivors(ops, max)
    requires forall x :: x in Survivors(ops, max) ==> LastRecorded(ops)[oldest] <= LastRecorded(ops)[x]
    ensures Survivors(ops + [op], max) == Survivors(ops, max) - {oldest} + {op.hash}
  {
    hide StrictlyIncreasing, LastRecorded, Survivors;
    NewestSurvives(ops, op, max);
    forall x | x in LastRecorded(ops) && x != op.hash
      ensures x in Survivors(ops + [op], max) <==> x in Survivors(ops, max) && x != oldest
    {
      OthersShift(ops, op, max, oldest, x);
    }
  }

  /** All other members of a set of fingerprints are newer than its oldest. */
  lemma OldestOutlived(ops: seq<Op>, s: set<string>, oldest: string)
    requires StrictlyIncreasing(ops) && s <= LastRecorded(ops).Keys && oldest in s
    requires forall x :: x in s ==> LastRecorded(ops)[oldest] <= LastRecorded(ops)[x]
    ensures s - {oldest} <= Newer(LastRecorded(ops), oldest)
    ensures |Newer(LastRecorded(ops), oldest)| >= |s| - 1
  {
    forall x | x in s && x != oldest ensures x in Newer(LastRecorded(ops), oldest) { TimesDiffer(ops, x, oldest); }
    SubsetSize(s - {oldest}, Newer(LastRecorded(ops), oldest));
  }

  lemma StepRecordKnown(ops: seq<Op>, op: Op, m: Events, m': Events, max: int)
    requires op.Record? && StrictlyIncreasing(ops + [op])
    requires Matches(ops, m, max) && op.hash in m && Step(m, op, m', max)
    ensures Matches(ops + [op], m', max)
  {
    hide StrictlyIncreasing, LastRecorded, Expired, Survivors;
    Snoc(ops, op);
    SurvivorsSame(ops, op, max);
    assert m'.Keys == m.Keys;
  }

  lemma StepRecordNew(ops: seq<Op>, op: Op, m: Events, m': Events, max: int)
    requires op.Record? && StrictlyIncreasing(ops + [op])
    requires Matches(ops, m, max) && op.hash !in m && Step(m, op, m', max)
    ensures Matches(ops + [op], m', max)
  {
    hide StrictlyIncreasing, LastRecorded, Expired, Survivors, Capped;
    Snoc(ops, op);
    var grown := Recorded(m, op.hash, op.input, op.first, op.now);
    assert grown.Keys == m.Keys + {op.hash};
    MapSize(grown);
    MapSize(m);
    if max > 0 { SurvivorsBounded(ops, max); }
    if max <= 0 || |m| < max {
      SurvivorsGrow(ops, op, max);
      NotOverCap(grown, m', max);
    } else {
      SurvivorsInHistory(ops, max);
      var oldest := Oldest(ops, m.Keys);
      SurvivorsShift(ops, op, max, oldest);
      EvictsOldest(ops, op, m, grown, m', max, oldest);
    }
  }

  lemma SurvivorsInHistory(ops: seq<Op>, max: int)
    ensures Survivors(ops, max) <= LastRecorded(ops).Keys
  {
  }

  lemma NotOverCap(m: Events, m': Events, max: int)
    requires Capped(m, m', max) && (max <= 0 || |m| <= max)
    ensures m' == m
  {
  }

  /** One event over the cap, the one that goes is the oldest. */
  lemma EvictsOldest(ops: seq<Op>, op: Op, m: Events, grown: Events, m': Events, max: int, oldest: string)
    requires op.Record? && StrictlyIncreasing(ops + [op])
    requires m.Keys <= LastRecorded(ops).Keys && op.hash !in m && grown == Recorded(m, op.hash, op.input, op.first, op.now)
    requires forall h :: h in m ==> m[h].lastSeen == LastRecorded(ops)[h]
    requires 0 < max == |m| && |grown| == max + 1 && Capped(grown, m', max)
    requires oldest in m && forall x :: x in m.Keys ==> LastRecorded(ops)[oldest] <= LastRecorded(ops)[x]
    ensures m'.Keys == m.Keys - {oldest} + {op.hash}
    ensures forall h :: h in m' ==> m'[h] == grown[h]
  {
    hide LastRecorded, StrictlyIncreasing;
    MapSize(m');
    MapSize(grown);
    var last := LastRecorded(ops);
    assert grown.Keys == m.Keys + {op.hash};
    assert last[oldest] < op.now by { RecordedLater(ops, op, oldest); }
    if oldest in m' {
      assert exists gone :: gone in grown && gone !in m' by {
        if grown.Keys <= m'.Keys { SubsetSize(grown.Keys, m'.Keys); }
      }
      var gone :| gone in grown && gone !in m';
      assert grown[gone].lastSeen <= grown[oldest].lastSeen == last[oldest];
      Snoc(ops, op);
      TimesDiffer(ops, gone, oldest);
    }
    assert m'.Keys <= m.Keys - {oldest} + {op.hash};
    SubsetSize(m'.Keys, m.Keys - {oldest} + {op.hash});
  }

  lemma RecordedLater(ops: seq<Op>, op: Op, h: string)
    requires op.Record? && StrictlyIncreasing(ops + [op]) && h in LastRecorded(ops)
    ensures LastRecorded(ops)[h] < op.now
  {
    var more := ops + [op];
    assert more[..|more| - 1] == ops;
  }

  lemma StepPurge(ops: seq<Op>, op: Op, m: Events, m': Events, max: int)
    requires op.Purge? && Matches(ops, m, max) && Step(m, op, m', max)
    ensures Matches(ops + [op], m', max)
  {
    var more := ops + [op];
    assert more[..|more| - 1] == ops;
  }

  lemma StepEnforce(ops: seq<Op>, op: Op, m: Events, m': Events, max: int)
    requires op.Enforce? && StrictlyIncreasing(ops) && Matches(ops, m, max) && Step(m, op, m', max)
    ensures Matches(ops + [op], m', max)
  {
    hide StrictlyIncreasing, LastRecorded, Expired;
    Snoc(ops, op);
    MapSize(m);
    if max > 0 { SurvivorsBounded(ops, max); }
  }

  // ---- runs ----

  /** With a strictly increasing clock, whatever the store holds after any run is determined by the history. */
  lemma {:induction false} StoreIsHistory(ops: seq<Op>, states: seq<Events>, max: int)
    requires Run(ops, states, max) && StrictlyIncreasing(ops)
    ensures Matches(ops, states[|ops|], max)
    decreases |ops|
  {
    hide Step, Matches;
    if ops == [] {
      NothingYet(max);
    } else {
      var n := |ops| - 1;
      var before, op := ops[..n], ops[n];
      assert ops == before + [op];
      assert Step(states[n], op, states[n + 1], max);
      Snoc(before, op);
      StoreIsHistory(before, states[..n + 1], max);
      StepAny(before, op, states[n], states[n + 1], max);
    }
  }

  lemma NothingYet(max: int)
    ensures Matches([], map[], max)
  {
  }

  lemma StepAny(ops: seq<Op>, op: Op, m: Events, m': Events, max: int)
    requires StrictlyIncreasing(ops + [op]) && Matches(ops, m, max) && Step(m, op, m', max)
    ensures Matches(ops + [op], m', max)
  {
    hide Step, Matches, StrictlyIncreasing;
    Snoc(ops, op);
    match op
    case Record(h, _, _, _) =>
      if h in m { StepRecordKnown(ops, op, m, m', max); } else { StepRecordNew(ops, op, m, m', max); }
    case Purge(_) => StepPurge(ops, op, m, m', max);
    case Enforce => StepEnforce(ops, op, m, m', max);
  }

  /** On the same operations, a smaller cap holds a subset of what a larger one, or none, holds. */
  lemma SmallerCapHoldsSubset(ops: seq<Op>, small: seq<Events>, large: seq<Events>, a: int, b: int)
    requires Run(ops, small, a) && Run(ops, large, b) && StrictlyIncreasing(ops)
    requires 0 < a && (a <= b || b <= 0)
    ensures small[|ops|].Keys <= large[|ops|].Keys
  {
    hide Run;
    StoreIsHistory(ops, small, a);
    StoreIsHistory(ops, large, b);
  }

  // ---- counts ----

  /** How often h was recorded since the store last did not hold it. */
  function Streak(ops: seq<Op>, h: string, max: int): nat {
    if ops == [] then 0
    else
      var before, op := ops[..|ops| - 1], ops[|ops| - 1];
      if op.Record? && op.hash == h then (if h in Survivors(before, max) then Streak(before, h, max) + 1 else 1)
      else Streak(before, h, max)
  }

  /** An event's count is the number of reports it stands for. */
  lemma {:induction false} CountIsStreak(ops: seq<Op>, states: seq<Events>, max: int, h: string)
    requires Run(ops, states, max) && StrictlyIncreasing(ops) && h in states[|ops|]
    ensures states[|ops|][h].count == Streak(ops, h, max)
    decreases |ops|
  {
    if ops != [] {
      var n := |ops| - 1;
      var before, op := ops[..n], ops[n];
      assert ops == before + [op];
      assert Step(states[n], op, states[n + 1], max);
      StoreIsHistory(before, states[..n + 1], max);
      CountStep(states[n], op, states[n + 1], max, h);
      if h in states[n] { CountIsStreak(before, states[..n + 1], max, h); }
    }
  }

  lemma CountStep(m: Events, op: Op, m': Events, max: int, h: string)
    requires Step(m, op, m', max) && h in m'
    ensures op.Record? && op.hash == h ==> m'[h].count == (if h in m then m[h].count + 1 else 1)
    ensures !(op.Record? && op.hash == h) ==> h in m && m'[h].count == m[h].count
  {
  }

  function Occurrences(ops: seq<Op>, h: string): nat {
    if ops == [] then 0
    else Occurrences(ops[..|ops| - 1], h) + (if ops[|ops| - 1].Record? && ops[|ops| - 1].hash == h then 1 else 0)
  }

  /** With no cap and no purge, one bug reported N times is one event with count N, whatever the clock shows. */
  lemma {:induction false} CountsEverything(ops: seq<Op>, states: seq<Events>, max: int, h: string)
    requires Run(ops, states, max) && max <= 0 && forall i :: 0 <= i < |ops| ==> !ops[i].Purge?
    ensures h in states[|ops|] <==> Occurrences(ops, h) > 0
    ensures h in states[|ops|] ==> states[|ops|][h].count == Occurrences(ops, h)
    decreases |ops|
  {
    hide Step;
    if ops != [] {
      var n := |ops| - 1;
      CountsEverything(ops[..n], states[..n + 1], max, h);
      assert Step(states[n], ops[n], states[n + 1], max);
      NothingDropped(states[n], ops[n], states[n + 1], max, h);
      if h in states[n + 1] { CountStep(states[n], ops[n], states[n + 1], max, h); }
    }
  }

  lemma NothingDropped(m: Events, op: Op, m': Events, max: int, h: string)
    requires Step(m, op, m', max) && max <= 0 && !op.Purge?
    ensures h in m' <==> h in m || (op.Record? && op.hash == h)
  {
  }

  // ---- what an event says ----

  predicate Reports(op: Op, h: string) { op.Record? && op.hash == h }

  /** The report with which the store came to hold h, and has held it since. */
  ghost predicate Begins(ops: seq<Op>, states: seq<Events>, h: string, begin: nat)
    requires |states| == |ops| + 1
  {
    && begin < |ops| && Reports(ops[begin], h) && h !in states[begin]
    && forall k :: begin < k <= |ops| ==> h in states[k]
  }

  ghost predicate LastReport(ops: seq<Op>, h: string, last: nat) {
    last < |ops| && Reports(ops[last], h) && forall k :: last < k < |ops| ==> !Reports(ops[k], h)
  }

  /** What a report may leave out and then does not change. */
  datatype Field = Level | UserAgent

  function Text(input: Input, field: Field): string {
    match field
    case Level => input.level
    case UserAgent => input.userAgent
  }

  /** The last value the reports of h from begin on give for the field; none if all leave it out. */
  function LastText(ops: seq<Op>, h: string, begin: nat, field: Field): string {
    if |ops| <= begin then ""
    else
      var op := ops[|ops| - 1];
      if Reports(op, h) && Text(op.input, field) != "" then Text(op.input, field)
      else LastText(ops[..|ops| - 1], h, begin, field)
  }

  /** An event's fields, from the reports it stands for. */
  ghost predicate Tells(ops: seq<Op>, h: string, begin: nat, last: nat, e: Event)
    requires begin < |ops| && Reports(ops[begin], h) && last < |ops| && Reports(ops[last], h)
  {
    && e.hash == h && e.firstSeen == ops[begin].first
    && e.message == ops[begin].input.message && e.url == ops[begin].input.url && e.stack == ops[begin].input.stack
    && e.lastSeen == ops[last].now
    && e.lastEventId == ops[last].input.eventId && e.lastTimestamp == ops[last].input.timestamp
    && e.level == LastText(ops, h, begin, Level) && e.userAgent == LastText(ops, h, begin, UserAgent)
  }

  /**
   * Whatever the clock shows and the cap evicts, a stored event says when its first report since the store last did not
   * hold it came and what that one said, and of the last report when and which it was; level and user agent are the
   * last ones given.
   */
  lemma {:induction false} EventTells(ops: seq<Op>, states: seq<Events>, max: int, h: string)
    returns (begin: nat, last: nat)
    requires Run(ops, states, max) && h in states[|ops|]
    ensures Begins(ops, states, h, begin) && LastReport(ops, h, last) && begin <= last
    ensures Tells(ops, h, begin, last, states[|ops|][h])
    decreases |ops|
  {
    hide Step, Tells;
    var n := |ops| - 1;
    var op, m, m' := ops[n], states[n], states[n + 1];
    assert Step(m, op, m', max);
    if Reports(op, h) && h !in m {
      FirstTells(ops, m, m', max, h);
      return n, n;
    }
    StepHolds(m, op, m', max, h);
    begin, last := EventTells(ops[..n], states[..n + 1], max, h);
    if Reports(op, h) {
      MergedTells(ops, m, m', max, h, begin, last);
      last := n;
    } else {
      OthersTell(ops, m, m', max, h, begin, last);
    }
  }

  lemma StepHolds(m: Events, op: Op, m': Events, max: int, h: string)
    requires Step(m, op, m', max) && h in m' && !(Reports(op, h) && h !in m)
    ensures h in m
  {
  }

  lemma FirstTells(ops: seq<Op>, m: Events, m': Events, max: int, h: string)
    requires ops != [] && Reports(ops[|ops| - 1], h) && Step(m, ops[|ops| - 1], m', max) && h !in m && h in m'
    ensures Tells(ops, h, |ops| - 1, |ops| - 1, m'[h])
  {
    var n := |ops| - 1;
    assert LastText(ops[..n], h, n, Level) == "" && LastText(ops[..n], h, n, UserAgent) == "";
  }

  lemma MergedTells(ops: seq<Op>, m: Events, m': Events, max: int, h: string, begin: nat, last: nat)
    requires ops != [] && Reports(ops[|ops| - 1], h) && Step(m, ops[|ops| - 1], m', max) && h in m && h in m'
    requires begin < |ops| - 1 && last < |ops| - 1 && Reports(ops[begin], h) && Reports(ops[last], h)
    requires Tells(ops[..|ops| - 1], h, begin, last, m[h])
    ensures Tells(ops, h, begin, |ops| - 1, m'[h])
  {
  }

  lemma OthersTell(ops: seq<Op>, m: Events, m': Events, max: int, h: string, begin: nat, last: nat)
    requires ops != [] && !Reports(ops[|ops| - 1], h) && Step(m, ops[|ops| - 1], m', max) && h in m && h in m'
    requires begin < |ops| - 1 && last < |ops| - 1 && Reports(ops[begin], h) && Reports(ops[last], h)
    requires Tells(ops[..|ops| - 1], h, begin, last, m[h])
    ensures Tells(ops, h, begin, last, m'[h])
  {
  }

  // ---- expiry in closed form ----

  function LargestCutoff(ops: seq<Op>): Option<Time> {
    if ops == [] then None
    else
      var before, op := LargestCutoff(ops[..|ops| - 1]), ops[|ops| - 1];
      if op.Purge? && (before.None? || op.cutoff > before.value) then Some(op.cutoff) else before
  }

  /** No record comes before a cutoff already used, as when every cutoff lies in the past. */
  predicate CutoffsPast(ops: seq<Op>) {
    ops == [] ||
    (var before, op := ops[..|ops| - 1], ops[|ops| - 1];
     && CutoffsPast(before)
     && (op.Record? && LargestCutoff(before).Some? ==> LargestCutoff(before).value <= op.now))
  }

  /** Whether h was last recorded before the largest cutoff so far. */
  predicate BeforeCutoff(ops: seq<Op>, h: string) {
    && h in LastRecorded(ops) && LargestCutoff(ops).Some?
    && LastRecorded(ops)[h] < LargestCutoff(ops).value
  }

  /** With cutoffs in the past, expired means last recorded before the largest cutoff so far. */
  lemma {:induction false} ExpiredExactly(ops: seq<Op>, h: string)
    requires CutoffsPast(ops)
    ensures h in Expired(ops) <==> BeforeCutoff(ops, h)
  {
    if ops != [] { ExpiredExactly(ops[..|ops| - 1], h); }
  }

  ghost predicate ExpiredByCutoff(ops: seq<Op>) {
    forall h :: h in Expired(ops) <==> BeforeCutoff(ops, h)
  }

  /** It means that throughout a history exactly when no record of it comes before a cutoff already used. */
  lemma {:induction false} CutoffsPastExactly(ops: seq<Op>)
    ensures CutoffsPast(ops) <==> forall n :: 0 <= n <= |ops| ==> ExpiredByCutoff(ops[..n])
  {
    hide Expired, BeforeCutoff;
    if CutoffsPast(ops) {
      forall n | 0 <= n <= |ops| ensures ExpiredByCutoff(ops[..n]) {
        PrefixPast(ops, n);
        forall h ensures h in Expired(ops[..n]) <==> BeforeCutoff(ops[..n], h) { ExpiredExactly(ops[..n], h); }
      }
    } else {
      var n := |ops| - 1;
      CutoffsPastExactly(ops[..n]);
      if CutoffsPast(ops[..n]) {
        RecordedBehind(ops);
        assert ops[..|ops|] == ops;
      } else {
        var k :| 0 <= k <= n && !ExpiredByCutoff(ops[..n][..k]);
        assert ops[..n][..k] == ops[..k];
      }
    }
  }

  lemma {:induction false} PrefixPast(ops: seq<Op>, n: nat)
    requires CutoffsPast(ops) && n <= |ops|
    ensures CutoffsPast(ops[..n])
  {
    if n == |ops| {
      assert ops[..n] == ops;
    } else {
      PrefixPast(ops[..|ops| - 1], n);
      assert ops[..|ops| - 1][..n] == ops[..n];
    }
  }

  /** A record behind a cutoff already used is not expired, though last recorded before it. */
  lemma RecordedBehind(ops: seq<Op>)
    requires !CutoffsPast(ops) && CutoffsPast(ops[..|ops| - 1])
    ensures !ExpiredByCutoff(ops)
  {
    var h := ops[|ops| - 1].hash;
    assert h !in Expired(ops) && BeforeCutoff(ops, h);
  }

  /** A purge with a cutoff of ten and then a record at five: the event stays. */
  lemma CutoffAhead(input: Input)
    ensures var ops := [Purge(10), Record("a", input, 5, 5)];
            && StrictlyIncreasing(ops) && BeforeCutoff(ops, "a")
            && Run(ops, [map[], map[], Recorded(map[], "a", input, 5, 5)], 0)
            && "a" in Recorded(map[], "a", input, 5, 5)
  {
    var purge, op := Purge(10), Record("a", input, 5, 5);
    assert [purge, op][..1] == [purge] && [purge][..0] == [];
    assert LastRecorded([purge]) == map[] && LargestCutoff([purge]) == Some(10) && StrictlyIncreasing([purge]);
    assert Step(map[], purge, map[], 0);
  }

  /**
   * With strictly increasing times and cutoffs in the past the store holds exactly the fingerprints last recorded no
   * earlier than the largest cutoff, and of all recorded ones no more than the max most recent.
   */
  lemma KeptInClosedForm(ops: seq<Op>, states: seq<Events>, max: int)
    requires Run(ops, states, max) && StrictlyIncreasing(ops) && CutoffsPast(ops)
    ensures states[|ops|].Keys == set h | && h in LastRecorded(ops)
                                          && (LargestCutoff(ops).Some? ==> LastRecorded(ops)[h] >= LargestCutoff(ops).value)
                                          && (max <= 0 || |Newer(LastRecorded(ops), h)| < max)
  {
    hide Run, StrictlyIncreasing, CutoffsPast, LastRecorded, Expired, Newer;
    StoreIsHistory(ops, states, max);
    forall h | h in LastRecorded(ops)
      ensures h in Expired(ops) <==> LargestCutoff(ops).Some? && LastRecorded(ops)[h] < LargestCutoff(ops).value
    {
      ExpiredExactly(ops, h);
    }
  }

  // ---- reading the newest ----

  lemma HashesSize(s: seq<Event>)
    ensures |Hashes(s)| <= |s|
  {
    if s != [] {
      var n := |s| - 1;
      HashesSize(s[..n]);
      HashesSnoc(s, n);
      assert s[..n + 1] == s;
    }
  }

  lemma DistinctHashes(s: seq<Event>)
    requires forall i, j :: 0 <= i < j < |s| ==> s[i].hash != s[j].hash
    ensures |Hashes(s)| == |s|
  {
    if s != [] {
      var n := |s| - 1;
      DistinctHashes(s[..n]);
      HashesSnoc(s, n);
      HashNew(s, n);
      assert s[..n + 1] == s;
    }
  }

  /** The newest limit events of a store are what a store with that cap would hold. */
  lemma TopIsSmallerStore(ops: seq<Op>, m: Events, max: int, limit: int, out: seq<Event>)
    requires StrictlyIncreasing(ops) && Matches(ops, m, max)
    requires Top(m, None, limit, out) && 0 < limit && (max <= 0 || limit <= max)
    ensures Hashes(out) == Survivors(ops, limit)
  {
    forall h | h in Survivors(ops, limit) ensures h in Hashes(out) {
      TopHolds(ops, m, max, limit, out, h);
    }
    forall i | 0 <= i < |out| ensures out[i].hash in Survivors(ops, limit) {
      TopOnly(ops, m, max, limit, out, i);
    }
  }

  lemma TopHolds(ops: seq<Op>, m: Events, max: int, limit: int, out: seq<Event>, h: string)
    requires StrictlyIncreasing(ops) && Matches(ops, m, max)
    requires Top(m, None, limit, out) && 0 < limit && (max <= 0 || limit <= max)
    requires h in Survivors(ops, limit)
    ensures h in Hashes(out)
  {
    hide StrictlyIncreasing, LastRecorded, Expired;
    var last := LastRecorded(ops);
    if m[h] in out {
      var i :| 0 <= i < |out| && out[i] == m[h];
    } else {
      forall x | x in Hashes(out) ensures x in Newer(last, h) {
        var i :| 0 <= i < |out| && out[i].hash == x;
        assert m[h].lastSeen <= out[i].lastSeen;
        if x != h { TimesDiffer(ops, h, x); }
      }
      DistinctHashes(out);
      SubsetSize(Hashes(out), Newer(last, h));
    }
  }

  lemma NewerComesFirst(out: seq<Event>, i: nat, k: nat)
    requires Ordered(out, true) && i < |out| && k < |out| && out[k].lastSeen > out[i].lastSeen
    ensures k < i
  {
  }

  lemma TopOnly(ops: seq<Op>, m: Events, max: int, limit: int, out: seq<Event>, i: nat)
    requires StrictlyIncreasing(ops) && Matches(ops, m, max)
    requires Top(m, None, limit, out) && 0 < limit && (max <= 0 || limit <= max) && i < |out|
    ensures out[i].hash in Survivors(ops, limit)
  {
    hide StrictlyIncreasing, LastRecorded, Expired;
    var last, h := LastRecorded(ops), out[i].hash;
    NewerSurvive(ops, max, h);
    forall x | x in Newer(last, h) ensures x in Hashes(out[..i]) {
      assert m[x] in out;
      var k :| 0 <= k < |out| && out[k] == m[x];
      NewerComesFirst(out, i, k);
      assert out[..i][k].hash == x;
    }
    HashesSize(out[..i]);
    SubsetSize(Newer(last, h), Hashes(out[..i]));
  }
}
