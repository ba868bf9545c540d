/** What the limiter promises over whole runs in which requests of many clients and routes interleave. */
module LimiterRuns {
  import opened RateLimit
  import opened RateLimitRuns
  import opened Sets

  function LimitsAfter(s: Limits, run: seq<Request>, n: nat): (t: Limits)
    requires n <= |run|
    ensures t.capacity == s.capacity && t.rate == s.rate
    ensures s.Valid() ==> t.Valid()
    decreases n
  {
    if n == 0 then s else LimitsAfter(s, run, n - 1).Step(run[n - 1])
  }

  lemma {:induction false} LimitsAfterTail(s: Limits, run: seq<Request>, n: nat)
    requires 0 < n <= |run|
    ensures LimitsAfter(s, run, n) == LimitsAfter(s.Step(run[0]), run[1..], n - 1)
    decreases n
  {
    hide Admits, After;
    if n > 1 {
      LimitsAfterTail(s, run, n - 1);
    } else {
      assert LimitsAfter(s, run, 0) == s;
    }
  }

  lemma {:induction false} DecisionAt(s: Limits, run: seq<Request>, n: nat)
    requires n < |run|
    ensures Decisions(s, run)[n] == LimitsAfter(s, run, n).Ok(run[n])
    decreases n
  {
    hide Admits, After;
    if n > 0 {
      DecisionAt(s.Step(run[0]), run[1..], n - 1);
      LimitsAfterTail(s, run, n);
    } else {
      assert LimitsAfter(s, run, 0) == s;
    }
  }

  /** A request leaves its bucket as one take on the bucket it finds or creates. */
  lemma TakenAt(s: Limits, run: seq<Request>, i: nat)
    requires s.Valid() && i < |run|
    ensures var b, after := LimitsAfter(s, run, i).Find(run[i]), LimitsAfter(s, run, i + 1);
            && b.rate == s.rate && b.capacity == s.capacity
            && run[i].key in after.buckets && after.buckets[run[i].key] == After(b, run[i].now)
  {
    hide Admits, After;
  }

  // ---- how much a key is admitted ----

  /** The requests on a key from place i on and before place j that are admitted. */
  function AdmittedOn(s: Limits, run: seq<Request>, key: Key, i: nat, j: nat): set<nat>
    requires j <= |run|
  {
    set k: nat | i <= k < j && run[k].key == key && Decisions(s, run)[k]
  }

  lemma AdmittedOnLast(s: Limits, run: seq<Request>, key: Key, i: nat, n: nat)
    requires i <= n < |run|
    ensures |AdmittedOn(s, run, key, i, n + 1)|
         == |AdmittedOn(s, run, key, i, n)|
            + (if run[n].key == key && LimitsAfter(s, run, n).Ok(run[n]) then 1 else 0)
    ensures AdmittedOn(s, run, key, n, n) == {}
  {
    hide Limits.Ok, Limits.Step, LimitsAfter, Decisions;
    DecisionAt(s, run, n);
    var before := AdmittedOn(s, run, key, i, n);
    assert AdmittedOn(s, run, key, i, n + 1)
        == if run[n].key == key && Decisions(s, run)[n] then before + {n} else before;
  }

  /** A key's first request before place n, when that one creates the bucket. */
  predicate Creates(s: Limits, run: seq<Request>, key: Key, i: nat) {
    i < |run| && key !in s.buckets && run[i].key == key && forall k :: 0 <= k < i ==> run[k].key != key
  }

  /** What was held at one time, with what flowed in since, covers what is asked at another. */
  predicate Covers(held: real, since: real, now: real, rate: real, asked: real) {
    held + Flow(now - since, rate) >= asked
  }

  /** At least this much is left of what a key started with, and of what each window since leaves, at time t. */
  ghost predicate Leaves(s: Limits, run: seq<Request>, key: Key, n: nat, t: real, least: real)
    requires n <= |run|
  {
    && (key in s.buckets ==>
          var b := s.buckets[key];
          Covers(b.tokens, b.last, t, s.rate, least + |AdmittedOn(s, run, key, 0, n)| as real))
    && (forall i :: 0 <= i < n && Creates(s, run, key, i) ==>
          Covers(s.capacity, run[i].created, t, s.rate, least + |AdmittedOn(s, run, key, i, n)| as real))
    && (forall i :: 0 <= i < n && run[i].key == key ==>
          Covers(s.capacity, run[i].now, t, s.rate, least + |AdmittedOn(s, run, key, i, n)| as real))
  }

  lemma {:induction false} KeyKnown(s: Limits, run: seq<Request>, key: Key, n: nat)
    requires n <= |run|
    ensures key in LimitsAfter(s, run, n).buckets
       <==> key in s.buckets || exists i :: 0 <= i < n && run[i].key == key
    decreases n
  {
    hide Admits, After;
    if n > 0 { KeyKnown(s, run, key, n - 1); }
  }

  lemma LeavesSame(s: Limits, run: seq<Request>, key: Key, n: nat, t: real, least: real)
    requires n < |run| && run[n].key != key
    ensures Leaves(s, run, key, n + 1, t, least) <==> Leaves(s, run, key, n, t, least)
  {
    hide Flow, AdmittedOn, LimitsAfter;
    forall i | 0 <= i <= n ensures |AdmittedOn(s, run, key, i, n + 1)| == |AdmittedOn(s, run, key, i, n)| {
      AdmittedOnLast(s, run, key, i, n);
    }
  }

  /** What must have been left before a request on the key, so that this much is left after it. */
  function Before(s: Limits, run: seq<Request>, n: nat, t: real, least: real): real
    requires n < |run|
  {
    least + (if LimitsAfter(s, run, n).Ok(run[n]) then 1.0 else 0.0) - Flow(t - run[n].now, s.rate)
  }

  /** One window, across a request on the key. */
  lemma WindowLast(s: Limits, run: seq<Request>, key: Key, n: nat, t: real, least: real, i: nat, held: real, from: real)
    requires i <= n < |run| && run[n].key == key
    ensures Covers(held, from, t, s.rate, least + |AdmittedOn(s, run, key, i, n + 1)| as real)
       <==> Covers(held, from, run[n].now, s.rate, Before(s, run, n, t, least) + |AdmittedOn(s, run, key, i, n)| as real)
  {
    hide Flow, AdmittedOn, LimitsAfter, Limits.Ok;
    AdmittedOnLast(s, run, key, i, n);
    FlowAdds(run[n].now - from, t - run[n].now, s.rate);
  }

  lemma LeavesStart(s: Limits, run: seq<Request>, key: Key, t: real, least: real)
    ensures Leaves(s, run, key, 0, t, least)
       <==> (key in s.buckets ==> s.buckets[key].tokens + Flow(t - s.buckets[key].last, s.rate) >= least)
  {
    hide Flow;
    assert AdmittedOn(s, run, key, 0, 0) == {};
  }

  lemma LeavesNext(s: Limits, run: seq<Request>, key: Key, n: nat, t: real, least: real)
    requires n < |run| && run[n].key == key
    ensures Leaves(s, run, key, n + 1, t, least)
       <==> && Leaves(s, run, key, n, run[n].now, Before(s, run, n, t, least))
            && s.capacity >= Before(s, run, n, t, least)
            && (Creates(s, run, key, n) ==>
                  s.capacity + Flow(run[n].now - run[n].created, s.rate) >= Before(s, run, n, t, least))
  {
    hide Flow, AdmittedOn, LimitsAfter, Creates, Before;
    var before := Before(s, run, n, t, least);
    if key in s.buckets {
      WindowLast(s, run, key, n, t, least, 0, s.buckets[key].tokens, s.buckets[key].last);
    }
    forall i | 0 <= i <= n
      ensures Covers(s.capacity, run[i].created, t, s.rate, least + |AdmittedOn(s, run, key, i, n + 1)| as real)
         <==> Covers(s.capacity, run[i].created, run[n].now, s.rate, before + |AdmittedOn(s, run, key, i, n)| as real)
    {
      WindowLast(s, run, key, n, t, least, i, s.capacity, run[i].created);
    }
    forall i | 0 <= i <= n
      ensures Covers(s.capacity, run[i].now, t, s.rate, least + |AdmittedOn(s, run, key, i, n + 1)| as real)
         <==> Covers(s.capacity, run[i].now, run[n].now, s.rate, before + |AdmittedOn(s, run, key, i, n)| as real)
    {
      WindowLast(s, run, key, n, t, least, i, s.capacity, run[i].now);
    }
    AdmittedOnLast(s, run, key, n, n);
    FlowAdds(0.0, 0.0, s.rate);
  }

  /** The tokens a key's bucket will hold are what its start and every window since leave, whichever is least. */
  lemma {:induction false} KeyTokens(s: Limits, run: seq<Request>, key: Key, n: nat, t: real, least: real)
    requires s.Valid() && n <= |run| && key in LimitsAfter(s, run, n).buckets
    ensures var b := LimitsAfter(s, run, n).buckets[key];
            b.tokens + Flow(t - b.last, s.rate) >= least <==> Leaves(s, run, key, n, t, least)
    decreases n
  {
    hide Flow, Admits, After, Leaves;
    if n == 0 {
      LeavesStart(s, run, key, t, least);
    } else {
      var r, earlier := run[n - 1], LimitsAfter(s, run, n - 1);
      if r.key != key {
        LeavesSame(s, run, key, n - 1, t, least);
        KeyTokens(s, run, key, n - 1, t, least);
      } else {
        var before := Before(s, run, n - 1, t, least);
        LeavesNext(s, run, key, n - 1, t, least);
        TakeMoves(earlier.Find(r), r.now, t, least);
        AfterLast(earlier.Find(r), r.now);
        KeyKnown(s, run, key, n - 1);
        if key in earlier.buckets {
          KeyTokens(s, run, key, n - 1, r.now, before);
        } else {
          LeavesAll(s, run, key, n - 1, r.now, before);
        }
      }
    }
  }

  /** Nothing is asked of a key without a bucket and without requests. */
  lemma LeavesAll(s: Limits, run: seq<Request>, key: Key, n: nat, t: real, least: real)
    requires n <= |run| && key !in s.buckets && forall i :: 0 <= i < n ==> run[i].key != key
    ensures Leaves(s, run, key, n, t, least)
  {
  }

  lemma CoversNow(s: Limits, r: Request)
    ensures Covers(s.capacity, r.now, r.now, s.rate, 1.0) <==> s.capacity >= 1.0
    ensures Covers(s.capacity, r.created, r.now, s.rate, 1.0)
       <==> s.capacity + Flow(r.now - r.created, s.rate) >= 1.0
  {
  }

  lemma DecisionLeaves(s: Limits, run: seq<Request>, j: nat)
    requires s.Valid() && j < |run|
    ensures Decisions(s, run)[j]
       <==> && Leaves(s, run, run[j].key, j, run[j].now, 1.0) && s.capacity >= 1.0
            && (Creates(s, run, run[j].key, j) ==> s.capacity + Flow(run[j].now - run[j].created, s.rate) >= 1.0)
  {
    hide Flow, LimitsAfter, Decisions, Leaves;
    var r := run[j];
    DecisionAt(s, run, j);
    KeyKnown(s, run, r.key, j);
    if r.key in LimitsAfter(s, run, j).buckets {
      KeyTokens(s, run, r.key, j, r.now, 1.0);
    } else {
      LeavesAll(s, run, r.key, j, r.now, 1.0);
    }
  }

  /**
   * The limiter grants every key all that its capacity and rate leave room for, and no more, in any run with any others
   * interleaved and for any clocks. A request is admitted if and only if, counting it, what its key was admitted
   * since the start is at most what its bucket held and what flowed in since; since the request that created the bucket,
   * the capacity and what flowed in since its creation; and since any request on the key, the capacity and what flowed in
   * since that request.
   */
  lemma LimiterExact(s: Limits, run: seq<Request>, j: nat)
    requires s.Valid() && j < |run|
    ensures var key, now := run[j].key, run[j].now;
            Decisions(s, run)[j]
            <==> && (key in s.buckets ==>
                       Covers(s.buckets[key].tokens, s.buckets[key].last, now, s.rate,
                              1.0 + |AdmittedOn(s, run, key, 0, j)| as real))
                 && (forall i :: 0 <= i <= j && Creates(s, run, key, i) ==>
                       Covers(s.capacity, run[i].created, now, s.rate, 1.0 + |AdmittedOn(s, run, key, i, j)| as real))
                 && (forall i :: 0 <= i <= j && run[i].key == key ==>
                       Covers(s.capacity, run[i].now, now, s.rate, 1.0 + |AdmittedOn(s, run, key, i, j)| as real))
  {
    hide AdmittedOn, Decisions, Creates, Covers;
    DecisionLeaves(s, run, j);
    AdmittedOnLast(s, run, run[j].key, j, j);
    CoversNow(s, run[j]);
  }

  /** So from one request on a key to an admitted one, both counted, it is admitted no more than that. */
  lemma LimiterBound(s: Limits, run: seq<Request>, i: nat, j: nat)
    requires s.Valid() && i <= j < |run| && run[i].key == run[j].key && Decisions(s, run)[j]
    ensures |AdmittedOn(s, run, run[j].key, i, j + 1)| as real
         <= s.capacity + Flow(run[j].now - run[i].now, s.rate)
  {
    hide Flow, LimitsAfter, Limits.Ok, Decisions, Creates, AdmittedOn;
    LimiterExact(s, run, j);
    assert Covers(s.capacity, run[i].now, run[j].now, s.rate, 1.0 + |AdmittedOn(s, run, run[j].key, i, j)| as real);
    DecisionAt(s, run, j);
    AdmittedOnLast(s, run, run[j].key, i, j);
  }

  // ---- waiting as told ----

  /**
   * The clocks of a key's requests are read one after the other: a request's own, then the one a bucket it creates
   * starts with, then the next request's. A request that finds its bucket reads no second clock; its own stands for it.
   */
  ghost predicate ClocksInOrder(clock: real, run: seq<Request>, key: Key) {
    && (forall i :: 0 <= i < |run| && run[i].key == key ==> clock <= run[i].now <= run[i].created)
    && (forall i, j :: 0 <= i < j < |run| && run[i].key == key && run[j].key == key ==> run[i].created <= run[j].now)
  }

  function RequestsOn(run: seq<Request>, key: Key, n: nat): set<nat>
    requires n <= |run|
  {
    set k: nat | k < n && run[k].key == key
  }

  lemma AdmittedAreRequests(s: Limits, run: seq<Request>, key: Key, i: nat, n: nat)
    requires n <= |run|
    ensures |AdmittedOn(s, run, key, i, n)| <= |RequestsOn(run, key, n)|
  {
    hide Decisions;
    var admitted, all := AdmittedOn(s, run, key, i, n), RequestsOn(run, key, n);
    SubsetSize(admitted, all);
  }

  /**
   * With clocks in order, a new key is granted its whole capacity at once: its first requests up to that number are all
   * admitted, but for the first of all if its clock was read so long before the bucket's that less than a token was left.
   */
  lemma BurstGranted(s: Limits, clock: real, run: seq<Request>, j: nat)
    requires s.Valid() && s.rate >= 0.0 && j < |run| && run[j].key !in s.buckets
    requires ClocksInOrder(clock, run, run[j].key)
    requires |RequestsOn(run, run[j].key, j)| as real + 1.0 <= s.capacity
    ensures Decisions(s, run)[j]
       <==> (Creates(s, run, run[j].key, j) ==> s.capacity + Flow(run[j].now - run[j].created, s.rate) >= 1.0)
  {
    hide Flow, Decisions, AdmittedOn, Leaves, RequestsOn;
    var key := run[j].key;
    DecisionLeaves(s, run, j);
    forall i | 0 <= i < j && run[i].key == key
      ensures Covers(s.capacity, run[i].now, run[j].now, s.rate, 1.0 + |AdmittedOn(s, run, key, i, j)| as real)
      ensures Covers(s.capacity, run[i].created, run[j].now, s.rate, 1.0 + |AdmittedOn(s, run, key, i, j)| as real)
    {
      FlowForward(run[j].now - run[i].now, s.rate);
      FlowForward(run[j].now - run[i].created, s.rate);
      AdmittedAreRequests(s, run, key, i, j);
    }
    LeavesIfCovered(s, run, key, j, run[j].now, 1.0);
  }

  lemma LeavesIfCovered(s: Limits, run: seq<Request>, key: Key, n: nat, t: real, least: real)
    requires n <= |run| && key !in s.buckets
    requires forall i :: 0 <= i < n && run[i].key == key ==>
               && Covers(s.capacity, run[i].now, t, s.rate, least + |AdmittedOn(s, run, key, i, n)| as real)
               && Covers(s.capacity, run[i].created, t, s.rate, least + |AdmittedOn(s, run, key, i, n)| as real)
    ensures Leaves(s, run, key, n, t, least)
  {
    hide Covers, AdmittedOn;
  }

  /** Then no request on the key finds its bucket in debt. */
  lemma {:induction false} FoundInCredit(s: Limits, clock: real, run: seq<Request>, key: Key, n: nat, later: real)
    requires s.Valid() && s.rate >= 0.0 && s.capacity >= 0.0 && n <= |run|
    requires ClocksInOrder(clock, run, key) && (key in s.buckets ==> InCredit(s.buckets[key], clock))
    requires clock <= later && forall i :: 0 <= i < n && run[i].key == key ==> run[i].created <= later
    requires key in LimitsAfter(s, run, n).buckets
    ensures InCredit(LimitsAfter(s, run, n).buckets[key], later)
    decreases n
  {
    hide Admits, After, InCredit;
    if n == 0 {
      StaysInCredit(s.buckets[key], clock, later);
    } else {
      var before, r := LimitsAfter(s, run, n - 1), run[n - 1];
      if r.key != key {
        FoundInCredit(s, clock, run, key, n - 1, later);
      } else if key in before.buckets {
        FoundInCredit(s, clock, run, key, n - 1, r.now);
        TakeInCredit(before.buckets[key], r.now, later);
      } else {
        CreatingInCredit(s.capacity, s.rate, r.now, r.created);
        SameRate(before.Find(r), r.now);
        StaysInCredit(After(before.Find(r), r.now), r.created, later);
      }
    }
  }

  lemma CreditAt(s: Limits, clock: real, run: seq<Request>, i: nat)
    requires s.Valid() && s.rate >= 0.0 && s.capacity >= 0.0 && i < |run|
    requires ClocksInOrder(clock, run, run[i].key)
    requires run[i].key in s.buckets ==> InCredit(s.buckets[run[i].key], clock)
    requires run[i].key in LimitsAfter(s, run, i).buckets
    ensures InCredit(LimitsAfter(s, run, i).Find(run[i]), run[i].now)
  {
    hide InCredit, LimitsAfter;
    FoundInCredit(s, clock, run, run[i].key, i, run[i].now);
  }

  lemma CreatedAt(s: Limits, run: seq<Request>, i: nat)
    requires i < |run| && run[i].key !in LimitsAfter(s, run, i).buckets
    ensures LimitsAfter(s, run, i).Find(run[i]) == State(s.capacity, s.capacity, s.rate, run[i].created)
  {
  }

  lemma SameRate(b: State, now: real)
    ensures After(b, now).rate == b.rate && After(b, now).capacity == b.capacity
  {
  }

  lemma {:induction false} Untouched(s: Limits, run: seq<Request>, key: Key, i: nat, j: nat)
    requires i <= j <= |run| && forall k :: i <= k < j ==> run[k].key != key
    requires key in LimitsAfter(s, run, i).buckets
    ensures key in LimitsAfter(s, run, j).buckets
    ensures LimitsAfter(s, run, j).buckets[key] == LimitsAfter(s, run, i).buckets[key]
    decreases j
  {
    hide Admits, After;
    if i < j { Untouched(s, run, key, i, j - 1); }
  }

  lemma NextFinds(s: Limits, run: seq<Request>, i: nat, j: nat)
    requires s.Valid() && i < j < |run|
    requires run[i].key == run[j].key && forall k :: i < k < j ==> run[k].key != run[j].key
    ensures LimitsAfter(s, run, j).Find(run[j]) == After(LimitsAfter(s, run, i).Find(run[i]), run[i].now)
  {
    hide Admits, After, LimitsAfter;
    TakenAt(s, run, i);
    Untouched(s, run, run[i].key, i + 1, j);
  }

  /**
   * At one token a second or more and with clocks in order, the next request on the key of a rejected one is admitted if
   * it waits for the seconds announced; if the rejected request created its bucket, it is admitted even if it does not.
   */
  lemma WaitingSuffices(s: Limits, clock: real, run: seq<Request>, i: nat, j: nat)
    requires s.Valid() && s.rate >= 1.0 && s.capacity >= 1.0
    requires i < j < |run| && run[i].key == run[j].key && forall k :: i < k < j ==> run[k].key != run[j].key
    requires ClocksInOrder(clock, run, run[i].key)
    requires run[i].key in s.buckets ==> InCredit(s.buckets[run[i].key], clock)
    requires !Decisions(s, run)[i]
    ensures var retry := RetryAfter(LimitsAfter(s, run, i).Find(run[i]), run[i].now);
            run[j].now >= run[i].now + RetryHeader(retry) as real ==> Decisions(s, run)[j]
    ensures run[i].key !in LimitsAfter(s, run, i).buckets ==> Decisions(s, run)[j]
  {
    hide Flow, Refilled, Admits, After, RetryAfter, RetryHeader, InCredit, Decisions, LimitsAfter;
    hide Limits.Find, Limits.Valid;
    var r, b := run[i], LimitsAfter(s, run, i).Find(run[i]);
    DecisionAt(s, run, i);
    DecisionAt(s, run, j);
    NextFinds(s, run, i, j);
    TakenAt(s, run, i);
    if r.key in LimitsAfter(s, run, i).buckets {
      CreditAt(s, clock, run, i);
      if run[j].now >= r.now + RetryHeader(RetryAfter(b, r.now)) as real {
        WaitedEnough(b, r.now, run[j].now);
      }
    } else {
      CreatedAt(s, run, i);
      CreatingRejected(s.capacity, s.rate, r.now, r.created, run[j].now);
    }
  }

  lemma WaitedEnough(b: State, now: real, later: real)
    requires InCredit(b, now) && b.rate >= 1.0 && b.capacity >= 1.0 && !Admits(b, now)
    requires later >= now + RetryHeader(RetryAfter(b, now)) as real
    ensures Admits(After(b, now), later)
  {
    hide InCredit, Admits, After, RetryAfter;
    HeaderFromCredit(b, now);
    RetryExact(b, now, later);
  }
}
