/** What the limiter promises over whole runs. */
module RateLimitRuns {
  import opened RateLimit

  // ---- how much one bucket admits ----

  function StateAfter(b: State, times: seq<real>, n: nat): State
    requires n <= |times|
    decreases n
  {
    if n == 0 then b else After(StateAfter(b, times, n - 1), times[n - 1])
  }

  lemma FlowAdds(d: real, e: real, rate: real)
    ensures Flow(d, rate) + Flow(e, rate) == Flow(d + e, rate)
    ensures Flow(0.0, rate) == 0.0
  {
  }

  lemma {:induction false} StateAfterTail(b: State, times: seq<real>, n: nat)
    requires 0 < n <= |times|
    ensures StateAfter(b, times, n) == StateAfter(After(b, times[0]), times[1..], n - 1)
    decreases n
  {
    if n > 1 {
      StateAfterTail(b, times, n - 1);
    } else {
      assert StateAfter(b, times, 0) == b;
    }
  }

  lemma {:induction false} SameBucket(b: State, times: seq<real>, n: nat)
    requires n <= |times|
    ensures StateAfter(b, times, n).capacity == b.capacity && StateAfter(b, times, n).rate == b.rate
  {
    if n > 0 { SameBucket(b, times, n - 1); }
  }

  /** The takes from place i on and before place j that are admitted. */
  function Admitted(b: State, times: seq<real>, i: nat, j: nat): set<nat>
    requires j <= |times|
  {
    set k: nat | i <= k < j && Admits(StateAfter(b, times, k), times[k])
  }

  lemma AdmittedLast(b: State, times: seq<real>, i: nat, n: nat)
    requires i <= n < |times|
    ensures |Admitted(b, times, i, n + 1)|
         == |Admitted(b, times, i, n)| + (if Admits(StateAfter(b, times, n), times[n]) then 1 else 0)
    ensures Admitted(b, times, n, n) == {}
  {
    hide Admits, StateAfter;
    var before := Admitted(b, times, i, n);
    assert Admitted(b, times, i, n + 1) == if Admits(StateAfter(b, times, n), times[n]) then before + {n} else before;
  }

  /** How a take moves the tokens there will be at time t, if nothing more is taken or spilled. */
  lemma TakeMoves(b: State, now: real, t: real, least: real)
    ensures var before := least + (if Admits(b, now) then 1.0 else 0.0) - Flow(t - now, b.rate);
            After(b, now).tokens + Flow(t - now, b.rate) >= least
            <==> b.tokens + Flow(now - b.last, b.rate) >= before && b.capacity >= before
  {
    hide Flow;
  }

  /** The tokens there will be are what the start and every window since leave of what flowed in, whichever is least. */
  lemma {:induction false} TokensExact(b: State, times: seq<real>, n: nat, t: real, least: real)
    requires n <= |times|
    ensures StateAfter(b, times, n).tokens + Flow(t - StateAfter(b, times, n).last, b.rate) >= least
       <==> && b.tokens + Flow(t - b.last, b.rate) >= least + |Admitted(b, times, 0, n)| as real
            && forall i :: 0 <= i < n ==>
                 b.capacity + Flow(t - times[i], b.rate) >= least + |Admitted(b, times, i, n)| as real
    decreases n
  {
    hide Flow, Admits, After, Admitted;
    if n == 0 {
      NoneAdmitted(b, times);
    } else {
      var m, s, now := n - 1, StateAfter(b, times, n - 1), times[n - 1];
      var before := least + (if Admits(s, now) then 1.0 else 0.0) - Flow(t - now, b.rate);
      SameBucket(b, times, m);
      TakeMoves(s, now, t, least);
      TokensExact(b, times, m, now, before);
      AdmittedLast(b, times, 0, m);
      FlowAdds(now - b.last, t - now, b.rate);
      AfterLast(s, now);
      forall i | 0 <= i < n
        ensures b.capacity + Flow(t - times[i], b.rate) >= least + |Admitted(b, times, i, n)| as real
           <==> b.capacity + Flow(now - times[i], b.rate) >= before + |Admitted(b, times, i, m)| as real
      {
        AdmittedLast(b, times, i, m);
        FlowAdds(now - times[i], t - now, b.rate);
      }
      AdmittedLast(b, times, m, m);
      FlowAdds(0.0, 0.0, b.rate);
    }
  }

  lemma NoneAdmitted(b: State, times: seq<real>)
    ensures |Admitted(b, times, 0, 0)| == 0 && StateAfter(b, times, 0) == b
  {
  }

  lemma AfterLast(b: State, now: real)
    ensures After(b, now).last == now
  {
  }

  /**
   * A bucket grants all that its capacity and rate leave room for, and no more: whatever the clocks, a take is admitted if
   * and only if, counting it, what was admitted since the start is at most what the start had and what flowed in since,
   * and what was admitted since each take is at most the capacity and what flowed in since that take.
   */
  lemma AdmissionExact(b: State, times: seq<real>, j: nat)
    requires j < |times|
    ensures Admits(StateAfter(b, times, j), times[j])
       <==> && |Admitted(b, times, 0, j)| as real + 1.0 <= b.tokens + Flow(times[j] - b.last, b.rate)
            && forall i :: 0 <= i <= j ==>
                 |Admitted(b, times, i, j)| as real + 1.0 <= b.capacity + Flow(times[j] - times[i], b.rate)
  {
    hide Flow, Admitted, StateAfter;
    SameBucket(b, times, j);
    TokensExact(b, times, j, times[j], 1.0);
    AdmittedLast(b, times, j, j);
    FlowAdds(0.0, 0.0, b.rate);
  }

  /** So between a take and an admitted one, both counted, at most the capacity and what flowed in meanwhile is admitted. */
  lemma AdmissionBound(b: State, times: seq<real>, i: nat, j: nat)
    requires i <= j < |times| && Admits(StateAfter(b, times, j), times[j])
    ensures |Admitted(b, times, i, j + 1)| as real <= b.capacity + Flow(times[j] - times[i], b.rate)
  {
    hide Flow, Admits, StateAfter;
    AdmissionExact(b, times, j);
    AdmittedLast(b, times, i, j);
  }

  /** From a full bucket on, with no clock behind, the first whole capacity of takes is admitted. */
  lemma BurstAdmitted(b: State, times: seq<real>, j: nat)
    requires j < |times| && NonDecreasing(b.last, times) && b.rate >= 0.0
    requires b.tokens >= b.capacity >= j as real + 1.0
    ensures Admits(StateAfter(b, times, j), times[j])
  {
    hide Flow, Admits, StateAfter;
    AdmissionExact(b, times, j);
    FlowForward(times[j] - b.last, b.rate);
    forall i | 0 <= i <= j
      ensures |Admitted(b, times, i, j)| as real + 1.0 <= b.capacity + Flow(times[j] - times[i], b.rate)
    {
      FlowForward(times[j] - times[i], b.rate);
      AtMostAll(Admitted(b, times, i, j), j);
    }
    AtMostAll(Admitted(b, times, 0, j), j);
  }

  lemma {:induction false} AtMostAll(s: set<nat>, n: nat)
    requires forall k :: k in s ==> k < n
    ensures |s| <= n
  {
    if n == 0 {
      assert s == {};
    } else {
      AtMostAll(s - {n - 1}, n - 1);
    }
  }

  function Times(run: seq<Request>): seq<real> {
    seq(|run|, i requires 0 <= i < |run| => run[i].now)
  }

  /** The limiter's decisions on one key are those of a run of takes on the bucket its first request finds or creates. */
  lemma {:induction false} OneBucket(s: Limits, run: seq<Request>, key: Key, i: nat)
    requires i < |run| && forall j :: 0 <= j < |run| ==> run[j].key == key
    ensures Decisions(s, run)[i] == Admits(StateAfter(s.Find(run[0]), Times(run), i), run[i].now)
    decreases |run|
  {
    hide Admits, After;
    if i > 0 {
      OneBucket(s.Step(run[0]), run[1..], key, i - 1);
      assert Times(run)[1..] == Times(run[1..]);
      StateAfterTail(s.Find(run[0]), Times(run), i);
    } else {
      assert StateAfter(s.Find(run[0]), Times(run), 0) == s.Find(run[0]);
    }
  }

  // ---- retry times ----

  lemma Divided(d: real, rate: real, dt: real)
    requires rate > 0.0
    ensures Flow(dt, rate) >= d <==> dt >= d / rate
    ensures d > 0.0 ==> d / rate > 0.0
  {
    var q := d / rate;
    assert q * rate == d;
    if dt >= q {
      assert (dt - q) * rate >= 0.0;
    } else {
      assert (q - dt) * rate > 0.0;
    }
  }

  /** After a rejected take and no other, a take is admitted exactly from the announced time on, if the bucket can hold a token. */
  lemma RetryExact(b: State, now: real, later: real)
    requires b.rate > 0.0 && !Admits(b, now)
    ensures Admits(After(b, now), later) <==> b.capacity >= 1.0 && later >= now + RetryAfter(b, now)
  {
    hide Flow;
    Divided(1.0 - Refilled(b, now), b.rate, later - now);
  }

  /** Waiting the whole seconds of the header suffices exactly when truncation took nothing off the retry time. */
  lemma HeaderExact(b: State, now: real)
    requires b.rate > 0.0 && !Admits(b, now)
    ensures var retry := RetryAfter(b, now);
            Admits(After(b, now), now + RetryHeader(retry) as real)
            <==> b.capacity >= 1.0 && (retry <= 1.0 || retry == retry.Floor as real)
  {
    hide Flow;
    var retry := RetryAfter(b, now);
    Divided(1.0 - Refilled(b, now), b.rate, 1.0);
    RetryExact(b, now, now + RetryHeader(retry) as real);
  }

  ghost predicate NonDecreasing(from: real, times: seq<real>) {
    (times != [] ==> from <= times[0]) && forall i, j :: 0 <= i < j < |times| ==> times[i] <= times[j]
  }

  lemma FlowForward(seconds: real, rate: real)
    requires seconds >= 0.0 && rate >= 0.0
    ensures Flow(seconds, rate) >= 0.0
    ensures rate >= 1.0 ==> Flow(seconds, rate) >= seconds
  {
    if rate >= 1.0 { assert seconds * (rate - 1.0) >= 0.0; }
  }

  /** At a given clock the bucket is not in debt. */
  predicate InCredit(b: State, clock: real) { b.tokens + Flow(clock - b.last, b.rate) >= 0.0 }

  lemma StaysInCredit(b: State, clock: real, later: real)
    requires InCredit(b, clock) && clock <= later && b.rate >= 0.0
    ensures InCredit(b, later)
  {
    hide Flow;
    FlowForward(later - clock, b.rate);
    FlowAdds(clock - b.last, later - clock, b.rate);
  }

  /** A take at a clock at which the bucket is in credit leaves it in credit from then on. */
  lemma TakeInCredit(b: State, now: real, later: real)
    requires InCredit(b, now) && now <= later && b.rate >= 0.0 && b.capacity >= 0.0
    ensures InCredit(After(b, now), later)
  {
    hide Flow;
    FlowAdds(0.0, 0.0, b.rate);
    assert After(b, now).last == now && After(b, now).tokens >= 0.0;
    StaysInCredit(After(b, now), now, later);
  }

  /** The take that creates a bucket may leave it in debt, but not beyond the clock it was created with. */
  lemma CreatingInCredit(capacity: real, rate: real, now: real, created: real)
    requires capacity >= 0.0 && rate >= 0.0 && now <= created
    ensures InCredit(After(State(capacity, capacity, rate, created), now), created)
  {
    hide Flow;
    FlowForward(created - now, rate);
    FlowAdds(now - created, created - now, rate);
  }

  /** A request turned away by the bucket it creates leaves one that admits at any clock from its creation on. */
  lemma CreatingRejected(capacity: real, rate: real, now: real, created: real, later: real)
    requires capacity >= 1.0 && rate >= 0.0 && now <= created <= later
    requires !Admits(State(capacity, capacity, rate, created), now)
    ensures Admits(After(State(capacity, capacity, rate, created), now), later)
  {
    hide Flow;
    FlowForward(created - now, rate);
    FlowForward(later - created, rate);
    FlowAdds(now - created, created - now, rate);
    FlowAdds(created - now, later - created, rate);
  }

  /** In credit at a clock and with no clock before it, a bucket is in credit at every take. */
  lemma {:induction false} NeverInDebt(b: State, clock: real, times: seq<real>, n: nat)
    requires n < |times| && InCredit(b, clock) && NonDecreasing(clock, times)
    requires b.rate >= 0.0 && b.capacity >= 0.0
    ensures InCredit(StateAfter(b, times, n), times[n])
  {
    hide Flow;
    if n > 0 {
      NeverInDebt(b, clock, times, n - 1);
      SameBucket(b, times, n - 1);
      TakeInCredit(StateAfter(b, times, n - 1), times[n - 1], times[n]);
    } else {
      assert StateAfter(b, times, 0) == b;
      StaysInCredit(b, clock, times[0]);
    }
  }

  /** At one token a second or more a bucket in credit announces one second at most, and its header suffices. */
  lemma HeaderFromCredit(b: State, now: real)
    requires InCredit(b, now) && b.rate >= 1.0 && b.capacity >= 1.0 && !Admits(b, now)
    ensures 0.0 < RetryAfter(b, now) <= 1.0
    ensures Admits(After(b, now), now + RetryHeader(RetryAfter(b, now)) as real)
  {
    hide Flow;
    FlowForward(1.0, b.rate);
    Divided(1.0 - Refilled(b, now), b.rate, 1.0);
    HeaderExact(b, now);
  }

  /**
   * At one token a second or more the header is always enough, from any bucket that is in credit at a clock no take is
   * behind: one just created included, by CreatingInCredit.
   */
  lemma HeaderSuffices(b: State, clock: real, times: seq<real>, n: nat)
    requires n < |times| && InCredit(b, clock) && NonDecreasing(clock, times)
    requires b.rate >= 1.0 && b.capacity >= 1.0
    requires !Admits(StateAfter(b, times, n), times[n])
    ensures var before := StateAfter(b, times, n);
            Admits(After(before, times[n]), times[n] + RetryHeader(RetryAfter(before, times[n])) as real)
  {
    hide Flow, Refilled, Admits, After;
    NeverInDebt(b, clock, times, n);
    SameBucket(b, times, n);
    HeaderFromCredit(StateAfter(b, times, n), times[n]);
  }

  lemma SlowBucket()
    ensures var b := State(0.0, 1.0, 0.4, 0.0);
            Refilled(b, 0.0) == 0.0 && Refilled(b, 2.0) == 0.8 && After(b, 0.0) == b
  {
    SlowFlow(0.0);
    SlowFlow(2.0);
    hide Flow;
  }

  lemma SlowFlow(seconds: real)
    ensures Flow(seconds, 0.4) == seconds * 0.4
  {
  }

  /** Below one token a second the header can be too short: five halves of a second to wait, two announced. */
  lemma HeaderTooShort()
    ensures var b := State(0.0, 1.0, 0.4, 0.0);
            && !Admits(b, 0.0) && RetryAfter(b, 0.0) == 2.5 && RetryHeader(2.5) == 2
            && !Admits(After(b, 0.0), 2.0)
  {
    SlowBucket();
    hide Refilled, After;
  }

  lemma UnitFlow(seconds: real)
    ensures Flow(seconds, 1.0) == seconds
  {
  }

  /** So can it at one token a second, with a clock behind that of an earlier take. */
  lemma HeaderBehind()
    ensures var b := State(0.0, 1.0, 1.0, 10.0);
            && !InCredit(b, 8.5) && !Admits(b, 8.5) && RetryAfter(b, 8.5) == 2.5 && RetryHeader(2.5) == 2
            && !Admits(After(b, 8.5), 10.5)
  {
    UnitFlow(-1.5);
    UnitFlow(2.0);
    hide Flow;
    assert After(State(0.0, 1.0, 1.0, 10.0), 8.5) == State(-1.5, 1.0, 1.0, 8.5);
  }

  // ---- rejected requests ----

  /** All a bucket's future depends on, besides its capacity and rate: the tokens it would have had at time zero. */
  function Credit(b: State): real { b.tokens - Flow(b.last, b.rate) }

  ghost predicate Alike(a: State, b: State) {
    && a.capacity == b.capacity && a.rate == b.rate
    && (a.capacity >= 1.0 ==> Credit(a) == Credit(b))
  }

  lemma AlikeStep(a: State, b: State, now: real)
    requires Alike(a, b)
    ensures Admits(a, now) == Admits(b, now) && Alike(After(a, now), After(b, now))
  {
    hide Flow;
    FlowAdds(now - a.last, a.last, a.rate);
    FlowAdds(now - b.last, b.last, b.rate);
  }

  /** A rejected take leaves a bucket that will behave as if it had not happened. */
  lemma RejectedAlike(b: State, now: real)
    requires !Admits(b, now)
    ensures Alike(After(b, now), b)
  {
    hide Flow;
    FlowAdds(now - b.last, b.last, b.rate);
  }

  ghost predicate LimitsAlike(s: Limits, t: Limits) {
    && s.Valid() && t.Valid() && s.capacity == t.capacity && s.rate == t.rate
    && (s.capacity >= 1.0 ==>
          s.buckets.Keys == t.buckets.Keys && forall k :: k in s.buckets ==> Alike(s.buckets[k], t.buckets[k]))
  }

  lemma LimitsAlikeStep(s: Limits, t: Limits, r: Request)
    requires LimitsAlike(s, t)
    ensures s.Ok(r) == t.Ok(r) && LimitsAlike(s.Step(r), t.Step(r))
  {
    if s.capacity >= 1.0 {
      AlikeStep(s.Find(r), t.Find(r), r.now);
    }
  }

  /** The members of s at the places marked true. */
  function Kept<T>(s: seq<T>, keep: seq<bool>): seq<T>
    requires |s| == |keep|
    decreases |s|
  {
    if s == [] then [] else (if keep[0] then [s[0]] else []) + Kept(s[1..], keep[1..])
  }

  /** Every request left out is rejected, by a bucket that was there before it. */
  predicate DropsOnlyRejected(s: Limits, run: seq<Request>, keep: seq<bool>)
    requires |run| == |keep|
    decreases |run|
  {
    run == [] ||
    ((keep[0] || (!s.Ok(run[0]) && (s.capacity < 1.0 || run[0].key in s.buckets)))
     && DropsOnlyRejected(s.Step(run[0]), run[1..], keep[1..]))
  }

  lemma {:induction false} KeptDecisions(s: Limits, t: Limits, run: seq<Request>, keep: seq<bool>)
    requires LimitsAlike(s, t) && |run| == |keep| && DropsOnlyRejected(s, run, keep)
    ensures Decisions(t, Kept(run, keep)) == Kept(Decisions(s, run), keep)
    decreases |run|
  {
    hide Admits, After;
    if run != [] {
      var r := run[0];
      var rest, restKeep := run[1..], keep[1..];
      assert Decisions(s, run) == [s.Ok(r)] + Decisions(s.Step(r), rest);
      assert Decisions(s, run)[1..] == Decisions(s.Step(r), rest);
      if keep[0] {
        LimitsAlikeStep(s, t, r);
        KeptDecisions(s.Step(r), t.Step(r), rest, restKeep);
        assert Kept(run, keep) == [r] + Kept(rest, restKeep);
        assert Kept(run, keep)[1..] == Kept(rest, restKeep);
      } else {
        if s.capacity >= 1.0 { DroppedAlike(s, t, r); }
        KeptDecisions(s.Step(r), t, rest, restKeep);
        assert Kept(run, keep) == Kept(rest, restKeep);
      }
    }
  }

  lemma DroppedAlike(s: Limits, t: Limits, r: Request)
    requires LimitsAlike(s, t) && s.capacity >= 1.0 && r.key in s.buckets && !s.Ok(r)
    ensures LimitsAlike(s.Step(r), t)
  {
    hide Refilled;
    RejectedAlike(s.buckets[r.key], r.now);
  }

  /** Leaving out any set of such rejected requests changes no other decision on any bucket, whatever the clocks. */
  lemma {:induction false} RejectedInvisible(s: Limits, run: seq<Request>, keep: seq<bool>)
    requires s.Valid() && |run| == |keep| && DropsOnlyRejected(s, run, keep)
    ensures Decisions(s, Kept(run, keep)) == Kept(Decisions(s, run), keep)
  {
    KeptDecisions(s, s, run, keep);
  }

  /**
   * A rejected request that created its bucket is not invisible: the bucket it leaves was full at its creation time,
   * and a request that would have had to create it later can be turned away instead.
   */
  lemma CreatorVisible(s: Limits, r: Request) returns (next: Request)
    requires s.Valid() && s.rate > 0.0 && s.capacity >= 1.0
    requires !s.Ok(r) && r.key !in s.buckets
    ensures r.created <= next.now <= next.created
    ensures Decisions(s.Step(r), [next]) == [true] && Decisions(s, [next]) == [false]
  {
    hide Flow;
    var lag := s.capacity / s.rate;
    LagFlows(s.capacity, s.rate);
    next := Request(r.key, r.created, r.created + lag);
    FlowAdds(r.now - r.created, r.created - r.now, s.rate);
    FlowAdds(lag, -lag, s.rate);
    assert After(s.Find(r), r.now).tokens == s.capacity + Flow(r.now - r.created, s.rate);
    assert s.Step(r).Ok(next) && !s.Ok(next);
    OneDecision(s, next);
    OneDecision(s.Step(r), next);
  }

  lemma LagFlows(capacity: real, rate: real)
    requires rate > 0.0 && capacity >= 1.0
    ensures capacity / rate >= 0.0 && Flow(capacity / rate, rate) == capacity
  {
    Divided(capacity, rate, 0.0);
    assert capacity / rate * rate == capacity;
  }

  lemma OneDecision(s: Limits, r: Request)
    ensures Decisions(s, [r]) == [s.Ok(r)]
  {
    assert Decisions(s.Step(r), []) == [];
  }

  /** So a rejected request is invisible to every later run exactly when its bucket existed or can never admit. */
  lemma InvisibleExactly(s: Limits, r: Request)
    requires s.Valid() && s.rate > 0.0 && !s.Ok(r)
    ensures (forall run :: Decisions(s.Step(r), run) == Decisions(s, run)) <==> (r.key in s.buckets || s.capacity < 1.0)
  {
    hide Admits, After;
    if r.key in s.buckets || s.capacity < 1.0 {
      forall run ensures Decisions(s.Step(r), run) == Decisions(s, run) {
        if s.capacity >= 1.0 { DroppedAlike(s, s, r); }
        AllAlike(s.Step(r), s, run);
      }
    } else {
      var next := CreatorVisible(s, r);
    }
  }

  lemma {:induction false} AllAlike(s: Limits, t: Limits, run: seq<Request>)
    requires LimitsAlike(s, t)
    ensures Decisions(s, run) == Decisions(t, run)
    decreases |run|
  {
    hide Admits, After;
    if run != [] {
      LimitsAlikeStep(s, t, run[0]);
      AllAlike(s.Step(run[0]), t.Step(run[0]), run[1..]);
    }
  }

  // ---- independence ----

  function OnKey(run: seq<Request>, key: Key): seq<bool> {
    seq(|run|, i requires 0 <= i < |run| => run[i].key == key)
  }

  lemma {:induction false} OneKey(s: Limits, t: Limits, run: seq<Request>, key: Key)
    requires s.capacity == t.capacity && s.rate == t.rate
    requires key in s.buckets <==> key in t.buckets
    requires key in s.buckets ==> s.buckets[key] == t.buckets[key]
    ensures Decisions(t, Kept(run, OnKey(run, key))) == Kept(Decisions(s, run), OnKey(run, key))
    decreases |run|
  {
    hide Admits, After;
    if run != [] {
      var r, rest := run[0], run[1..];
      assert OnKey(run, key)[1..] == OnKey(rest, key);
      assert Decisions(s, run)[1..] == Decisions(s.Step(r), rest);
      if r.key == key {
        OneKey(s.Step(r), t.Step(r), rest, key);
        assert Kept(run, OnKey(run, key))[1..] == Kept(rest, OnKey(rest, key));
      } else {
        OneKey(s.Step(r), t, rest, key);
        assert Kept(run, OnKey(run, key)) == Kept(rest, OnKey(rest, key));
      }
    }
  }

  /** The decisions on one (client, route) are those of its own requests run alone. */
  lemma KeysIndependent(s: Limits, run: seq<Request>, key: Key)
    ensures Decisions(s, Kept(run, OnKey(run, key))) == Kept(Decisions(s, run), OnKey(run, key))
  {
    OneKey(s, s, run, key);
  }
}
