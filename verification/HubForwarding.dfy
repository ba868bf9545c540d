/** That what a client sends reaches the others: one round of a read pump's forwarding loop, in every interleaving. */
module HubForwarding {
  import opened Hub
  import opened HubSafety
  import opened HubPeers
  import opened Options
  import HubDelivery

  // ---- queues ----

  ghost predicate Bounded(s: State) {
    forall c :: c in s.clients ==> |s.clients[c].queue| <= 256
  }

  lemma MovesBounded(s: State, t: State)
    requires Bounded(s) && HubDelivery.MovesOnly(s, t)
    ensures Bounded(t)
  {
    forall c | c in t.clients ensures |t.clients[c].queue| <= 256 {
      assert HubDelivery.SameChannel(s.clients[c], t.clients[c]);
    }
  }

  lemma InsertBounded(s: State)
    requires Bounded(s) && s.run.Doing? && s.run.job.Admit?
    ensures Bounded(Inserted(s))
  {
  }

  lemma SendBounded(s: State, c: ClientId, item: Item)
    requires Bounded(s) && c in s.clients && HasRoom(s, c)
    ensures Bounded(Send(s, c, item))
  {
  }

  lemma DeliverBounded(s: State, c: ClientId)
    requires Bounded(s) && s.run.Doing? && s.run.job.Deliver? && c in s.clients
    ensures Bounded(Delivered(s, c))
  {
    if HasRoom(s, c) {
      SendBounded(s, c, FromHub(s.run.job.text));
      hide Send;
    }
  }

  lemma ForwardBounded(s: State, c: ClientId, to: ClientId)
    requires Bounded(s) && c in s.clients && s.clients[c].reader.Forwarding? && to in s.clients
    ensures Bounded(Forwarded(s, c, to))
  {
    var k := s.clients[c];
    var rest := Set(s, c, k.(reader := Forwarding(k.reader.text, k.reader.todo - {to})));
    if HasRoom(rest, to) {
      SendBounded(rest, to, FromPeer(c, k.reader.text));
      hide Send;
    }
  }

  lemma RunBounded(s: State, a: Action)
    requires Bounded(s) && Enabled(s, a) && ByRun(a)
    ensures Bounded(RunNext(s, a))
  {
    hide Bounded, Inserted, Delivered, Deleted, Removed, RegisterTaken, UnregisterTaken, Locked, Unlocked, DeliveryEnded,
      DeletedClosed, OneClosed;
    if a.Insert? {
      InsertBounded(s);
    } else if a.DeliverTo? {
      DeliverBounded(s, a.c);
    } else if a.Delete? || a.Remove? || a.TakeBroadcast? {
      SameBounded(s, RunNext(s, a));
    } else {
      HubDelivery.MoveMoves(s, a);
      hide RunNext;
      MovesBounded(s, RunNext(s, a));
    }
  }

  lemma SameBounded(s: State, t: State)
    requires Bounded(s) && t.clients == s.clients
    ensures Bounded(t)
  {
  }

  lemma OtherBounded(s: State, a: Action)
    requires Bounded(s) && Enabled(s, a) && !ByRun(a)
    ensures Bounded(OtherNext(s, a))
  {
    hide Forwarded, PumpLocked;
    if a.Forward? {
      hide Bounded;
      ForwardBounded(s, a.c, a.to);
    } else if !a.Dial? && !(a.Receive? && s.clients[a.c].queue != []) {
      HubDelivery.OtherMoves(s, a);
      hide OtherNext;
      MovesBounded(s, OtherNext(s, a));
    }
  }

  /** No channel ever holds more than 256 items. */
  lemma {:induction false} QueuesBounded(states: seq<State>, actions: seq<Action>, n: nat)
    requires Run(states, actions) && n <= |actions|
    ensures Bounded(states[n])
  {
    hide Bounded, Enabled, RunNext, OtherNext;
    if n == 0 {
      assert Bounded(START) by { StartBounded(); }
    } else {
      var s, a := states[n - 1], actions[n - 1];
      QueuesBounded(states, actions, n - 1);
      assert Enabled(s, a) && states[n - 1 + 1] == Next(s, a);
      if ByRun(a) { RunBounded(s, a); } else { OtherBounded(s, a); }
    }
  }

  lemma StartBounded()
    ensures Bounded(START)
  {
  }

  // ---- one round of forwarding ----

  /** The texts from one client ever put in another's channel. */
  function Passed(s: State, c: ClientId, d: ClientId): seq<string> {
    if d in s.clients then PeerTexts(s.clients[d].sent, c) else []
  }

  /** In some state from place i to place k the channel of d was full. */
  ghost predicate MetFull(states: seq<State>, i: nat, k: nat, d: ClientId) {
    exists m :: i <= m <= k < |states| && d in states[m].clients && |states[m].clients[d].queue| == 256
  }

  lemma NoPeerText(k: Client, k': Client, c: ClientId)
    requires OnlyHubMessages(k, k')
    ensures PeerTexts(k'.sent, c) == PeerTexts(k.sent, c)
  {
    hide PeerTexts;
    if k'.sent != k.sent {
      PeerTextsSnoc(k.sent, k'.sent[|k.sent|], c);
      assert k'.sent == k.sent + [k'.sent[|k.sent|]];
    }
  }

  /** The steps of Run put none of c's texts in a channel and leave its forwarding pump alone. */
  lemma RunPasses(s: State, a: Action, c: ClientId, d: ClientId)
    requires Enabled(s, a) && ByRun(a)
    ensures Passed(RunNext(s, a), c, d) == Passed(s, c, d)
    ensures c in s.clients && s.clients[c].reader.Forwarding? ==>
              c in RunNext(s, a).clients && RunNext(s, a).clients[c].reader == s.clients[c].reader
  {
    RunEffect(s, a);
    hide RunNext, Enabled, PeerTexts;
    if c in s.clients { assert OnlyHubMessages(s.clients[c], RunNext(s, a).clients[c]); }
    if d in s.clients { NoPeerText(s.clients[d], RunNext(s, a).clients[d], c); }
  }

  lemma DialPasses(s: State, x: ClientId, c: ClientId, d: ClientId)
    requires Enabled(s, Dial(x))
    ensures Passed(OtherNext(s, Dial(x)), c, d) == Passed(s, c, d)
    ensures c in s.clients ==> c in OtherNext(s, Dial(x)).clients && OtherNext(s, Dial(x)).clients[c] == s.clients[c]
  {
  }

  /** Another client's forwarding. */
  lemma OtherForwardPasses(s: State, a: Action, c: ClientId, d: ClientId)
    requires Safe(s) && Enabled(s, a) && a.Forward? && a.c != c
    ensures Passed(OtherNext(s, a), c, d) == Passed(s, c, d)
    ensures c in s.clients ==> c in OtherNext(s, a).clients && OtherNext(s, a).clients[c].reader == s.clients[c].reader
  {
    HubDelivery.ForwardEffect(s, a);
    hide Safe, OtherNext, Enabled, PeerTexts;
    if d == a.to { PeerTextsSnoc(s.clients[d].sent, FromPeer(a.c, s.clients[a.c].reader.text), c); }
  }

  /** A pump in its forwarding loop does nothing else, and no other step but its own moves it. */
  lemma PumpStays(s: State, a: Action, c: ClientId)
    requires Safe(s) && Enabled(s, a) && !ByRun(a) && !a.Dial? && !a.Forward? && a != PumpUnlock(c)
    requires c in s.clients && s.clients[c].reader.Forwarding?
    ensures c in OtherNext(s, a).clients && OtherNext(s, a).clients[c].reader == s.clients[c].reader
  {
    assert ClientOk(s, c);
    hide Safe, ClientOk, Forwarded;
    if a.Publish? || a.RequestStop? || a.c != c {
      hide OtherNext;
      Bystander(s, a, c);
    }
  }

  /** Every step but the pump's own leaves the pump where it is and what has passed from it to anyone. */
  lemma Elsewhere(s: State, a: Action, c: ClientId, d: ClientId)
    requires Safe(s) && Enabled(s, a) && c in s.clients && s.clients[c].reader.Forwarding?
    requires a != PumpUnlock(c) && !(a.Forward? && a.c == c)
    ensures Passed(Next(s, a), c, d) == Passed(s, c, d)
    ensures c in Next(s, a).clients && Next(s, a).clients[c].reader == s.clients[c].reader
  {
    hide Safe, Enabled, RunNext, OtherNext, PeerTexts;
    if ByRun(a) {
      RunPasses(s, a, c, d);
    } else if a.Dial? {
      DialPasses(s, a.c, c, d);
    } else if a.Forward? {
      OtherForwardPasses(s, a, c, d);
    } else {
      PumpStays(s, a, c);
      PumpKeepsClients(s, a);
      if d in s.clients { PumpSendsNothing(s, a, d); }
    }
  }

  /** The pump's own step: the text goes into the channel if there is room. */
  lemma PassesOn(s: State, c: ClientId, to: ClientId, d: ClientId)
    requires Safe(s) && Bounded(s) && Enabled(s, Forward(c, to))
    ensures c in s.clients && s.clients[c].reader.Forwarding? && to in s.clients[c].reader.todo && to in s.clients
    ensures var t, r := Next(s, Forward(c, to)), s.clients[c].reader;
            && c in t.clients && t.clients[c].reader == Forwarding(r.text, r.todo - {to})
            && (d != to ==> Passed(t, c, d) == Passed(s, c, d))
            && Passed(t, c, to) == if |s.clients[to].queue| == 256 then Passed(s, c, to) else Passed(s, c, to) + [r.text]
  {
    HubDelivery.ForwardEffect(s, Forward(c, to));
    HubDelivery.ForwardToMember(s, c, to);
    ForwardFills(s, c, to);
    hide Safe, OtherNext, Enabled, PeerTexts, Forwarded;
    PeerTextsSnoc(s.clients[to].sent, FromPeer(c, s.clients[c].reader.text), c);
  }

  lemma ForwardFills(s: State, c: ClientId, to: ClientId)
    requires Bounded(s) && c in s.clients && s.clients[c].reader.Forwarding? && to in s.clients && to != c
    requires !s.clients[to].closed
    ensures to in Forwarded(s, c, to).clients
    ensures Forwarded(s, c, to).clients[to].sent
         == if |s.clients[to].queue| == 256 then s.clients[to].sent
            else s.clients[to].sent + [FromPeer(c, s.clients[c].reader.text)]
  {
  }

  /** Part of the way through a round: those still to do have got nothing, the others the text unless their channel was full. */
  ghost predicate Halfway(states: seq<State>, i: nat, k: nat, c: ClientId, text: string)
    requires i <= k < |states|
  {
    && c in states[k].clients && states[k].clients[c].reader.Forwarding? && states[k].clients[c].reader.text == text
    && states[k].clients[c].reader.todo <= states[i].members - {c}
    && forall d :: Owed(states, i, k, c, text, d)
  }

  ghost predicate Owed(states: seq<State>, i: nat, k: nat, c: ClientId, text: string, d: ClientId)
    requires i <= k < |states| && c in states[k].clients && states[k].clients[c].reader.Forwarding?
  {
    if d in states[i].members - {c} - states[k].clients[c].reader.todo then
      || Passed(states[k], c, d) == Passed(states[i], c, d) + [text]
      || (Passed(states[k], c, d) == Passed(states[i], c, d) && MetFull(states, i, k, d))
    else Passed(states[k], c, d) == Passed(states[i], c, d)
  }

  /** Taking the lock, a pump sees everyone but its own client, and has the last text it heard in hand. */
  lemma RoundStarts(states: seq<State>, actions: seq<Action>, i: nat, c: ClientId)
    requires Run(states, actions) && i < |actions| && actions[i] == PumpLock(c)
    ensures c in states[i].clients && states[i].clients[c].heard != []
    ensures Halfway(states, i, i + 1, c, states[i].clients[c].heard[|states[i].clients[c].heard| - 1])
    ensures states[i + 1].clients[c].reader.todo == states[i].members - {c}
  {
    RunKeepsPeers(states, actions, i);
    var s, a := states[i], actions[i];
    assert Enabled(s, a) && states[i + 1] == Next(s, a);
    assert InHandOk(s.clients[c]);
    hide Peers, PeerTexts;
    forall d ensures Passed(states[i + 1], c, d) == Passed(s, c, d) {
      hide OtherNext, Enabled;
      PumpKeepsClients(s, a);
      if d in s.clients { PumpSendsNothing(s, a, d); }
    }
  }

  lemma OwedLater(states: seq<State>, i: nat, k: nat, c: ClientId, text: string, d: ClientId)
    requires i <= k && k + 1 < |states| && Halfway(states, i, k, c, text)
    requires c in states[k + 1].clients && states[k + 1].clients[c].reader == states[k].clients[c].reader
    requires Passed(states[k + 1], c, d) == Passed(states[k], c, d)
    ensures Owed(states, i, k + 1, c, text, d)
  {
    hide Passed;
    assert Owed(states, i, k, c, text, d);
  }

  lemma OwedOn(states: seq<State>, actions: seq<Action>, i: nat, k: nat, c: ClientId, to: ClientId, text: string, d: ClientId)
    requires Run(states, actions) && i <= k < |actions| && Halfway(states, i, k, c, text) && actions[k] == Forward(c, to)
    ensures c in states[k + 1].clients && states[k + 1].clients[c].reader.Forwarding?
    ensures states[k + 1].clients[c].reader == Forwarding(text, states[k].clients[c].reader.todo - {to})
    ensures Owed(states, i, k + 1, c, text, d)
  {
    RunSafe(states, actions, k);
    QueuesBounded(states, actions, k);
    assert Enabled(states[k], actions[k]) && states[k + 1] == Next(states[k], actions[k]);
    assert Owed(states, i, k, c, text, d);
    hide Safe, Bounded, Next, Enabled, Passed, Run;
    PassesOn(states[k], c, to, d);
  }

  lemma RoundGoesOn(states: seq<State>, actions: seq<Action>, i: nat, k: nat, c: ClientId, text: string)
    requires Run(states, actions) && i <= k < |actions| && Halfway(states, i, k, c, text) && actions[k] != PumpUnlock(c)
    ensures Halfway(states, i, k + 1, c, text)
  {
    var a, next := actions[k], k + 1;
    if a.Forward? && a.c == c {
      hide Next, Enabled, Owed;
      OwedOn(states, actions, i, k, c, a.to, text, c);
      forall d ensures Owed(states, i, next, c, text, d) { OwedOn(states, actions, i, k, c, a.to, text, d); }
    } else {
      RunSafe(states, actions, k);
      assert Enabled(states[k], a) && states[k + 1] == Next(states[k], a);
      hide Safe, Next, Enabled, Passed, Owed;
      Elsewhere(states[k], a, c, c);
      forall d ensures Owed(states, i, next, c, text, d) {
        Elsewhere(states[k], a, c, d);
        OwedLater(states, i, k, c, text, d);
      }
    }
  }

  lemma {:induction false} RoundUpTo(states: seq<State>, actions: seq<Action>, i: nat, k: nat, c: ClientId)
    requires Run(states, actions) && i < k <= |actions| && actions[i] == PumpLock(c)
    requires forall m :: i < m < k ==> actions[m] != PumpUnlock(c)
    ensures c in states[i].clients && states[i].clients[c].heard != []
    ensures Halfway(states, i, k, c, states[i].clients[c].heard[|states[i].clients[c].heard| - 1])
    decreases k
  {
    hide Next, Enabled, Halfway;
    RoundStarts(states, actions, i, c);
    if k > i + 1 {
      RoundUpTo(states, actions, i, k - 1, c);
      RoundGoesOn(states, actions, i, k - 1, c, states[i].clients[c].heard[|states[i].clients[c].heard| - 1]);
    }
  }

  /**
   * A message reaches everyone: from the moment a pump takes the lock until it lets go, the last text its client sent is
   * put exactly once in the channel of every other client that was in the map, unless that channel was found full with
   * 256 items; nobody else gets anything from it.
   */
  lemma EveryoneGetsIt(states: seq<State>, actions: seq<Action>, i: nat, j: nat, c: ClientId, d: ClientId)
    requires Run(states, actions) && i < j < |actions| && actions[i] == PumpLock(c) && actions[j] == PumpUnlock(c)
    requires forall k :: i < k < j ==> actions[k] != PumpUnlock(c)
    ensures c in states[i].clients && states[i].clients[c].heard != []
    ensures var heard, before, after := states[i].clients[c].heard, Passed(states[i], c, d), Passed(states[j], c, d);
            if d in states[i].members && d != c
            then after == before + [heard[|heard| - 1]] || (after == before && MetFull(states, i, j, d))
            else after == before
  {
    RoundUpTo(states, actions, i, j, c);
    assert Enabled(states[j], actions[j]);
    var text := states[i].clients[c].heard[|states[i].clients[c].heard| - 1];
    assert Owed(states, i, j, c, text, d);
    hide Passed, MetFull, Run;
  }

  // ---- what a write pump takes ----

  /** The places at which c's write pump received an item. */
  function Takings(states: seq<State>, actions: seq<Action>, n: nat, c: ClientId): set<nat>
    requires n <= |actions| < |states|
  {
    set m: nat | m < n && actions[m] == Receive(c) && c in states[m].clients && states[m].clients[c].queue != []
  }

  lemma OwnConsumes(k: Client, a: Action)
    requires IsOwn(a) && (a.WriteOk? ==> k.writer.Writing?)
    ensures |Own(k, a).consumed| == |k.consumed| + (if a.Receive? && k.queue != [] then 1 else 0)
  {
  }

  lemma LockConsumes(s: State, a: Action)
    requires Enabled(s, a) && (a.PumpLock? || a.PumpUnlock?)
    ensures a.c in s.clients && a.c in OtherNext(s, a).clients
    ensures OtherNext(s, a).clients[a.c].consumed == s.clients[a.c].consumed
  {
  }

  lemma PumpConsumes(s: State, a: Action, c: ClientId)
    requires Enabled(s, a) && !ByRun(a) && !a.Dial? && !a.Forward? && c in s.clients
    ensures c in OtherNext(s, a).clients
    ensures |OtherNext(s, a).clients[c].consumed|
         == |s.clients[c].consumed| + (if a == Receive(c) && s.clients[c].queue != [] then 1 else 0)
  {
    hide Own, OtherNext, Enabled;
    if a.Publish? || a.RequestStop? || a.c != c {
      Bystander(s, a, c);
    } else if IsOwn(a) {
      OwnStep(s, a);
      OwnConsumes(s.clients[a.c], a);
    } else {
      LockConsumes(s, a);
    }
  }

  lemma DialConsumes(s: State, x: ClientId, c: ClientId)
    requires Enabled(s, Dial(x)) && c in OtherNext(s, Dial(x)).clients
    ensures OtherNext(s, Dial(x)).clients[c].consumed == if c in s.clients then s.clients[c].consumed else []
  {
  }

  lemma StepConsumes(s: State, a: Action, c: ClientId)
    requires Safe(s) && Enabled(s, a) && c in Next(s, a).clients
    ensures c !in s.clients ==> Next(s, a).clients[c].consumed == []
    ensures c in s.clients ==>
              |Next(s, a).clients[c].consumed|
              == |s.clients[c].consumed| + (if a == Receive(c) && s.clients[c].queue != [] then 1 else 0)
  {
    hide Safe, Enabled, RunNext, OtherNext, Forwarded;
    if ByRun(a) {
      RunEffect(s, a);
      if c in s.clients { assert OnlyHubMessages(s.clients[c], RunNext(s, a).clients[c]); }
    } else if a.Forward? {
      HubDelivery.ForwardEffect(s, a);
    } else if a.Dial? {
      DialConsumes(s, a.c, c);
    } else {
      PumpKeepsClients(s, a);
      PumpConsumes(s, a, c);
    }
  }

  /** A write pump takes one item each time it receives from a channel that holds any. */
  lemma {:induction false} TakesOneByOne(states: seq<State>, actions: seq<Action>, n: nat, c: ClientId)
    requires Run(states, actions) && n <= |actions| && c in states[n].clients
    ensures |states[n].clients[c].consumed| == |Takings(states, actions, n, c)|
  {
    hide Next, Enabled;
    if n > 0 {
      var s, a := states[n - 1], actions[n - 1];
      RunSafe(states, actions, n - 1);
      assert Enabled(s, a) && states[n - 1 + 1] == Next(s, a);
      StepConsumes(s, a, c);
      TakingsLast(states, actions, n - 1, c);
      if c in s.clients {
        TakesOneByOne(states, actions, n - 1, c);
      } else {
        NoTakings(states, actions, n - 1, c);
      }
    }
  }

  lemma TakingsLast(states: seq<State>, actions: seq<Action>, n: nat, c: ClientId)
    requires n < |actions| < |states|
    ensures |Takings(states, actions, n + 1, c)|
         == |Takings(states, actions, n, c)|
            + (if actions[n] == Receive(c) && c in states[n].clients && states[n].clients[c].queue != [] then 1 else 0)
  {
    var before := Takings(states, actions, n, c);
    assert Takings(states, actions, n + 1, c)
        == if actions[n] == Receive(c) && c in states[n].clients && states[n].clients[c].queue != []
           then before + {n} else before;
  }

  /** A client that is not there yet has taken nothing. */
  lemma {:induction false} NoTakings(states: seq<State>, actions: seq<Action>, n: nat, c: ClientId)
    requires Run(states, actions) && n <= |actions| && c !in states[n].clients
    ensures Takings(states, actions, n, c) == {}
  {
    hide Next, Enabled;
    if n > 0 {
      var s, a := states[n - 1], actions[n - 1];
      assert Enabled(s, a) && states[n - 1 + 1] == Next(s, a);
      RunSafe(states, actions, n - 1);
      if c in s.clients { ClientsStay(s, a, c); }
      NoTakings(states, actions, n - 1, c);
    }
  }

  lemma ClientsStay(s: State, a: Action, c: ClientId)
    requires Safe(s) && Enabled(s, a) && c in s.clients
    ensures c in Next(s, a).clients
  {
    hide Safe, Enabled, RunNext, OtherNext;
    if ByRun(a) {
      RunEffect(s, a);
    } else if a.Forward? {
      HubDelivery.ForwardEffect(s, a);
    } else if a.Dial? {
      DialPasses(s, a.c, c, c);
    } else {
      PumpKeepsClients(s, a);
    }
  }
}
