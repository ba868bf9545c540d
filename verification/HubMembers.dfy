/** Who is in the hub's map: what one turn of Run's loop does to it, in every interleaving. */
module HubMembers {
  import opened Hub
  import opened HubSafety
  import opened HubForwarding
  import opened Options

  /** Run has taken something at its select and not come back to it. */
  predicate Busy(run: RunPc) { run != Select && run != Exited }

  /** The clients for which the broadcast in flight found 256 items queued. */
  ghost function TurnedAway(states: seq<State>, actions: seq<Action>, i: nat, k: nat): set<ClientId>
    requires k <= |actions| < |states|
  {
    set m: nat | i <= m < k && actions[m].DeliverTo? && actions[m].c in states[m].clients
                 && |states[m].clients[actions[m].c].queue| == 256 :: actions[m].c
  }

  lemma TurnedAwayNext(states: seq<State>, actions: seq<Action>, i: nat, k: nat)
    requires i <= k < |actions| < |states|
    ensures TurnedAway(states, actions, i, k + 1)
         == TurnedAway(states, actions, i, k)
            + (if actions[k].DeliverTo? && actions[k].c in states[k].clients
                  && |states[k].clients[actions[k].c].queue| == 256 then {actions[k].c} else {})
  {
  }

  /** Where Run can be on the turn a given step began, and who is in the map then; away are those turned away so far. */
  predicate OnTurn(first: Action, members: set<ClientId>, away: set<ClientId>, s: State) {
    match first
    case TakeRegister(c) =>
      || ((s.run == Waiting(Admit(c)) || s.run == Doing(Admit(c))) && s.members == members)
      || (s.run == Leaving(ToSelect) && s.members == members + {c})
    case TakeUnregister(c, _) =>
      || ((s.run == Waiting(Drop(c)) || s.run == Doing(Drop(c))) && s.members == members)
      || ((s.run == Closing(c, ToSelect) || s.run == Leaving(ToSelect)) && s.members == members - {c})
    case TakeBroadcast =>
      (match s.run
       case Waiting(Announce(_)) => s.members == members && away == {}
       case Waiting(Deliver(_, todo)) => s.members == members - away && todo !! away
       case Doing(Deliver(_, todo)) => s.members == members - away && todo !! away
       case Waiting(Evict(c, _, todo)) => s.members == members - away + {c} && c in away && c in members && todo !! away
       case Doing(Evict(c, _, todo)) => s.members == members - away + {c} && c in away && c in members && todo !! away
       case Closing(_, ToDeliver(_, todo)) => s.members == members - away && todo !! away
       case Leaving(ToDeliver(_, todo)) => s.members == members - away && todo !! away
       case _ => false)
    case SeeStop =>
      || s.run == Waiting(Shut) || s.run == Doing(Shut) || s.run.Removing?
      || (s.run == Leaving(ToExit) && s.members == {})
    case _ => false
  }

  /** What the turn leaves in the map. */
  function Left(first: Action, members: set<ClientId>, away: set<ClientId>): set<ClientId> {
    match first
    case TakeRegister(c) => members + {c}
    case TakeUnregister(c, _) => members - {c}
    case TakeBroadcast => members - away
    case _ => {}
  }

  /** Only Run touches the map. */
  lemma OthersKeepMap(s: State, a: Action)
    requires Enabled(s, a) && !ByRun(a)
    ensures OtherNext(s, a).members == s.members && OtherNext(s, a).run == s.run
  {
    hide Own, Set, Forwarded;
  }

  lemma TurnBegins(s: State, a: Action)
    requires Enabled(s, a) && s.run == Select && ByRun(a)
    ensures OnTurn(a, s.members, {}, RunNext(s, a))
  {
  }

  lemma RegisterGoesOn(s: State, a: Action, c: ClientId, members: set<ClientId>)
    requires Enabled(s, a) && ByRun(a) && OnTurn(TakeRegister(c), members, {}, s)
    ensures var t := RunNext(s, a);
            if t.run == Select then t.members == members + {c} else OnTurn(TakeRegister(c), members, {}, t)
  {
  }

  lemma UnregisterGoesOn(s: State, a: Action, c: ClientId, w: bool, members: set<ClientId>)
    requires Enabled(s, a) && ByRun(a) && OnTurn(TakeUnregister(c, w), members, {}, s)
    ensures var t := RunNext(s, a);
            if t.run == Select then t.members == members - {c} else OnTurn(TakeUnregister(c, w), members, {}, t)
  {
  }

  lemma StopGoesOn(s: State, a: Action, members: set<ClientId>)
    requires Enabled(s, a) && ByRun(a) && OnTurn(SeeStop, members, {}, s)
    ensures var t := RunNext(s, a);
            if t.run == Exited then t.members == {} else OnTurn(SeeStop, members, {}, t)
  {
  }

  /** Handing the broadcast to one client turns it away exactly when 256 items are queued for it. */
  lemma DeliverGoesOn(s: State, c: ClientId, members: set<ClientId>, away: set<ClientId>)
    requires Safe(s) && Bounded(s) && Enabled(s, DeliverTo(c)) && OnTurn(TakeBroadcast, members, away, s)
    ensures OnTurn(TakeBroadcast, members, if |s.clients[c].queue| == 256 then away + {c} else away, Delivered(s, c))
  {
    assert ClientOk(s, c);
  }

  lemma BroadcastGoesOn(s: State, a: Action, members: set<ClientId>, away: set<ClientId>)
    requires Enabled(s, a) && ByRun(a) && !a.DeliverTo? && OnTurn(TakeBroadcast, members, away, s)
    ensures var t := RunNext(s, a);
            if t.run == Select then t.members == members - away else OnTurn(TakeBroadcast, members, away, t)
  {
  }

  lemma OnTurnFrame(first: Action, members: set<ClientId>, away: set<ClientId>, s: State, t: State)
    requires OnTurn(first, members, away, s) && t.run == s.run && t.members == s.members
    ensures OnTurn(first, members, away, t)
  {
  }

  lemma AwayMatters(first: Action, members: set<ClientId>, away: set<ClientId>, away': set<ClientId>, s: State)
    requires OnTurn(first, members, away, s) && !first.TakeBroadcast?
    ensures OnTurn(first, members, away', s)
  {
  }

  lemma RunGoesOn(s: State, a: Action, first: Action, members: set<ClientId>, away: set<ClientId>)
    requires Safe(s) && Bounded(s) && Enabled(s, a) && ByRun(a) && OnTurn(first, members, away, s)
    ensures var t := RunNext(s, a);
            var away' := away + (if a.DeliverTo? && a.c in s.clients && |s.clients[a.c].queue| == 256 then {a.c} else {});
            if Busy(t.run) then OnTurn(first, members, away', t) else t.members == Left(first, members, away')
  {
    hide Safe, Bounded, Delivered;
    var away' := away + (if a.DeliverTo? && a.c in s.clients && |s.clients[a.c].queue| == 256 then {a.c} else {});
    if first.TakeBroadcast? {
      BroadcastTurn(s, a, members, away);
    } else {
      AwayMatters(first, members, away, {}, s);
      OtherTurn(s, a, first, members);
      hide Enabled, RunNext;
      if Busy(RunNext(s, a).run) { AwayMatters(first, members, {}, away', RunNext(s, a)); }
    }
  }

  lemma BroadcastTurn(s: State, a: Action, members: set<ClientId>, away: set<ClientId>)
    requires Safe(s) && Bounded(s) && Enabled(s, a) && ByRun(a) && OnTurn(TakeBroadcast, members, away, s)
    ensures var t := RunNext(s, a);
            var away' := away + (if a.DeliverTo? && a.c in s.clients && |s.clients[a.c].queue| == 256 then {a.c} else {});
            if Busy(t.run) then OnTurn(TakeBroadcast, members, away', t) else t.members == members - away'
  {
    hide Safe, Bounded, OnTurn;
    if a.DeliverTo? {
      DeliverGoesOn(s, a.c, members, away);
      assert away + {} == away;
      StillDelivering(s, a.c);
    } else {
      BroadcastGoesOn(s, a, members, away);
      NotExited(s, a, members, away);
      assert away + {} == away;
    }
  }

  lemma StillDelivering(s: State, c: ClientId)
    requires Enabled(s, DeliverTo(c))
    ensures c in s.clients && RunNext(s, DeliverTo(c)) == Delivered(s, c) && Busy(Delivered(s, c).run)
  {
  }

  lemma NotExited(s: State, a: Action, members: set<ClientId>, away: set<ClientId>)
    requires Enabled(s, a) && ByRun(a) && OnTurn(TakeBroadcast, members, away, s)
    ensures RunNext(s, a).run != Exited
  {
  }

  lemma OtherTurn(s: State, a: Action, first: Action, members: set<ClientId>)
    requires Enabled(s, a) && ByRun(a) && !first.TakeBroadcast? && OnTurn(first, members, {}, s)
    ensures var t := RunNext(s, a);
            if Busy(t.run) then OnTurn(first, members, {}, t) else t.members == Left(first, members, {})
  {
    hide Enabled, RunNext;
    if first.TakeRegister? {
      RegisterGoesOn(s, a, first.c, members);
    } else if first.TakeUnregister? {
      UnregisterGoesOn(s, a, first.c, first.fromWriter, members);
    } else {
      StopGoesOn(s, a, members);
    }
  }

  /** A turn of Run's loop, from its select to wherever it has got. */
  ghost predicate Turn(states: seq<State>, actions: seq<Action>, i: nat, k: nat) {
    && Run(states, actions) && i < k <= |actions|
    && states[i].run == Select && ByRun(actions[i]) && forall m :: i < m < k ==> Busy(states[m].run)
  }

  /**
   * What one turn of Run does to the map, whatever the others do meanwhile: a registration adds its client, an
   * unregistration takes its client out, a broadcast takes out exactly those for which it found 256 items queued, a stop
   * takes out everyone. So nobody leaves the map for any other reason.
   */
  lemma {:induction false} TurnLeaves(states: seq<State>, actions: seq<Action>, i: nat, k: nat)
    requires Turn(states, actions, i, k)
    ensures Busy(states[k].run) ==> OnTurn(actions[i], states[i].members, TurnedAway(states, actions, i, k), states[k])
    ensures !Busy(states[k].run) ==>
              states[k].members == Left(actions[i], states[i].members, TurnedAway(states, actions, i, k))
    decreases k
  {
    hide OnTurn, Enabled, RunNext, OtherNext, Left, TurnedAway;
    var s, a, first := states[k - 1], actions[k - 1], actions[i];
    assert Enabled(s, a) && states[k - 1 + 1] == Next(s, a);
    TurnedAwayNext(states, actions, i, k - 1);
    if k == i + 1 {
      TurnBegins(s, a);
      NoneAway(states, actions, i);
      SelectNotDelivers(s, a);
      assert TurnedAway(states, actions, i, k) == {};
    } else {
      TurnLeaves(states, actions, i, k - 1);
      var away := TurnedAway(states, actions, i, k - 1);
      if ByRun(a) {
        RunSafe(states, actions, k - 1);
        QueuesBounded(states, actions, k - 1);
        hide Safe, Bounded;
        RunGoesOn(s, a, first, states[i].members, away);
      } else {
        OthersKeepMap(s, a);
        assert away + {} == away;
        OnTurnFrame(first, states[i].members, away, s, states[k]);
      }
    }
  }

  lemma NoneAway(states: seq<State>, actions: seq<Action>, i: nat)
    requires i <= |actions| < |states|
    ensures TurnedAway(states, actions, i, i) == {}
  {
  }

  lemma SelectNotDelivers(s: State, a: Action)
    requires Enabled(s, a) && s.run == Select && ByRun(a)
    ensures !a.DeliverTo? && Busy(RunNext(s, a).run)
  {
  }

  /** At the select, everyone who was in the map and is not has had its channel closed, once. */
  lemma OutIsClosed(states: seq<State>, actions: seq<Action>, n: nat, c: ClientId)
    requires Run(states, actions) && n <= |actions| && !Busy(states[n].run)
    requires c in states[n].clients && states[n].clients[c].joined.Some? && c !in states[n].members
    ensures states[n].clients[c].closed && states[n].clients[c].closes == 1
  {
    RunSafe(states, actions, n);
    assert ClientOk(states[n], c);
  }
}
