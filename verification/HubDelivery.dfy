/** What each client of the hub receives, in every interleaving. */
module HubDelivery {
  import opened Hub
  import opened HubSafety
  import opened Options

  // ---- broadcasts ----

  /** The hub's own messages among some items, in order. */
  function HubTexts(items: seq<Item>): seq<string> {
    if items == [] then []
    else
      var before, last := HubTexts(items[..|items| - 1]), items[|items| - 1];
      if last.FromHub? then before + [last.text] else before
  }

  /** The broadcast Run is handing out. */
  function InFlight(run: RunPc): Option<string> {
    match run
    case Waiting(Announce(text)) => Some(text)
    case Waiting(Deliver(text, _)) => Some(text)
    case Doing(Deliver(text, _)) => Some(text)
    case Waiting(Evict(_, text, _)) => Some(text)
    case Doing(Evict(_, text, _)) => Some(text)
    case Closing(_, ToDeliver(text, _)) => Some(text)
    case Leaving(ToDeliver(text, _)) => Some(text)
    case _ => None
  }

  /** Run still means to hand it to c. */
  predicate Pending(run: RunPc, c: ClientId) {
    match run
    case Waiting(Announce(_)) => true
    case Waiting(Deliver(_, todo)) => c in todo
    case Doing(Deliver(_, todo)) => c in todo
    case Waiting(Evict(x, _, todo)) => c == x || c in todo
    case Doing(Evict(x, _, todo)) => c == x || c in todo
    case Closing(_, ToDeliver(_, todo)) => c in todo
    case Leaving(ToDeliver(_, todo)) => c in todo
    case _ => false
  }

  /** The broadcasts taken so far, less the one c is still to be handed. */
  function Due(s: State, c: ClientId): seq<string> {
    if c in s.members && Pending(s.run, c) && s.processed != [] then s.processed[..|s.processed| - 1] else s.processed
  }

  /** The channel is a queue; a client in the map has been sent what was due since it joined, one removed, a prefix. */
  predicate Fed(k: Client, member: bool, due: seq<string>, processed: seq<string>) {
    && k.sent == k.consumed + k.queue
    && match k.joined
       case None => k.sent == []
       case Some(j) =>
         if member then j <= |due| && HubTexts(k.sent) == due[j..]
         else j <= |processed| && HubTexts(k.sent) <= processed[j..]
  }

  predicate FedIn(s: State, c: ClientId)
    requires c in s.clients
  {
    Fed(s.clients[c], c in s.members, Due(s, c), s.processed)
  }

  /** The broadcast in flight is the last one taken. */
  predicate InFlightOk(s: State) {
    InFlight(s.run).Some? ==> s.processed != [] && s.processed[|s.processed| - 1] == InFlight(s.run).value
  }

  ghost predicate AllFed(s: State) {
    InFlightOk(s) && forall c :: c in s.clients ==> FedIn(s, c)
  }

  lemma HubTextsSnoc(items: seq<Item>, item: Item)
    ensures HubTexts(items + [item]) == if item.FromHub? then HubTexts(items) + [item.text] else HubTexts(items)
  {
    var more := items + [item];
    assert more[..|more| - 1] == items;
  }

  /** A step that leaves a client's channel, its place in the map and what it is due alone. */
  lemma FedFrame(s: State, t: State, c: ClientId)
    requires c in s.clients && c in t.clients && FedIn(s, c)
    requires SameChannel(s.clients[c], t.clients[c])
    requires c in s.members <==> c in t.members
    requires Due(t, c) == Due(s, c) && t.processed == s.processed
    ensures FedIn(t, c)
  {
    hide Due, HubTexts;
  }

  lemma DueFrame(s: State, t: State, c: ClientId)
    requires t.processed == s.processed && (c in s.members <==> c in t.members)
    requires c in s.members ==> (Pending(s.run, c) <==> Pending(t.run, c))
    ensures Due(t, c) == Due(s, c)
  {
    hide Pending;
  }

  /** t differs from s in where Run stands and in the state of pumps and locks, but in nothing a client is due or sent. */
  ghost predicate MovesOnly(s: State, t: State) {
    && t.processed == s.processed && t.members == s.members && t.clients.Keys == s.clients.Keys
    && (InFlightOk(s) ==> InFlightOk(t))
    && (forall c :: c in s.members ==> (Pending(s.run, c) <==> Pending(t.run, c)))
    && (forall c :: c in s.clients ==> SameChannel(s.clients[c], t.clients[c]))
  }

  predicate SameChannel(k: Client, k': Client) {
    k'.sent == k.sent && k'.consumed == k.consumed && k'.queue == k.queue && k'.joined == k.joined
  }

  lemma OneMoves(s: State, t: State, c: ClientId)
    requires c in s.clients && c in t.clients && t.clients == s.clients[c := t.clients[c]] && SameChannel(s.clients[c], t.clients[c])
    requires t.processed == s.processed && t.members == s.members && InFlight(s.run) == InFlight(t.run)
    requires forall d :: d in s.members ==> (Pending(s.run, d) <==> Pending(t.run, d))
    ensures MovesOnly(s, t)
  {
    hide SameChannel, InFlight, Pending;
    forall d | d in s.clients ensures SameChannel(s.clients[d], t.clients[d]) { ChannelKept(s.clients[d]); }
  }

  lemma ChannelKept(k: Client)
    ensures SameChannel(k, k)
  {
  }

  lemma MovesFed(s: State, t: State)
    requires AllFed(s) && MovesOnly(s, t)
    ensures AllFed(t)
  {
    hide Fed, InFlightOk, Pending;
    forall c | c in t.clients ensures FedIn(t, c) {
      assert FedIn(s, c);
      DueFrame(s, t, c);
      FedFrame(s, t, c);
    }
  }

  // ---- what one channel goes through ----

  lemma FedReceive(k: Client, member: bool, due: seq<string>, processed: seq<string>, writer: WriterPc)
    requires Fed(k, member, due, processed) && k.queue != []
    ensures Fed(k.(queue := k.queue[1..], consumed := k.consumed + [k.queue[0]], writer := writer), member, due, processed)
  {
    hide HubTexts;
  }

  lemma FedSend(k: Client, due: seq<string>, due': seq<string>, processed: seq<string>, item: Item)
    requires Fed(k, true, due, processed) && k.joined.Some?
    requires due' == if item.FromHub? then due + [item.text] else due
    ensures Fed(k.(queue := k.queue + [item], sent := k.sent + [item]), true, due', processed)
  {
    HubTextsSnoc(k.sent, item);
    hide HubTexts;
    assert k.consumed + (k.queue + [item]) == k.sent + [item];
  }

  lemma FedRemoved(k: Client, due: seq<string>, processed: seq<string>)
    requires Fed(k, true, due, processed) && due <= processed
    ensures Fed(k, false, due, processed) && Fed(k, false, processed, processed)
  {
    hide HubTexts;
  }

  lemma FedJoined(k: Client, member: bool, due: seq<string>, processed: seq<string>)
    requires Fed(k, member, due, processed) && k.joined.None?
    ensures Fed(k.(joined := Some(|processed|)), true, processed, processed)
  {
    assert HubTexts([]) == [];
  }

  lemma FedLater(k: Client, processed: seq<string>, due: seq<string>, text: string)
    requires Fed(k, false, due, processed)
    ensures Fed(k, false, processed + [text], processed + [text])
  {
    hide HubTexts;
  }

  // ---- callers and pumps ----

  lemma ForwardToMember(s: State, c: ClientId, to: ClientId)
    requires Safe(s) && c in s.clients && s.clients[c].reader.Forwarding? && to in s.clients[c].reader.todo
    ensures to in s.clients && to in s.members && s.clients[to].joined.Some? && !s.clients[to].closed && to != c
  {
    assert ClientOk(s, c);
    assert ClientOk(s, to);
    assert Pump(c) in s.readers;
  }

  /** A pump has passed what it holds on to one client, or passed over it. */
  ghost predicate Passes(s: State, t: State, from: ClientId, to: ClientId) {
    && from in s.clients && to in s.clients && from != to && s.clients[from].reader.Forwarding?
    && t.clients.Keys == s.clients.Keys
    && (forall d :: d in s.clients && d != to && d != from ==> t.clients[d] == s.clients[d])
    && var r, k := s.clients[from].reader, s.clients[to];
       var item := FromPeer(from, r.text);
       && t.clients[from] == s.clients[from].(reader := Forwarding(r.text, r.todo - {to}))
       && (t.clients[to] == k || t.clients[to] == k.(queue := k.queue + [item], sent := k.sent + [item]))
  }

  lemma ForwardedPasses(s: State, c: ClientId, to: ClientId)
    requires c in s.clients && s.clients[c].reader.Forwarding? && to in s.clients && to != c
    ensures Passes(s, Forwarded(s, c, to), c, to)
  {
  }

  lemma ForwardEffect(s: State, a: Action)
    requires Safe(s) && Enabled(s, a) && a.Forward?
    ensures a.c in s.clients && a.to in s.clients && a.to in s.members && s.clients[a.to].joined.Some?
    ensures OtherNext(s, a) == Forwarded(s, a.c, a.to) && Passes(s, OtherNext(s, a), a.c, a.to)
    ensures OtherNext(s, a).clients.Keys == s.clients.Keys
  {
    ForwardToMember(s, a.c, a.to);
    hide Safe;
    ForwardedPasses(s, a.c, a.to);
    hide Forwarded;
  }

  lemma ForwardFed(s: State, a: Action)
    requires Safe(s) && AllFed(s) && Enabled(s, a) && a.Forward?
    ensures AllFed(OtherNext(s, a))
  {
    ForwardEffect(s, a);
    hide Safe, InFlight, Pending, Fed, OtherNext, Enabled;
    var t, item := OtherNext(s, a), FromPeer(a.c, s.clients[a.c].reader.text);
    forall c | c in t.clients ensures FedIn(t, c) {
      assert FedIn(s, c);
      DueFrame(s, t, c);
      if c == a.to && t.clients[c] != s.clients[c] {
        FedSend(s.clients[c], Due(s, c), Due(s, c), s.processed, item);
      } else {
        FedFrame(s, t, c);
      }
    }
  }

  lemma OwnMoves(k: Client, a: Action)
    requires IsOwn(a) && (a.WriteOk? ==> k.writer.Writing?) && (a.Receive? ==> k.queue == [])
    ensures SameChannel(k, Own(k, a))
  {
  }

  lemma PumpLockMoves(s: State, a: Action)
    requires Enabled(s, a) && (a.PumpLock? || a.PumpUnlock?)
    ensures MovesOnly(s, OtherNext(s, a))
  {
    hide MovesOnly, Own;
    OneMoves(s, OtherNext(s, a), a.c);
  }

  lemma OtherMoves(s: State, a: Action)
    requires Enabled(s, a) && !ByRun(a) && !a.Forward? && !a.Dial?
    requires a.Receive? ==> s.clients[a.c].queue == []
    ensures MovesOnly(s, OtherNext(s, a))
  {
    hide Own;
    if a.PumpLock? || a.PumpUnlock? {
      PumpLockMoves(s, a);
    } else if IsOwn(a) {
      hide MovesOnly;
      OwnMoves(s.clients[a.c], a);
      OneMoves(s, OtherNext(s, a), a.c);
    }
  }

  lemma ReceiveFed(s: State, c: ClientId)
    requires AllFed(s) && c in s.clients && s.clients[c].queue != []
    ensures AllFed(Set(s, c, Own(s.clients[c], Receive(c))))
  {
    hide InFlight, Pending, Fed;
    var t := Set(s, c, Own(s.clients[c], Receive(c)));
    forall d | d in t.clients ensures FedIn(t, d) {
      assert FedIn(s, d);
      if d == c {
        FedReceive(s.clients[c], c in s.members, Due(s, c), s.processed, Writing(true));
      } else {
        DueFrame(s, t, d);
        FedFrame(s, t, d);
      }
    }
  }

  lemma OtherFed(s: State, a: Action)
    requires AllFed(s) && Enabled(s, a) && !ByRun(a) && !a.Forward? && !a.Dial?
    ensures AllFed(OtherNext(s, a))
  {
    hide AllFed, MovesOnly, Own, Set;
    if a.Receive? && s.clients[a.c].queue != [] {
      ReceiveFed(s, a.c);
    } else {
      OtherMoves(s, a);
      MovesFed(s, OtherNext(s, a));
    }
  }

  lemma DialFed(s: State, a: Action)
    requires Safe(s) && AllFed(s) && Enabled(s, a) && a.Dial?
    ensures AllFed(OtherNext(s, a))
  {
    hide InFlight, Pending, LockOk, RunOk, ClientOk;
    var t := OtherNext(s, a);
    forall c | c in t.clients ensures FedIn(t, c) {
      if c in s.clients {
        assert FedIn(s, c);
        DueFrame(s, t, c);
        FedFrame(s, t, c);
      }
    }
  }

  // ---- Run ----

  lemma SeeStopMoves(s: State)
    requires s.run == Select
    ensures MovesOnly(s, s.(run := Waiting(Shut)))
  {
  }

  lemma RegisterMoves(s: State, c: ClientId)
    requires s.run == Select && c in s.clients
    ensures MovesOnly(s, RegisterTaken(s, c))
  {
    hide MovesOnly;
    OneMoves(s, RegisterTaken(s, c), c);
  }

  lemma UnregisterMoves(s: State, c: ClientId, fromWriter: bool)
    requires s.run == Select && c in s.clients
    ensures MovesOnly(s, UnregisterTaken(s, c, fromWriter))
  {
    hide MovesOnly;
    OneMoves(s, UnregisterTaken(s, c, fromWriter), c);
  }

  lemma LockMoves(s: State)
    requires s.run.Waiting?
    ensures MovesOnly(s, Locked(s))
  {
    forall c | c in s.members ensures Pending(s.run, c) <==> Pending(Locked(s).run, c) { LockPending(s, c); }
    LockInFlight(s);
    hide Pending, InFlight;
  }

  lemma LockPending(s: State, c: ClientId)
    requires s.run.Waiting? && c in s.members
    ensures Pending(s.run, c) <==> Pending(Locked(s).run, c)
  {
  }

  lemma LockInFlight(s: State)
    requires s.run.Waiting?
    ensures InFlight(Locked(s).run) == InFlight(s.run)
  {
  }

  lemma UnlockMoves(s: State)
    requires s.run.Leaving?
    ensures MovesOnly(s, Unlocked(s))
  {
  }

  lemma EndMoves(s: State)
    requires Enabled(s, EndDelivery)
    ensures MovesOnly(s, DeliveryEnded(s))
  {
  }

  lemma CloseDeletedMoves(s: State)
    requires s.run.Closing? && s.run.c in s.clients
    ensures MovesOnly(s, DeletedClosed(s))
  {
    hide MovesOnly;
    OneMoves(s, DeletedClosed(s), s.run.c);
  }

  lemma CloseOneMoves(s: State, c: ClientId)
    requires s.run == Doing(Shut) && c in s.clients
    ensures MovesOnly(s, OneClosed(s, c))
  {
    hide MovesOnly;
    OneMoves(s, OneClosed(s, c), c);
  }

  /** A step of Run that only moves between its own places, or closes a channel. */
  lemma MoveFed(s: State, a: Action)
    requires AllFed(s) && Enabled(s, a)
    requires a.SeeStop? || a.TakeRegister? || a.TakeUnregister? || a.Lock? || a.Unlock? || a.EndDelivery? || a.CloseDeleted?
          || a.CloseOne?
    ensures AllFed(RunNext(s, a))
  {
    MoveMoves(s, a);
    hide AllFed, MovesOnly, RunNext, Enabled;
    MovesFed(s, RunNext(s, a));
  }

  lemma MoveMoves(s: State, a: Action)
    requires Enabled(s, a)
    requires a.SeeStop? || a.TakeRegister? || a.TakeUnregister? || a.Lock? || a.Unlock? || a.EndDelivery? || a.CloseDeleted?
          || a.CloseOne?
    ensures MovesOnly(s, RunNext(s, a))
  {
    hide MovesOnly, RegisterTaken, UnregisterTaken, Locked, Unlocked, DeliveryEnded, DeletedClosed, OneClosed;
    if a.SeeStop? {
      SeeStopMoves(s);
    } else if a.TakeRegister? {
      RegisterMoves(s, a.c);
    } else if a.TakeUnregister? {
      UnregisterMoves(s, a.c, a.fromWriter);
    } else if a.Lock? {
      LockMoves(s);
    } else if a.Unlock? {
      UnlockMoves(s);
    } else if a.EndDelivery? {
      EndMoves(s);
    } else if a.CloseDeleted? {
      CloseDeletedMoves(s);
    } else {
      CloseOneMoves(s, a.c);
    }
  }

  lemma TakeFed(s: State, a: Action)
    requires AllFed(s) && Enabled(s, a) && a.TakeBroadcast?
    ensures AllFed(RunNext(s, a))
  {
    hide Fed;
    var t := RunNext(s, a);
    forall c | c in t.clients ensures FedIn(t, c) {
      assert FedIn(s, c);
      if c in s.members {
        assert Due(t, c) == s.processed == Due(s, c);
        FedMember(s.clients[c], Due(s, c), s.processed, t.processed);
      } else {
        FedLater(s.clients[c], s.processed, Due(s, c), s.broadcast[0]);
      }
    }
  }

  /** For a client in the map only what is due matters. */
  lemma FedMember(k: Client, due: seq<string>, processed: seq<string>, processed': seq<string>)
    requires Fed(k, true, due, processed)
    ensures Fed(k, true, due, processed')
  {
    hide HubTexts;
  }

  lemma InsertFed(s: State, a: Action)
    requires Safe(s) && AllFed(s) && Enabled(s, a) && a.Insert?
    ensures AllFed(RunNext(s, a))
  {
    assert Unjoined(s, s.run.job.c);
    hide Safe, Fed;
    var t := RunNext(s, a);
    forall c | c in t.clients ensures FedIn(t, c) {
      assert FedIn(s, c);
      if c == s.run.job.c {
        FedJoined(s.clients[c], false, Due(s, c), s.processed);
      } else {
        DueFrame(s, t, c);
        FedFrame(s, t, c);
      }
    }
  }

  /** Taking a client out of the map leaves the channels and what the others are due alone. */
  lemma DeleteEffect(s: State, a: Action)
    requires Safe(s) && InFlightOk(s) && Enabled(s, a) && (a.Delete? || a.Remove?)
    ensures var t := RunNext(s, a);
            && t.clients == s.clients && t.processed == s.processed && t.members <= s.members && InFlightOk(t)
            && forall c :: c in t.members ==> (Pending(s.run, c) <==> Pending(t.run, c))
  {
    hide LockOk, ClientOk;
  }

  lemma DeleteFed(s: State, a: Action)
    requires Safe(s) && AllFed(s) && Enabled(s, a) && (a.Delete? || a.Remove?)
    ensures AllFed(RunNext(s, a))
  {
    DeleteEffect(s, a);
    hide Safe, Fed, RunNext, Pending, InFlightOk, Enabled;
    var t := RunNext(s, a);
    forall c | c in t.clients ensures FedIn(t, c) {
      assert FedIn(s, c);
      if c in s.members && c !in t.members {
        FedRemoved(s.clients[c], Due(s, c), s.processed);
      } else {
        DueFrame(s, t, c);
        FedFrame(s, t, c);
      }
    }
  }

  /** Handing the broadcast in flight to one client, or giving up on it. */
  lemma DeliverEffect(s: State, a: Action)
    requires Safe(s) && InFlightOk(s) && Enabled(s, a) && a.DeliverTo?
    ensures a.c in s.members && s.clients[a.c].joined.Some? && InFlight(s.run).Some?
    ensures var t, k, text := RunNext(s, a), s.clients[a.c], InFlight(s.run).value;
            && t.processed == s.processed && t.members == s.members && InFlightOk(t)
            && Pending(s.run, a.c) && (HasRoom(s, a.c) <==> !Pending(t.run, a.c))
            && (forall c :: c in s.members && c != a.c ==> (Pending(s.run, c) <==> Pending(t.run, c)))
            && (HasRoom(s, a.c) ==>
                  t.clients == s.clients[a.c := k.(queue := k.queue + [FromHub(text)], sent := k.sent + [FromHub(text)])])
            && (!HasRoom(s, a.c) ==> t.clients == s.clients)
  {
    hide LockOk;
    assert ClientOk(s, a.c);
  }

  lemma DueNow(s: State, t: State, c: ClientId)
    requires c in s.members && Pending(s.run, c) && !Pending(t.run, c) && t.processed == s.processed
    requires InFlight(s.run).Some? && InFlightOk(s)
    ensures Due(s, c) + [InFlight(s.run).value] == s.processed == Due(t, c)
  {
    hide Pending, InFlight;
  }

  lemma DeliverFed(s: State, a: Action)
    requires Safe(s) && AllFed(s) && Enabled(s, a) && a.DeliverTo?
    ensures AllFed(RunNext(s, a))
  {
    DeliverEffect(s, a);
    assert a.c in s.clients;
    hide Safe, Fed, RunNext, Pending, InFlight, Enabled, HasRoom, Due;
    var t, text := RunNext(s, a), InFlight(s.run).value;
    forall c | c in t.clients ensures FedIn(t, c) {
      assert FedIn(s, c);
      if c == a.c && HasRoom(s, c) {
        DueNow(s, t, c);
        FedSend(s.clients[c], Due(s, c), s.processed, s.processed, FromHub(text));
      } else {
        DueFrame(s, t, c);
        FedFrame(s, t, c);
      }
    }
  }

  lemma NextFed(s: State, a: Action)
    requires Safe(s) && AllFed(s) && Enabled(s, a)
    ensures AllFed(Next(s, a))
  {
    hide Safe, AllFed, Enabled, RunNext, OtherNext;
    if a.Forward? {
      ForwardFed(s, a);
    } else if a.Dial? {
      DialFed(s, a);
    } else if !ByRun(a) {
      OtherFed(s, a);
    } else if a.DeliverTo? {
      DeliverFed(s, a);
    } else if a.Insert? {
      InsertFed(s, a);
    } else if a.Delete? || a.Remove? {
      DeleteFed(s, a);
    } else if a.TakeBroadcast? {
      TakeFed(s, a);
    } else {
      MoveFed(s, a);
    }
  }

  lemma {:induction false} RunFed(states: seq<State>, actions: seq<Action>, n: nat)
    requires Run(states, actions) && n <= |actions|
    ensures AllFed(states[n])
  {
    hide Safe, AllFed, Next, Enabled;
    if n == 0 {
      assert AllFed(START) by { StartFed(); }
    } else {
      RunFed(states, actions, n - 1);
      RunSafe(states, actions, n - 1);
      assert Enabled(states[n - 1], actions[n - 1]) && states[n - 1 + 1] == Next(states[n - 1], actions[n - 1]);
      NextFed(states[n - 1], actions[n - 1]);
    }
  }

  lemma StartFed()
    ensures AllFed(START)
  {
  }

  /**
   * Between Run's iterations, what a client in the map has consumed and what is queued for it hold exactly the broadcasts
   * Run took since adding it, in order; for a client no longer in the map, a prefix of those.
   */
  lemma GapFree(states: seq<State>, actions: seq<Action>, n: nat, c: ClientId)
    requires Run(states, actions) && n <= |actions| && states[n].run == Select
    requires c in states[n].clients && states[n].clients[c].joined.Some?
    ensures var s, k := states[n], states[n].clients[c];
            && k.joined.value <= |s.processed|
            && (c in s.members ==> HubTexts(k.consumed + k.queue) == s.processed[k.joined.value..])
            && (c !in s.members ==> HubTexts(k.consumed + k.queue) <= s.processed[k.joined.value..])
  {
    RunFed(states, actions, n);
    assert FedIn(states[n], c);
  }
}
