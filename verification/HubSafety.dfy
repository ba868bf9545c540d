/** What holds in every interleaving of the hub: no panic, exclusion, and channels closed exactly once. */
module HubSafety {
  import opened Hub
  import opened Options

  /** The mutex is held by whoever is between taking and releasing it, and never for writing with anyone else. */
  ghost predicate LockOk(s: State) {
    && (s.writeHeld <==> HoldsWrite(s.run))
    && (RunLoop in s.readers <==> s.run.Doing? && s.run.job.Deliver?)
    && (forall c :: Pump(c) in s.readers <==> c in s.clients && s.clients[c].reader.Forwarding?)
    && (s.writeHeld ==> s.readers == {})
  }

  /** A client not yet added to the map. */
  predicate Unjoined(s: State, c: ClientId) {
    c in s.clients && c !in s.members && !s.clients[c].closed && s.clients[c].joined.None? && s.clients[c].serve != Registering
  }

  predicate AfterOk(s: State, after: After) {
    && (after.ToDeliver? ==> after.todo <= s.members)
    && (after.ToExit? ==> s.members == {})
  }

  predicate JobOk(s: State, job: Job) {
    match job
    case Admit(c) => Unjoined(s, c)
    case Drop(c) => c in s.clients
    case Shut => true
    case Announce(_) => true
    case Deliver(_, todo) => todo <= s.members
    case Evict(c, _, todo) => todo <= s.members && c in s.members && c !in todo
  }

  predicate RunOk(s: State) {
    match s.run
    case Select => true
    case Waiting(job) => JobOk(s, job)
    case Doing(job) => JobOk(s, job) && !job.Announce?
    case Closing(c, after) =>
      c in s.clients && c !in s.members && !s.clients[c].closed && s.clients[c].joined.Some? && AfterOk(s, after) && !after.ToExit?
    case Removing(c) => c in s.members && c in s.clients && s.clients[c].closed
    case Leaving(after) => AfterOk(s, after)
    case Exited => s.members == {} && s.done
  }

  predicate ClientOk(s: State, c: ClientId)
    requires c in s.clients
  {
    var k := s.clients[c];
    && k.closes == (if k.closed then 1 else 0)
    && (k.closed ==> k.joined.Some?)
    && (c in s.members ==> k.joined.Some? && (k.closed ==> s.run == Removing(c)))
    && (k.joined.Some? && c !in s.members && !k.closed ==> s.run.Closing? && s.run.c == c)
    && (k.serve == Registering ==> c !in s.members && k.joined.None? && k.reader == ReaderIdle && k.writer == WriterIdle)
    && (k.serve == Starting ==> k.reader == ReaderIdle && k.writer == WriterIdle)
    && (k.reader.Forwarding? ==> k.reader.todo <= s.members && c !in k.reader.todo)
  }

  ghost predicate Safe(s: State) {
    && !s.panicked
    && LockOk(s)
    && s.members <= s.clients.Keys
    && RunOk(s)
    && forall c :: c in s.clients ==> ClientOk(s, c)
  }

  lemma StartSafe()
    ensures Safe(START)
  {
  }

  // ---- callers and pumps ----

  /** A client a step leaves alone, unless the step takes Run away from closing or removing it. */
  lemma ClientOkFrame(s: State, t: State, c: ClientId)
    requires c in s.clients && ClientOk(s, c) && c in t.clients && t.clients[c] == s.clients[c] && t.members == s.members
    requires s.run == Removing(c) ==> t.run == Removing(c)
    requires s.run.Closing? && s.run.c == c ==> t.run.Closing? && t.run.c == c
    ensures ClientOk(t, c)
  {
  }

  /** A step within one client's pumps that takes no lock and touches no channel but to receive from it. */
  lemma PrivateSafe(s: State, c: ClientId, k: Client)
    requires Safe(s) && c in s.clients
    requires var was := s.clients[c];
             && k.closed == was.closed && k.closes == was.closes && k.joined == was.joined
             && (k.reader.Forwarding? || was.reader.Forwarding? ==> k.reader == was.reader)
             && was.serve != Registering && k.serve != Registering
             && (k.serve == Starting ==> k.reader == ReaderIdle && k.writer == WriterIdle)
    ensures Safe(Set(s, c, k))
  {
    var t := Set(s, c, k);
    forall d | d in t.clients ensures ClientOk(t, d) {
      assert ClientOk(s, d);
    }
  }

  lemma DialSafe(s: State, c: ClientId)
    requires Safe(s) && c !in s.clients
    ensures Safe(Set(s, c, NEW_CLIENT))
  {
    var t := Set(s, c, NEW_CLIENT);
    forall d | d in t.clients ensures ClientOk(t, d) {
      if d != c { assert ClientOk(s, d); }
    }
  }

  lemma ForwardingLocked(s: State, c: ClientId, reader: ReaderPc, readers: set<Thread>)
    requires LockOk(s) && c in s.clients && (reader.Forwarding? ==> !s.writeHeld)
    requires readers == if reader.Forwarding? then s.readers + {Pump(c)} else s.readers - {Pump(c)}
    ensures LockOk(Set(s, c, s.clients[c].(reader := reader)).(readers := readers))
  {
    var t := Set(s, c, s.clients[c].(reader := reader)).(readers := readers);
    forall d ensures Pump(d) in t.readers <==> d in t.clients && t.clients[d].reader.Forwarding? {
      assert Pump(d) in s.readers <==> d in s.clients && s.clients[d].reader.Forwarding?;
    }
  }

  /** A pump's own position in its forwarding loop, with the mutex taken or released to match. */
  lemma ForwardingSafe(s: State, c: ClientId, reader: ReaderPc, readers: set<Thread>)
    requires Safe(s) && c in s.clients && s.clients[c].serve == Served
    requires reader.Forwarding? ==> reader.todo <= s.members && c !in reader.todo && !s.writeHeld
    requires readers == if reader.Forwarding? then s.readers + {Pump(c)} else s.readers - {Pump(c)}
    ensures Safe(Set(s, c, s.clients[c].(reader := reader)).(readers := readers))
  {
    hide LockOk;
    var t := Set(s, c, s.clients[c].(reader := reader)).(readers := readers);
    ForwardingLocked(s, c, reader, readers);
    forall d | d in t.clients ensures ClientOk(t, d) {
      assert ClientOk(s, d);
    }
  }

  /** Putting an item in an open channel. */
  lemma SendSafe(s: State, c: ClientId, item: Item)
    requires Safe(s) && c in s.clients && HasRoom(s, c) && !s.clients[c].closed
    ensures Safe(Send(s, c, item))
  {
    var t := Send(s, c, item);
    forall d | d in t.clients ensures ClientOk(t, d) {
      assert ClientOk(s, d);
    }
  }

  lemma PumpLockSafe(s: State, a: Action)
    requires Safe(s) && Enabled(s, a) && (a.PumpLock? || a.PumpUnlock?)
    ensures Safe(OtherNext(s, a))
  {
    hide LockOk, RunOk;
    assert ClientOk(s, a.c);
    var t := OtherNext(s, a);
    ForwardingSafe(s, a.c, t.clients[a.c].reader, t.readers);
  }

  /** While a pump forwards, the mutex keeps Run from closing the channels of the clients in the map. */
  lemma ForwardSafe(s: State, a: Action)
    requires Safe(s) && Enabled(s, a) && a.Forward?
    ensures Safe(OtherNext(s, a))
  {
    hide RunOk;
    var c, k := a.c, s.clients[a.c];
    assert Pump(c) in s.readers;
    assert ClientOk(s, c) && ClientOk(s, a.to);
    var rest := Set(s, c, k.(reader := Forwarding(k.reader.text, k.reader.todo - {a.to})));
    assert s.readers + {Pump(c)} == s.readers && rest == rest.(readers := s.readers);
    ForwardingSafe(s, c, rest.clients[c].reader, s.readers);
    if HasRoom(rest, a.to) { SendSafe(rest, a.to, FromPeer(c, k.reader.text)); }
  }

  lemma OtherSafe(s: State, a: Action)
    requires Safe(s) && Enabled(s, a) && !ByRun(a)
    ensures Safe(OtherNext(s, a))
  {
    hide LockOk, RunOk;
    if a.Publish? || a.RequestStop? {
      QueueSafe(s, OtherNext(s, a));
    } else if a.Dial? {
      DialSafe(s, a.c);
    } else if a.Forward? {
      ForwardSafe(s, a);
    } else if a.PumpLock? || a.PumpUnlock? {
      PumpLockSafe(s, a);
    } else {
      assert ClientOk(s, a.c);
      PrivateSafe(s, a.c, OtherNext(s, a).clients[a.c]);
    }
  }

  lemma QueueSafe(s: State, t: State)
    requires Safe(s) && t == s.(broadcast := t.broadcast, stop := t.stop)
    ensures Safe(t)
  {
    hide ClientOk;
    forall d | d in t.clients ensures ClientOk(t, d) {
      ClientOkFrame(s, t, d);
    }
  }

  // ---- Run ----

  /** Leaving the select for a job that asks no more of the map than what there is. */
  lemma WaitSafe(s: State, job: Job)
    requires Safe(s) && s.run == Select && (job.Shut? || (job.Drop? && job.c in s.clients))
    ensures Safe(s.(run := Waiting(job)))
  {
    hide ClientOk;
    var t := s.(run := Waiting(job));
    forall d | d in t.clients ensures ClientOk(t, d) {
      ClientOkFrame(s, t, d);
    }
  }

  lemma TakeRegisterSafe(s: State, c: ClientId)
    requires Safe(s) && s.run == Select && c in s.clients && s.clients[c].serve == Registering
    ensures Safe(RegisterTaken(s, c))
  {
    assert ClientOk(s, c);
    var t := RegisterTaken(s, c);
    forall d | d in t.clients ensures ClientOk(t, d) {
      assert ClientOk(s, d);
    }
  }

  lemma TakeUnregisterSafe(s: State, c: ClientId, fromWriter: bool)
    requires Safe(s) && Enabled(s, TakeUnregister(c, fromWriter))
    ensures Safe(UnregisterTaken(s, c, fromWriter))
  {
    hide Safe;
    var k := UnregisterTaken(s, c, fromWriter).clients[c];
    UnregisteringServed(s, c);
    PrivateSafe(s, c, k);
    WaitSafe(Set(s, c, k), Drop(c));
  }

  lemma UnregisteringServed(s: State, c: ClientId)
    requires Safe(s) && c in s.clients
    requires s.clients[c].writer == WriterUnregistering || s.clients[c].reader == ReaderUnregistering
    ensures s.clients[c].serve == Served
  {
    assert ClientOk(s, c);
  }

  lemma TakeBroadcastSafe(s: State)
    requires Safe(s) && s.run == Select && s.broadcast != []
    ensures Safe(BroadcastTaken(s))
  {
    hide ClientOk;
    var t := BroadcastTaken(s);
    forall d | d in t.clients ensures ClientOk(t, d) {
      ClientOkFrame(s, t, d);
    }
  }

  lemma LockSafe(s: State)
    requires Safe(s) && Enabled(s, Lock)
    ensures Safe(Locked(s))
  {
    hide ClientOk;
    var t := Locked(s);
    forall d | d in t.clients ensures ClientOk(t, d) {
      ClientOkFrame(s, t, d);
    }
  }

  lemma UnlockSafe(s: State)
    requires Safe(s) && s.run.Leaving?
    ensures Safe(Unlocked(s))
  {
    hide ClientOk;
    var t := Unlocked(s);
    forall d | d in t.clients ensures ClientOk(t, d) {
      ClientOkFrame(s, t, d);
    }
  }

  lemma EndDeliverySafe(s: State)
    requires Safe(s) && Enabled(s, EndDelivery)
    ensures Safe(DeliveryEnded(s))
  {
    hide ClientOk;
    var t := DeliveryEnded(s);
    forall d | d in t.clients ensures ClientOk(t, d) {
      ClientOkFrame(s, t, d);
    }
  }

  /** While Run holds the mutex for writing no pump is forwarding. */
  lemma NoneForwarding(s: State, d: ClientId)
    requires Safe(s) && HoldsWrite(s.run) && d in s.clients
    ensures !s.clients[d].reader.Forwarding?
  {
    assert s.clients[d].reader.Forwarding? ==> Pump(d) in s.readers;
  }

  lemma InsertSafe(s: State)
    requires Safe(s) && s.run.Doing? && s.run.job.Admit?
    ensures Safe(Inserted(s))
  {
    var t := Inserted(s);
    forall d | d in t.clients ensures ClientOk(t, d) {
      assert ClientOk(s, d);
      NoneForwarding(s, d);
    }
  }

  lemma DeleteSafe(s: State)
    requires Safe(s) && s.run.Doing? && (s.run.job.Drop? || s.run.job.Evict?)
    ensures Safe(Deleted(s))
  {
    var t := Deleted(s);
    forall d | d in t.clients ensures ClientOk(t, d) {
      assert ClientOk(s, d);
      NoneForwarding(s, d);
    }
  }

  lemma RemoveSafe(s: State)
    requires Safe(s) && s.run.Removing?
    ensures Safe(Removed(s))
  {
    var t := Removed(s);
    forall d | d in t.clients ensures ClientOk(t, d) {
      assert ClientOk(s, d);
      NoneForwarding(s, d);
    }
  }

  lemma CloseDeletedSafe(s: State)
    requires Safe(s) && s.run.Closing? && s.run.c in s.clients
    ensures Safe(DeletedClosed(s))
  {
    var t := DeletedClosed(s);
    forall d | d in t.clients ensures ClientOk(t, d) {
      assert ClientOk(s, d);
    }
  }

  lemma CloseOneSafe(s: State, c: ClientId)
    requires Safe(s) && s.run == Doing(Shut) && c in s.members && c in s.clients
    ensures Safe(OneClosed(s, c))
  {
    assert ClientOk(s, c);
    var t := OneClosed(s, c);
    forall d | d in t.clients ensures ClientOk(t, d) {
      assert ClientOk(s, d);
    }
  }

  lemma DeliverSafe(s: State, c: ClientId)
    requires Safe(s) && Enabled(s, DeliverTo(c))
    ensures Safe(Delivered(s, c))
  {
    assert ClientOk(s, c);
    var job := s.run.job;
    if HasRoom(s, c) {
      SendSafe(s, c, FromHub(job.text));
      FewerToDo(Send(s, c, FromHub(job.text)), job.text, job.todo, c);
    } else {
      GiveUp(s, c);
    }
  }

  lemma FewerToDo(s: State, text: string, todo: set<ClientId>, c: ClientId)
    requires Safe(s) && s.run == Doing(Deliver(text, todo))
    ensures Safe(s.(run := Doing(Deliver(text, todo - {c}))))
  {
    hide ClientOk;
    var t := s.(run := Doing(Deliver(text, todo - {c})));
    forall d | d in t.clients ensures ClientOk(t, d) {
      ClientOkFrame(s, t, d);
    }
  }

  /** The queue of c is full: Run lets go of the mutex to come back for writing. */
  lemma GiveUp(s: State, c: ClientId)
    requires Safe(s) && s.run.Doing? && s.run.job.Deliver? && c in s.run.job.todo
    ensures Safe(s.(readers := s.readers - {RunLoop}, run := Waiting(Evict(c, s.run.job.text, s.run.job.todo - {c}))))
  {
    hide ClientOk;
    var t := s.(readers := s.readers - {RunLoop}, run := Waiting(Evict(c, s.run.job.text, s.run.job.todo - {c})));
    forall d | d in t.clients ensures ClientOk(t, d) {
      ClientOkFrame(s, t, d);
    }
  }

  lemma RunNextSafe(s: State, a: Action)
    requires Safe(s) && Enabled(s, a) && ByRun(a)
    ensures Safe(RunNext(s, a))
  {
    hide Safe, Set, RegisterTaken, UnregisterTaken, BroadcastTaken, Locked, Unlocked, Inserted, Deleted, DeletedClosed,
      OneClosed, Removed, Delivered, DeliveryEnded;
    if a.SeeStop? {
      WaitSafe(s, Shut);
    } else if a.TakeRegister? {
      TakeRegisterSafe(s, a.c);
    } else if a.TakeUnregister? {
      TakeUnregisterSafe(s, a.c, a.fromWriter);
    } else if a.TakeBroadcast? {
      TakeBroadcastSafe(s);
    } else if a.Lock? {
      LockSafe(s);
    } else if a.Unlock? {
      UnlockSafe(s);
    } else if a.Insert? {
      InsertSafe(s);
    } else if a.Delete? {
      DeleteSafe(s);
    } else if a.CloseDeleted? {
      CloseDeletedSafe(s);
    } else if a.CloseOne? {
      CloseOneSafe(s, a.c);
    } else if a.Remove? {
      RemoveSafe(s);
    } else if a.DeliverTo? {
      DeliverSafe(s, a.c);
    } else {
      EndDeliverySafe(s);
    }
  }

  lemma NextSafe(s: State, a: Action)
    requires Safe(s) && Enabled(s, a)
    ensures Safe(Next(s, a))
  {
    hide Safe, Enabled, RunNext, OtherNext;
    if ByRun(a) { RunNextSafe(s, a); } else { OtherSafe(s, a); }
  }

  lemma {:induction false} RunSafe(states: seq<State>, actions: seq<Action>, n: nat)
    requires Run(states, actions) && n <= |actions|
    ensures Safe(states[n])
  {
    hide Safe, Next, Enabled;
    if n == 0 {
      StartSafe();
    } else {
      RunSafe(states, actions, n - 1);
      assert Enabled(states[n - 1], actions[n - 1]) && states[n - 1 + 1] == Next(states[n - 1], actions[n - 1]);
      NextSafe(states[n - 1], actions[n - 1]);
    }
  }

  /**
   * In every interleaving: nothing panics; a client in the map has an open channel, but for the moment in which Run,
   * alone under the mutex, is shutting it down; no channel is closed twice; and Run writes the map only while no pump reads it.
   */
  lemma NeverPanics(states: seq<State>, actions: seq<Action>, n: nat)
    requires Run(states, actions) && n <= |actions|
    ensures var s := states[n];
            && !s.panicked
            && (s.writeHeld ==> s.readers == {})
            && s.members <= s.clients.Keys
            && (forall c :: c in s.members && s.clients[c].closed ==> s.run == Removing(c) && s.writeHeld)
            && (forall c :: c in s.clients ==> s.clients[c].closes <= 1)
  {
    RunSafe(states, actions, n);
    var s := states[n];
    forall c | c in s.clients ensures s.clients[c].closes <= 1 { assert ClientOk(s, c); }
    forall c | c in s.members && s.clients[c].closed ensures s.run == Removing(c) { assert ClientOk(s, c); }
  }

  /** Once Run has exited the map is empty and every client it ever added has had its channel closed exactly once. */
  lemma AfterExit(states: seq<State>, actions: seq<Action>, n: nat)
    requires Run(states, actions) && n <= |actions| && states[n].run == Exited
    ensures var s := states[n];
            && s.members == {} && s.done
            && forall c :: c in s.clients && s.clients[c].joined.Some? ==> s.clients[c].closed && s.clients[c].closes == 1
  {
    RunSafe(states, actions, n);
    var s := states[n];
    forall c | c in s.clients && s.clients[c].joined.Some? ensures s.clients[c].closed && s.clients[c].closes == 1 {
      assert ClientOk(s, c);
    }
  }
}
