/** How the pumps of a client end, in every interleaving. */
module HubPumps {
  import opened Hub
  import opened HubSafety
  import opened Options
  import HubDelivery
  import HubPeers

  /** One of c's pumps, the write pump or the read pump, has handed in its client's unregistration. */
  ghost predicate HandedIn(actions: seq<Action>, n: nat, c: ClientId, fromWriter: bool) {
    exists m :: 0 <= m < n <= |actions| && actions[m] == TakeUnregister(c, fromWriter)
  }

  predicate Signed(k: Client, byReader: bool, byWriter: bool) {
    && (k.reader == ReaderDone ==> byReader)
    && (k.writer == WriterDone ==> byWriter || k.closed)
    && (k.writer == Writing(false) ==> k.closed)
  }

  lemma OwnSigned(k: Client, a: Action, byReader: bool, byWriter: bool)
    requires IsOwn(a) && (a.WriteOk? ==> k.writer.Writing?) && (a.Receive? && k.queue == [] ==> k.closed)
    requires Signed(k, byReader, byWriter)
    ensures Signed(Own(k, a), byReader, byWriter)
  {
  }

  lemma PumpSigned(s: State, a: Action, c: ClientId, byReader: bool, byWriter: bool)
    requires Enabled(s, a) && !ByRun(a) && !a.Dial? && !a.Forward?
    requires c in s.clients && Signed(s.clients[c], byReader, byWriter)
    ensures c in OtherNext(s, a).clients && Signed(OtherNext(s, a).clients[c], byReader, byWriter)
  {
    hide Own, OtherNext, Enabled, Signed;
    if a.Publish? || a.RequestStop? || a.c != c {
      HubPeers.Bystander(s, a, c);
    } else if IsOwn(a) {
      HubPeers.OwnStep(s, a);
      OwnSigned(s.clients[c], a, byReader, byWriter);
    } else {
      LockSigned(s, a, byReader, byWriter);
    }
  }

  lemma LockSigned(s: State, a: Action, byReader: bool, byWriter: bool)
    requires Enabled(s, a) && (a.PumpLock? || a.PumpUnlock?) && Signed(s.clients[a.c], byReader, byWriter)
    ensures a.c in OtherNext(s, a).clients && Signed(OtherNext(s, a).clients[a.c], byReader, byWriter)
  {
  }

  lemma ForwardSigned(s: State, a: Action, c: ClientId, byReader: bool, byWriter: bool)
    requires Safe(s) && Enabled(s, a) && a.Forward? && c in s.clients && Signed(s.clients[c], byReader, byWriter)
    ensures c in OtherNext(s, a).clients && Signed(OtherNext(s, a).clients[c], byReader, byWriter)
  {
    HubDelivery.ForwardEffect(s, a);
    hide Safe, OtherNext, Enabled, Forwarded;
  }

  lemma UnregisterSigned(s: State, x: ClientId, fromWriter: bool, c: ClientId, byReader: bool, byWriter: bool)
    requires x in s.clients && c in s.clients && Signed(s.clients[c], byReader, byWriter)
    ensures c in UnregisterTaken(s, x, fromWriter).clients
    ensures Signed(UnregisterTaken(s, x, fromWriter).clients[c],
                   byReader || (x == c && !fromWriter), byWriter || (x == c && fromWriter))
  {
  }

  lemma RegisterSigned(s: State, x: ClientId, c: ClientId, byReader: bool, byWriter: bool)
    requires x in s.clients && c in s.clients && Signed(s.clients[c], byReader, byWriter)
    ensures c in RegisterTaken(s, x).clients && Signed(RegisterTaken(s, x).clients[c], byReader, byWriter)
  {
  }

  lemma InsertSigned(s: State, c: ClientId, byReader: bool, byWriter: bool)
    requires s.run.Doing? && s.run.job.Admit? && c in s.clients && Signed(s.clients[c], byReader, byWriter)
    ensures c in Inserted(s).clients && Signed(Inserted(s).clients[c], byReader, byWriter)
  {
  }

  lemma CloseSigned(s: State, x: ClientId, c: ClientId, byReader: bool, byWriter: bool)
    requires x in s.clients && c in s.clients && Signed(s.clients[c], byReader, byWriter)
    ensures c in CloseChannel(s, x).clients && Signed(CloseChannel(s, x).clients[c], byReader, byWriter)
  {
  }

  lemma DeliverSigned(s: State, x: ClientId, c: ClientId, byReader: bool, byWriter: bool)
    requires s.run.Doing? && s.run.job.Deliver? && x in s.clients
    requires c in s.clients && Signed(s.clients[c], byReader, byWriter)
    ensures c in Delivered(s, x).clients && Signed(Delivered(s, x).clients[c], byReader, byWriter)
  {
  }

  lemma RunSigned(s: State, a: Action, c: ClientId, byReader: bool, byWriter: bool)
    requires Enabled(s, a) && ByRun(a) && c in s.clients && Signed(s.clients[c], byReader, byWriter)
    ensures c in RunNext(s, a).clients
    ensures Signed(RunNext(s, a).clients[c], byReader || a == TakeUnregister(c, false), byWriter || a == TakeUnregister(c, true))
  {
    hide Signed, RegisterTaken, UnregisterTaken, Inserted, CloseChannel, Delivered, Deleted, Removed, Locked, Unlocked,
      DeliveryEnded;
    if a.TakeRegister? {
      RegisterSigned(s, a.c, c, byReader, byWriter);
    } else if a.TakeUnregister? {
      UnregisterSigned(s, a.c, a.fromWriter, c, byReader, byWriter);
    } else if a.Insert? {
      InsertSigned(s, c, byReader, byWriter);
    } else if a.CloseDeleted? {
      CloseSigned(s, s.run.c, c, byReader, byWriter);
    } else if a.CloseOne? {
      CloseSigned(s, a.c, c, byReader, byWriter);
    } else if a.DeliverTo? {
      DeliverSigned(s, a.c, c, byReader, byWriter);
    }
  }

  lemma DialSigned(s: State, x: ClientId, c: ClientId, byReader: bool, byWriter: bool)
    requires Enabled(s, Dial(x)) && c in OtherNext(s, Dial(x)).clients
    requires c in s.clients ==> Signed(s.clients[c], byReader, byWriter)
    ensures Signed(OtherNext(s, Dial(x)).clients[c], byReader, byWriter)
  {
  }

  lemma StepSigned(s: State, a: Action, c: ClientId, byReader: bool, byWriter: bool)
    requires Safe(s) && Enabled(s, a) && c in Next(s, a).clients
    requires c in s.clients ==> Signed(s.clients[c], byReader, byWriter)
    ensures Signed(Next(s, a).clients[c], byReader || a == TakeUnregister(c, false), byWriter || a == TakeUnregister(c, true))
  {
    hide Safe, Enabled, RunNext, OtherNext, Signed;
    if ByRun(a) {
      HubPeers.RunEffect(s, a);
      RunSigned(s, a, c, byReader, byWriter);
    } else if a.Dial? {
      DialSigned(s, a.c, c, byReader, byWriter);
    } else if a.Forward? {
      HubDelivery.ForwardEffect(s, a);
      ForwardSigned(s, a, c, byReader, byWriter);
    } else {
      HubPeers.PumpKeepsClients(s, a);
      PumpSigned(s, a, c, byReader, byWriter);
    }
  }

  /** A read pump ends only by unregistering its client, a write pump by unregistering it or when its channel was closed. */
  lemma {:induction false} PumpsUnregister(states: seq<State>, actions: seq<Action>, n: nat, c: ClientId)
    requires Run(states, actions) && n <= |actions| && c in states[n].clients
    ensures Signed(states[n].clients[c], HandedIn(actions, n, c, false), HandedIn(actions, n, c, true))
  {
    hide Next, Enabled, Signed;
    if n > 0 {
      var s, a := states[n - 1], actions[n - 1];
      RunSafe(states, actions, n - 1);
      hide Safe;
      assert Enabled(s, a) && states[n - 1 + 1] == Next(s, a);
      if c in s.clients { PumpsUnregister(states, actions, n - 1, c); }
      StepSigned(s, a, c, HandedIn(actions, n - 1, c, false), HandedIn(actions, n - 1, c, true));
      HandedInLater(actions, n - 1, c, false);
      HandedInLater(actions, n - 1, c, true);
    }
  }

  lemma HandedInLater(actions: seq<Action>, n: nat, c: ClientId, fromWriter: bool)
    requires n < |actions|
    ensures HandedIn(actions, n + 1, c, fromWriter)
       <==> HandedIn(actions, n, c, fromWriter) || actions[n] == TakeUnregister(c, fromWriter)
  {
  }
}
