/** What the read pumps pass between clients, and where the hub's own broadcasts come from, in every interleaving. */
module HubPeers {
  import opened Hub
  import opened HubSafety
  import opened Options
  import HubDelivery

  /** The messages of one sender among some items, in order. */
  function PeerTexts(items: seq<Item>, sender: ClientId): seq<string> {
    if items == [] then []
    else
      var before, last := PeerTexts(items[..|items| - 1], sender), items[|items| - 1];
      if last.FromPeer? && last.sender == sender then before + [last.text] else before
  }

  /** a is b with some members left out. */
  predicate Subsequence(a: seq<string>, b: seq<string>) {
    a == [] ||
    (b != [] &&
     (Subsequence(a, b[..|b| - 1])
      || (a[|a| - 1] == b[|b| - 1] && Subsequence(a[..|a| - 1], b[..|b| - 1]))))
  }

  /** The text a pump has read and not finished handing round. */
  function InHand(reader: ReaderPc): Option<string> {
    match reader
    case WantsLock(text) => Some(text)
    case Forwarding(text, _) => Some(text)
    case _ => None
  }

  /** What sender's pump has read that may already have reached c. */
  function Offered(k: Client, c: ClientId): seq<string> {
    if k.heard != [] && (k.reader.WantsLock? || (k.reader.Forwarding? && c in k.reader.todo))
    then k.heard[..|k.heard| - 1] else k.heard
  }

  /** A client gets nothing of its own, nothing from strangers, and from each other client some of what that one sent, in order. */
  predicate FromSender(s: State, c: ClientId, sender: ClientId)
    requires c in s.clients
  {
    var texts := PeerTexts(s.clients[c].sent, sender);
    if sender == c || sender !in s.clients then texts == []
    else Subsequence(texts, Offered(s.clients[sender], c))
  }

  predicate InHandOk(k: Client) {
    InHand(k.reader).Some? ==> k.heard != [] && k.heard[|k.heard| - 1] == InHand(k.reader).value
  }

  ghost predicate Peers(s: State) {
    && (forall c :: c in s.clients ==> InHandOk(s.clients[c]))
    && (forall c, sender :: c in s.clients ==> FromSender(s, c, sender))
  }

  lemma PeerTextsSnoc(items: seq<Item>, item: Item, sender: ClientId)
    ensures PeerTexts(items + [item], sender)
         == if item.FromPeer? && item.sender == sender then PeerTexts(items, sender) + [item.text] else PeerTexts(items, sender)
  {
    var more := items + [item];
    assert more[..|more| - 1] == items;
  }

  lemma SubsequenceGrows(a: seq<string>, b: seq<string>, x: string)
    requires Subsequence(a, b)
    ensures Subsequence(a, b + [x]) && Subsequence(a + [x], b + [x])
  {
    var b', a' := b + [x], a + [x];
    assert b'[..|b'| - 1] == b && a'[..|a'| - 1] == a;
  }

  /** A step that leaves what c was sent and what sender has offered it alone. */
  lemma SenderFrame(s: State, t: State, c: ClientId, sender: ClientId)
    requires c in s.clients && c in t.clients && FromSender(s, c, sender)
    requires t.clients[c].sent == s.clients[c].sent
    requires sender in s.clients <==> sender in t.clients
    requires sender in s.clients && sender != c ==> Offered(t.clients[sender], c) == Offered(s.clients[sender], c)
    ensures FromSender(t, c, sender)
  {
    hide PeerTexts, Subsequence, Offered;
  }

  // ---- the steps ----

  /** One sender's messages in one client's channel, when a pump forwards from one client to another. */
  lemma ForwardSender(s: State, t: State, from: ClientId, to: ClientId, c: ClientId, sender: ClientId)
    requires HubDelivery.Passes(s, t, from, to) && InHandOk(s.clients[from]) && to in s.clients[from].reader.todo
    requires c in s.clients && FromSender(s, c, sender)
    ensures FromSender(t, c, sender)
  {
    hide PeerTexts, Subsequence, Offered, InHandOk;
    var text := s.clients[from].reader.text;
    if sender != from || c == from {
      PeerTextsSnoc(s.clients[c].sent, FromPeer(from, text), sender);
      OfferedSame(s, t, from, to, c, sender);
    } else if c != to {
      OfferedSame(s, t, from, to, c, sender);
      SenderFrame(s, t, c, sender);
    } else {
      OfferedNow(s, t, from, c);
      PeerTextsSnoc(s.clients[c].sent, FromPeer(from, text), sender);
      SubsequenceGrows(PeerTexts(s.clients[c].sent, sender), Offered(s.clients[from], c), text);
    }
  }

  lemma ForwardInHand(s: State, t: State, from: ClientId, to: ClientId, c: ClientId)
    requires HubDelivery.Passes(s, t, from, to) && c in s.clients && InHandOk(s.clients[c])
    ensures InHandOk(t.clients[c])
  {
  }

  lemma ForwardPeers(s: State, a: Action)
    requires Safe(s) && Peers(s) && Enabled(s, a) && a.Forward?
    ensures Peers(OtherNext(s, a))
  {
    HubDelivery.ForwardEffect(s, a);
    hide Safe, OtherNext, Forwarded, FromSender, InHandOk, HubDelivery.Passes;
    var t := OtherNext(s, a);
    assert a.to in s.clients[a.c].reader.todo;
    forall c | c in t.clients ensures InHandOk(t.clients[c]) { ForwardInHand(s, t, a.c, a.to, c); }
    forall c, sender | c in t.clients ensures FromSender(t, c, sender) {
      ForwardSender(s, t, a.c, a.to, c, sender);
    }
  }

  /** Forwarding to one client changes what is offered to no other, nor what anyone else offers. */
  lemma OfferedSame(s: State, t: State, from: ClientId, to: ClientId, c: ClientId, sender: ClientId)
    requires from in s.clients && from in t.clients && s.clients[from].reader.Forwarding?
    requires t.clients[from] == s.clients[from].(reader := Forwarding(s.clients[from].reader.text, s.clients[from].reader.todo - {to}))
    requires sender in s.clients <==> sender in t.clients
    requires sender in s.clients && sender != from ==>
               t.clients[sender].heard == s.clients[sender].heard && t.clients[sender].reader == s.clients[sender].reader
    requires sender == from ==> c != to
    ensures sender in s.clients ==> Offered(t.clients[sender], c) == Offered(s.clients[sender], c)
  {
  }

  lemma OfferedNow(s: State, t: State, from: ClientId, to: ClientId)
    requires from in s.clients && from in t.clients && s.clients[from].reader.Forwarding? && InHandOk(s.clients[from])
    requires to in s.clients[from].reader.todo
    requires t.clients[from] == s.clients[from].(reader := Forwarding(s.clients[from].reader.text, s.clients[from].reader.todo - {to}))
    ensures Offered(t.clients[from], to) == Offered(s.clients[from], to) + [s.clients[from].reader.text]
  {
  }

  lemma DialPeers(s: State, a: Action)
    requires Peers(s) && Enabled(s, a) && a.Dial?
    ensures Peers(OtherNext(s, a))
  {
    hide Subsequence;
    var t := OtherNext(s, a);
    forall c | c in t.clients ensures InHandOk(t.clients[c]) {
      if c in s.clients { assert InHandOk(s.clients[c]); }
    }
    forall c, sender | c in t.clients ensures FromSender(t, c, sender) {
      assert Subsequence([], Offered(t.clients[a.c], c)) by { NoneIsSubsequence(Offered(t.clients[a.c], c)); }
      if c == a.c {
        if sender in s.clients { NoneIsSubsequence(Offered(t.clients[sender], c)); }
      } else {
        assert FromSender(s, c, sender);
      }
    }
  }

  lemma NoneIsSubsequence(b: seq<string>)
    ensures Subsequence([], b)
  {
  }

  /** What the steps of one pump do to what it offers. */
  lemma OfferedStep(s: State, a: Action, sender: ClientId, c: ClientId)
    requires Enabled(s, a) && !ByRun(a) && !a.Dial? && !a.Forward? && sender in s.clients && InHandOk(s.clients[sender])
    requires s.clients[sender].serve == Starting ==> s.clients[sender].reader == ReaderIdle
    ensures sender in OtherNext(s, a).clients && InHandOk(OtherNext(s, a).clients[sender])
    ensures var before, after := Offered(s.clients[sender], c), Offered(OtherNext(s, a).clients[sender], c);
            after == before || exists x :: after == before + [x]
  {
    hide OtherNext, Enabled, InHandOk, Offered;
    if a.Publish? || a.RequestStop? || a.c != sender || (!a.PumpLock? && !a.PumpUnlock? && !a.Hear?) {
      OfferedKept(s, a, sender, c);
    } else {
      OfferedMoves(s, a, c);
    }
  }

  /** Reading a message offers nothing yet; taking the lock offers it to those the pump will not send it to. */
  lemma OfferedMoves(s: State, a: Action, c: ClientId)
    requires Enabled(s, a) && (a.PumpLock? || a.PumpUnlock? || a.Hear?) && InHandOk(s.clients[a.c])
    ensures a.c in OtherNext(s, a).clients && InHandOk(OtherNext(s, a).clients[a.c])
    ensures var before, after := Offered(s.clients[a.c], c), Offered(OtherNext(s, a).clients[a.c], c);
            after == before || exists x :: after == before + [x]
  {
    hide InHandOk, Offered;
    if a.Hear? {
      HearOffered(s.clients[a.c], a.text, c);
    } else if a.PumpLock? {
      LockOffered(s.clients[a.c], s.members - {a.c}, c);
    } else {
      UnlockOffered(s.clients[a.c], c);
    }
  }

  lemma HearOffered(k: Client, text: string, c: ClientId)
    requires k.reader == Reading
    ensures var k' := k.(heard := k.heard + [text], reader := WantsLock(text));
            InHandOk(k') && Offered(k', c) == Offered(k, c)
  {
    assert (k.heard + [text])[..|k.heard|] == k.heard;
  }

  lemma LockOffered(k: Client, todo: set<ClientId>, c: ClientId)
    requires k.reader.WantsLock? && InHandOk(k)
    ensures var k' := k.(reader := Forwarding(k.reader.text, todo));
            InHandOk(k') && (Offered(k', c) == Offered(k, c) || exists x :: Offered(k', c) == Offered(k, c) + [x])
  {
    assert k.heard == k.heard[..|k.heard| - 1] + [k.heard[|k.heard| - 1]];
  }

  lemma UnlockOffered(k: Client, c: ClientId)
    requires k.reader.Forwarding? && k.reader.todo == {}
    ensures var k' := k.(reader := Reading);
            InHandOk(k') && Offered(k', c) == Offered(k, c)
  {
  }

  lemma OfferedKept(s: State, a: Action, sender: ClientId, c: ClientId)
    requires Enabled(s, a) && !ByRun(a) && !a.Dial? && !a.Forward? && sender in s.clients && InHandOk(s.clients[sender])
    requires s.clients[sender].serve == Starting ==> s.clients[sender].reader == ReaderIdle
    requires a.Publish? || a.RequestStop? || a.c != sender || (!a.PumpLock? && !a.PumpUnlock? && !a.Hear?)
    ensures sender in OtherNext(s, a).clients && InHandOk(OtherNext(s, a).clients[sender])
    ensures Offered(OtherNext(s, a).clients[sender], c) == Offered(s.clients[sender], c)
  {
    hide Own;
    if a.Publish? || a.RequestStop? || a.c != sender {
      Bystander(s, a, sender);
    } else {
      OutOfHand(s.clients[sender], a);
    }
  }

  lemma Bystander(s: State, a: Action, d: ClientId)
    requires Enabled(s, a) && !ByRun(a) && !a.Dial? && !a.Forward? && d in s.clients
    requires a.Publish? || a.RequestStop? || a.c != d
    ensures d in OtherNext(s, a).clients && OtherNext(s, a).clients[d] == s.clients[d]
  {
    hide Own, HasRoom, Forwarded;
  }

  /** The other steps of a pump pair happen with nothing in hand, or leave what is in hand alone. */
  lemma OutOfHand(k: Client, a: Action)
    requires IsOwn(a) && !a.Hear? && (a.WriteOk? ==> k.writer.Writing?)
    requires (a.StartPumps? ==> k.reader == ReaderIdle) && (a.ReadFails? ==> k.reader == Reading)
    ensures var k' := Own(k, a);
            k'.heard == k.heard && (k'.reader == k.reader || (InHand(k.reader).None? && InHand(k'.reader).None?))
  {
  }

  /** A step of its own changes a client as Own says, and nothing else. */
  lemma OwnStep(s: State, a: Action)
    requires Enabled(s, a) && IsOwn(a)
    ensures a.c in s.clients && (a.WriteOk? ==> s.clients[a.c].writer.Writing?)
    ensures a.Receive? && s.clients[a.c].queue == [] ==> s.clients[a.c].closed
    ensures !ByRun(a) && OtherNext(s, a) == Set(s, a.c, Own(s.clients[a.c], a))
  {
    hide Own, Set, Forwarded, PumpLocked;
  }

  lemma OwnSendsNothing(k: Client, a: Action)
    requires IsOwn(a) && (a.WriteOk? ==> k.writer.Writing?)
    ensures Own(k, a).sent == k.sent
  {
  }

  lemma PumpKeepsClients(s: State, a: Action)
    requires Enabled(s, a) && !ByRun(a) && !a.Dial? && !a.Forward?
    ensures OtherNext(s, a).clients.Keys == s.clients.Keys
  {
    hide Own;
    if !a.Receive? {
      HubDelivery.OtherMoves(s, a);
      hide OtherNext, Enabled;
    }
  }

  lemma PumpSendsNothing(s: State, a: Action, c: ClientId)
    requires Enabled(s, a) && !ByRun(a) && !a.Dial? && !a.Forward? && c in s.clients
    ensures c in OtherNext(s, a).clients && OtherNext(s, a).clients[c].sent == s.clients[c].sent
  {
    hide Own, Forwarded;
    if a.Publish? || a.RequestStop? || a.c != c {
      hide OtherNext, Enabled;
      Bystander(s, a, c);
    } else if IsOwn(a) {
      OwnSendsNothing(s.clients[a.c], a);
    }
  }

  /** One pump's step adds at most one text to what it offers, and nothing to any channel. */
  lemma PumpSender(s: State, a: Action, c: ClientId, sender: ClientId)
    requires Safe(s) && Peers(s) && Enabled(s, a) && !ByRun(a) && !a.Dial? && !a.Forward?
    requires c in OtherNext(s, a).clients
    ensures InHandOk(OtherNext(s, a).clients[c]) && FromSender(OtherNext(s, a), c, sender)
  {
    hide Subsequence, Offered, PeerTexts, LockOk, RunOk, OtherNext, Enabled, InHandOk;
    var t := OtherNext(s, a);
    PumpKeepsClients(s, a);
    PumpSendsNothing(s, a, c);
    assert ClientOk(s, c);
    OfferedStep(s, a, c, c);
    assert FromSender(s, c, sender);
    if sender in s.clients {
      assert ClientOk(s, sender);
      OfferedStep(s, a, sender, c);
      var before, after := Offered(s.clients[sender], c), Offered(t.clients[sender], c);
      if after != before && sender != c {
        var x :| after == before + [x];
        SubsequenceGrows(PeerTexts(s.clients[c].sent, sender), before, x);
      }
    }
  }

  lemma PumpPeers(s: State, a: Action)
    requires Safe(s) && Peers(s) && Enabled(s, a) && !ByRun(a) && !a.Dial? && !a.Forward?
    ensures Peers(OtherNext(s, a))
  {
    hide Safe, OtherNext, Enabled, FromSender, InHandOk;
    var t := OtherNext(s, a);
    forall c | c in t.clients ensures InHandOk(t.clients[c]) { PumpSender(s, a, c, c); }
    forall c, sender | c in t.clients ensures FromSender(t, c, sender) { PumpSender(s, a, c, sender); }
  }

  /** Run puts only the hub's own messages in a channel, takes nothing out and moves no pump forward. */
  predicate OnlyHubMessages(k: Client, k': Client) {
    && k'.heard == k.heard && k'.consumed == k.consumed
    && (k'.reader == k.reader || (k.reader == ReaderUnregistering && k'.reader == ReaderDone))
    && (k'.sent == k.sent || (|k'.sent| == |k.sent| + 1 && k'.sent[..|k.sent|] == k.sent && k'.sent[|k.sent|].FromHub?))
  }

  ghost predicate OnlyHubEverywhere(s: State, t: State) {
    t.clients.Keys == s.clients.Keys && forall c :: c in s.clients ==> OnlyHubMessages(s.clients[c], t.clients[c])
  }

  predicate SameQueue(s: State, t: State) { t.processed == s.processed && t.broadcast == s.broadcast }

  lemma OneEffect(s: State, t: State, c: ClientId, k: Client)
    requires c in s.clients && t.clients == s.clients[c := k] && OnlyHubMessages(s.clients[c], k)
    ensures OnlyHubEverywhere(s, t)
  {
    hide OnlyHubMessages;
    forall d | d in s.clients ensures OnlyHubMessages(s.clients[d], t.clients[d]) { NoneEffect(s.clients[d]); }
  }

  lemma NoneEffect(k: Client)
    ensures OnlyHubMessages(k, k)
  {
  }

  lemma NoEffect(s: State, t: State)
    requires t.clients == s.clients
    ensures OnlyHubEverywhere(s, t)
  {
  }

  lemma RegisterEffect(s: State, c: ClientId)
    requires c in s.clients
    ensures OnlyHubEverywhere(s, RegisterTaken(s, c)) && SameQueue(s, RegisterTaken(s, c))
  {
    var t := RegisterTaken(s, c);
    assert OnlyHubMessages(s.clients[c], t.clients[c]);
    hide OnlyHubMessages, OnlyHubEverywhere;
    OneEffect(s, t, c, t.clients[c]);
  }

  lemma UnregisterEffect(s: State, c: ClientId, fromWriter: bool)
    requires c in s.clients && (fromWriter || s.clients[c].reader == ReaderUnregistering)
    ensures OnlyHubEverywhere(s, UnregisterTaken(s, c, fromWriter)) && SameQueue(s, UnregisterTaken(s, c, fromWriter))
  {
    var t := UnregisterTaken(s, c, fromWriter);
    assert OnlyHubMessages(s.clients[c], t.clients[c]);
    hide OnlyHubMessages, OnlyHubEverywhere;
    OneEffect(s, t, c, t.clients[c]);
  }

  lemma InsertEffect(s: State)
    requires s.run.Doing? && s.run.job.Admit?
    ensures OnlyHubEverywhere(s, Inserted(s)) && SameQueue(s, Inserted(s))
  {
    hide OnlyHubEverywhere;
    var t, c := Inserted(s), s.run.job.c;
    if c in s.clients {
      assert OnlyHubMessages(s.clients[c], t.clients[c]);
      hide OnlyHubMessages;
      OneEffect(s, t, c, t.clients[c]);
    } else {
      NoEffect(s, t);
    }
  }

  lemma CloseEffect(s: State, c: ClientId, run: RunPc)
    requires c in s.clients
    ensures OnlyHubEverywhere(s, CloseChannel(s, c).(run := run)) && SameQueue(s, CloseChannel(s, c).(run := run))
  {
    hide OnlyHubEverywhere;
    var t := CloseChannel(s, c).(run := run);
    if s.clients[c].closed {
      NoEffect(s, t);
    } else {
      assert OnlyHubMessages(s.clients[c], t.clients[c]);
      hide OnlyHubMessages;
      OneEffect(s, t, c, t.clients[c]);
    }
  }

  lemma SendEffect(k: Client, item: Item)
    requires item.FromHub?
    ensures OnlyHubMessages(k, k.(queue := k.queue + [item], sent := k.sent + [item]))
  {
  }

  lemma DeliverEffect(s: State, c: ClientId)
    requires s.run.Doing? && s.run.job.Deliver? && c in s.clients
    ensures OnlyHubEverywhere(s, Delivered(s, c)) && SameQueue(s, Delivered(s, c))
  {
    hide OnlyHubEverywhere, OnlyHubMessages;
    var t, k, item := Delivered(s, c), s.clients[c], FromHub(s.run.job.text);
    if HasRoom(s, c) && !k.closed {
      SendEffect(k, item);
      OneEffect(s, t, c, k.(queue := k.queue + [item], sent := k.sent + [item]));
    } else {
      NoEffect(s, t);
    }
  }

  /** The steps of Run that leave all clients alone. */
  lemma MoveEffect(s: State, a: Action)
    requires Enabled(s, a) && (a.Lock? || a.Unlock? || a.Delete? || a.Remove? || a.EndDelivery?)
    ensures RunNext(s, a).clients == s.clients && SameQueue(s, RunNext(s, a))
  {
    hide RegisterTaken, UnregisterTaken, BroadcastTaken, Locked, Unlocked, Inserted, Deleted, DeletedClosed, OneClosed,
      Removed, Delivered, DeliveryEnded;
  }

  lemma RunEffect(s: State, a: Action)
    requires Enabled(s, a) && ByRun(a)
    ensures OnlyHubEverywhere(s, RunNext(s, a))
    ensures a.TakeBroadcast? || SameQueue(s, RunNext(s, a))
  {
    hide OnlyHubEverywhere, RegisterTaken, UnregisterTaken, Inserted, CloseChannel, Delivered;
    if a.Lock? || a.Unlock? || a.Delete? || a.Remove? || a.EndDelivery? {
      MoveEffect(s, a);
      hide RunNext;
      NoEffect(s, RunNext(s, a));
    } else if a.SeeStop? || a.TakeBroadcast? {
      NoEffect(s, RunNext(s, a));
    } else if a.TakeRegister? {
      RegisterEffect(s, a.c);
    } else if a.TakeUnregister? {
      UnregisterEffect(s, a.c, a.fromWriter);
    } else if a.Insert? {
      InsertEffect(s);
    } else if a.CloseDeleted? {
      CloseEffect(s, s.run.c, Leaving(s.run.after));
    } else if a.CloseOne? {
      CloseEffect(s, a.c, Removing(a.c));
    } else {
      DeliverEffect(s, a.c);
    }
  }

  lemma RunPeers(s: State, a: Action)
    requires Peers(s) && Enabled(s, a) && ByRun(a)
    ensures Peers(RunNext(s, a))
  {
    hide Subsequence, PeerTexts, RunNext, Enabled;
    var t := RunNext(s, a);
    RunEffect(s, a);
    forall c | c in t.clients ensures InHandOk(t.clients[c]) {
      assert InHandOk(s.clients[c]) && OnlyHubMessages(s.clients[c], t.clients[c]);
    }
    forall c, sender | c in t.clients ensures FromSender(t, c, sender) {
      assert FromSender(s, c, sender);
      var k, k' := s.clients[c], t.clients[c];
      assert OnlyHubMessages(k, k');
      if sender in s.clients { assert OnlyHubMessages(s.clients[sender], t.clients[sender]); }
      if k'.sent != k.sent {
        PeerTextsSnoc(k.sent, k'.sent[|k.sent|], sender);
        assert k'.sent == k.sent + [k'.sent[|k.sent|]];
      }
    }
  }

  lemma {:induction false} RunKeepsPeers(states: seq<State>, actions: seq<Action>, n: nat)
    requires Run(states, actions) && n <= |actions|
    ensures Peers(states[n])
  {
    hide Safe, Peers, RunNext, OtherNext, Enabled;
    if n == 0 {
      assert Peers(START) by { StartPeers(); }
    } else {
      var s, a := states[n - 1], actions[n - 1];
      RunKeepsPeers(states, actions, n - 1);
      RunSafe(states, actions, n - 1);
      assert Enabled(s, a) && states[n - 1 + 1] == Next(s, a);
      if ByRun(a) {
        RunPeers(s, a);
      } else if a.Forward? {
        ForwardPeers(s, a);
      } else if a.Dial? {
        DialPeers(s, a);
      } else {
        PumpPeers(s, a);
      }
    }
  }

  lemma StartPeers()
    ensures Peers(START)
  {
  }

  /** No client is sent its own message back; what it gets from another is some of what that one sent, in that order. */
  lemma ForwardingKeepsOrder(states: seq<State>, actions: seq<Action>, n: nat, c: ClientId, sender: ClientId)
    requires Run(states, actions) && n <= |actions| && c in states[n].clients
    ensures var s, k := states[n], states[n].clients[c];
            && k.sent == k.consumed + k.queue
            && (sender == c || sender !in s.clients ==> PeerTexts(k.sent, sender) == [])
            && (sender != c && sender in s.clients ==> Subsequence(PeerTexts(k.sent, sender), s.clients[sender].heard))
  {
    hide PeerTexts, Subsequence, Offered;
    RunKeepsPeers(states, actions, n);
    HubDelivery.RunFed(states, actions, n);
    var s := states[n];
    assert FromSender(s, c, sender) && HubDelivery.FedIn(s, c);
    if sender in s.clients && sender != c {
      OfferedIsHeard(s.clients[sender], c, PeerTexts(s.clients[c].sent, sender));
    }
  }

  lemma OfferedIsHeard(k: Client, c: ClientId, texts: seq<string>)
    requires Subsequence(texts, Offered(k, c))
    ensures Subsequence(texts, k.heard)
  {
    hide Subsequence;
    if Offered(k, c) != k.heard {
      SubsequenceGrows(texts, Offered(k, c), k.heard[|k.heard| - 1]);
      assert Offered(k, c) + [k.heard[|k.heard| - 1]] == k.heard;
    }
  }

  // ---- broadcasts in and out ----

  /** The texts handed to Broadcast, in order. */
  function Published(actions: seq<Action>): seq<string> {
    if actions == [] then []
    else
      var before, last := Published(actions[..|actions| - 1]), actions[|actions| - 1];
      if last.Publish? then before + [last.text] else before
  }

  /** Run takes the broadcasts in the order they were published and skips none. */
  lemma {:induction false} BroadcastsInOrder(states: seq<State>, actions: seq<Action>, n: nat)
    requires Run(states, actions) && n <= |actions|
    ensures states[n].processed + states[n].broadcast == Published(actions[..n])
  {
    hide Enabled, RunNext, OtherNext;
    if n > 0 {
      var s, a := states[n - 1], actions[n - 1];
      BroadcastsInOrder(states, actions, n - 1);
      assert actions[..n][..n - 1] == actions[..n - 1];
      assert Enabled(s, a) && states[n - 1 + 1] == Next(s, a);
      QueueEffect(s, a);
    }
  }

  lemma QueueEffect(s: State, a: Action)
    requires Enabled(s, a)
    ensures var t := Next(s, a);
            t.processed + t.broadcast == s.processed + s.broadcast + (if a.Publish? then [a.text] else [])
  {
    hide RunNext, OtherNext, Enabled;
    if a.TakeBroadcast? {
      TakeEffect(s);
    } else if ByRun(a) {
      RunEffect(s, a);
    } else {
      OtherEffect(s, a);
    }
  }

  lemma TakeEffect(s: State)
    requires Enabled(s, TakeBroadcast)
    ensures var t := RunNext(s, TakeBroadcast);
            t.processed + t.broadcast == s.processed + s.broadcast
  {
    assert s.broadcast == [s.broadcast[0]] + s.broadcast[1..];
  }

  lemma OtherEffect(s: State, a: Action)
    requires Enabled(s, a) && !ByRun(a)
    ensures OtherNext(s, a).processed == s.processed
    ensures OtherNext(s, a).broadcast == if a.Publish? then s.broadcast + [a.text] else s.broadcast
  {
    hide Set, Forwarded;
  }
}
