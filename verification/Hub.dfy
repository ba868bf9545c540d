/**
 * The WebSocket hub of backend/internal/ws/hub.go as a transition system: Run, Stop, Broadcast, ServeWs and the two
 * pumps of every client, one action per statement that touches shared state, under the hub's RWMutex. Closing a
 * closed channel and sending on one are not forbidden; they panic.
 */
module Hub {
  import opened Options

  type ClientId = nat

  const CHANNEL_CAPACITY: nat := 256

  /** A queued message, with where it came from. */
  datatype Item = FromHub(text: string) | FromPeer(sender: ClientId, text: string)

  /** ServeWs: offering the client to the hub, about to start its pumps, done. */
  datatype ServePc = Registering | Starting | Served

  datatype WriterPc = WriterIdle | WaitingForItem | Writing(open: bool) | WriterUnregistering | WriterDone

  datatype ReaderPc = ReaderIdle | Reading | WantsLock(text: string) | Forwarding(text: string, todo: set<ClientId>)
    | ReaderUnregistering | ReaderDone

  /**
   * queue is the channel's buffer. The last four are records of what happened: items ever put in the channel, items
   * taken out, how often it was closed, how many broadcasts Run had taken when it added the client.
   */
  datatype Client = Client(serve: ServePc, writer: WriterPc, reader: ReaderPc, queue: seq<Item>, closed: bool,
                           heard: seq<string>, sent: seq<Item>, consumed: seq<Item>, closes: nat, joined: Option<nat>)

  const NEW_CLIENT := Client(Registering, WriterIdle, ReaderIdle, [], false, [], [], [], 0, None)

  datatype Job =
    | Admit(c: ClientId)
    | Drop(c: ClientId)
    | Shut
    | Announce(text: string)
    | Deliver(text: string, todo: set<ClientId>)
    | Evict(c: ClientId, text: string, todo: set<ClientId>)

  datatype After = ToSelect | ToDeliver(text: string, todo: set<ClientId>) | ToExit

  /** Run: at its select, waiting for the mutex, holding it, or gone. Deliver holds it for reading, the rest for writing. */
  datatype RunPc =
    | Select
    | Waiting(job: Job)
    | Doing(job: Job)
    | Closing(c: ClientId, after: After)
    | Removing(c: ClientId)
    | Leaving(after: After)
    | Exited

  datatype Thread = RunLoop | Pump(c: ClientId)

  datatype State = State(members: set<ClientId>, broadcast: seq<string>, stop: bool, done: bool, run: RunPc, writeHeld: bool,
                         readers: set<Thread>, clients: map<ClientId, Client>, processed: seq<string>, panicked: bool)

  const START := State({}, [], false, false, Select, false, {}, map[], [], false)

  datatype Action =
    // callers of the hub
    | Dial(c: ClientId) | Publish(text: string) | RequestStop | StartPumps(c: ClientId)
    // Run
    | SeeStop | TakeRegister(c: ClientId) | TakeUnregister(c: ClientId, fromWriter: bool) | TakeBroadcast
    | Lock | Unlock | Insert | Delete | CloseDeleted | CloseOne(c: ClientId) | Remove | DeliverTo(c: ClientId) | EndDelivery
    // writePump
    | Receive(c: ClientId) | WriteOk(c: ClientId) | WriteFails(c: ClientId) | PingFails(c: ClientId)
    // readPump
    | Hear(c: ClientId, text: string) | ReadFails(c: ClientId) | PumpLock(c: ClientId)
    | Forward(c: ClientId, to: ClientId) | PumpUnlock(c: ClientId)

  function Set(s: State, c: ClientId, k: Client): (t: State)
    ensures t.broadcast == s.broadcast && t.processed == s.processed && t.members == s.members && t.run == s.run
  {
    s.(clients := s.clients[c := k])
  }

  /** close(c.send) */
  function CloseChannel(s: State, c: ClientId): State
    requires c in s.clients
  {
    var k := s.clients[c];
    if k.closed then s.(panicked := true) else Set(s, c, k.(closed := true, closes := k.closes + 1))
  }

  predicate HasRoom(s: State, c: ClientId)
    requires c in s.clients
  {
    s.clients[c].closed || |s.clients[c].queue| < CHANNEL_CAPACITY
  }

  /** The send case of a select with a default; it is ready on a closed channel, and then panics. */
  function Send(s: State, c: ClientId, item: Item): State
    requires c in s.clients && HasRoom(s, c)
  {
    var k := s.clients[c];
    if k.closed then s.(panicked := true) else Set(s, c, k.(queue := k.queue + [item], sent := k.sent + [item]))
  }

  predicate HoldsWrite(run: RunPc) {
    (run.Doing? && !run.job.Deliver?) || run.Closing? || run.Removing? || run.Leaving?
  }

  predicate Enabled(s: State, a: Action) {
    match a
    case Dial(c) => c !in s.clients
    case Publish(_) => |s.broadcast| < CHANNEL_CAPACITY
    case RequestStop => true
    case StartPumps(c) => c in s.clients && s.clients[c].serve == Starting
    case SeeStop => s.run == Select && s.stop
    case TakeRegister(c) => s.run == Select && c in s.clients && s.clients[c].serve == Registering
    case TakeUnregister(c, fromWriter) =>
      s.run == Select && c in s.clients
      && (if fromWriter then s.clients[c].writer == WriterUnregistering else s.clients[c].reader == ReaderUnregistering)
    case TakeBroadcast => s.run == Select && s.broadcast != []
    case Lock => s.run.Waiting? && !s.writeHeld && (s.run.job.Announce? || s.run.job.Deliver? || s.readers == {})
    case Unlock => s.run.Leaving?
    case Insert => s.run.Doing? && s.run.job.Admit?
    case Delete => s.run.Doing? && (s.run.job.Drop? || s.run.job.Evict?)
    case CloseDeleted => s.run.Closing? && s.run.c in s.clients
    case CloseOne(c) => s.run == Doing(Shut) && c in s.members && c in s.clients
    case Remove => s.run.Removing?
    case DeliverTo(c) => s.run.Doing? && s.run.job.Deliver? && c in s.run.job.todo && c in s.clients
    case EndDelivery => s.run.Doing? && (if s.run.job.Deliver? then s.run.job.todo == {} else s.run.job.Shut? && s.members == {})
    case Receive(c) => c in s.clients && s.clients[c].writer == WaitingForItem && (s.clients[c].queue != [] || s.clients[c].closed)
    case WriteOk(c) => c in s.clients && s.clients[c].writer.Writing?
    case WriteFails(c) => c in s.clients && s.clients[c].writer.Writing?
    case PingFails(c) => c in s.clients && s.clients[c].writer == WaitingForItem
    case Hear(c, _) => c in s.clients && s.clients[c].reader == Reading
    case ReadFails(c) => c in s.clients && s.clients[c].reader == Reading
    case PumpLock(c) => c in s.clients && s.clients[c].reader.WantsLock? && !s.writeHeld
    case Forward(c, to) =>
      c in s.clients && s.clients[c].reader.Forwarding? && to in s.clients[c].reader.todo && to in s.clients
    case PumpUnlock(c) => c in s.clients && s.clients[c].reader.Forwarding? && s.clients[c].reader.todo == {}
  }

  // ---- Run, statement by statement ----

  function RegisterTaken(s: State, c: ClientId): State
    requires c in s.clients
  {
    Set(s, c, s.clients[c].(serve := Starting)).(run := Waiting(Admit(c)))
  }

  function UnregisterTaken(s: State, c: ClientId, fromWriter: bool): State
    requires c in s.clients
  {
    var k := s.clients[c];
    Set(s, c, if fromWriter then k.(writer := WriterDone) else k.(reader := ReaderDone)).(run := Waiting(Drop(c)))
  }

  function BroadcastTaken(s: State): State
    requires s.broadcast != []
  {
    var text := s.broadcast[0];
    s.(broadcast := s.broadcast[1..], processed := s.processed + [text], run := Waiting(Announce(text)))
  }

  /** Lock or RLock returns; for RLock Run sees the map it will go through. */
  function Locked(s: State): (t: State)
    requires s.run.Waiting?
    ensures t.clients == s.clients && t.broadcast == s.broadcast && t.processed == s.processed
  {
    match s.run.job
    case Announce(text) => s.(run := Doing(Deliver(text, s.members)), readers := s.readers + {RunLoop})
    case Deliver(_, _) => s.(run := Doing(s.run.job), readers := s.readers + {RunLoop})
    case _ => s.(run := Doing(s.run.job), writeHeld := true)
  }

  function Unlocked(s: State): (t: State)
    requires s.run.Leaving?
    ensures t.clients == s.clients && t.broadcast == s.broadcast && t.processed == s.processed
  {
    match s.run.after
    case ToSelect => s.(writeHeld := false, run := Select)
    case ToDeliver(text, todo) => s.(writeHeld := false, run := Waiting(Deliver(text, todo)))
    case ToExit => s.(writeHeld := false, run := Exited, done := true)
  }

  function Inserted(s: State): State
    requires s.run.Doing? && s.run.job.Admit?
  {
    var c := s.run.job.c;
    var added := s.(members := s.members + {c}, run := Leaving(ToSelect));
    if c in s.clients then Set(added, c, s.clients[c].(joined := Some(|s.processed|))) else added
  }

  function AfterDelete(job: Job): After
    requires job.Drop? || job.Evict?
  {
    if job.Evict? then ToDeliver(job.text, job.todo) else ToSelect
  }

  function Deleted(s: State): (t: State)
    requires s.run.Doing? && (s.run.job.Drop? || s.run.job.Evict?)
    ensures t.clients == s.clients && t.broadcast == s.broadcast && t.processed == s.processed
  {
    var c, after := s.run.job.c, AfterDelete(s.run.job);
    if s.run.job.Drop? && c !in s.members then s.(run := Leaving(after))
    else s.(members := s.members - {c}, run := Closing(c, after))
  }

  function DeletedClosed(s: State): State
    requires s.run.Closing? && s.run.c in s.clients
  {
    CloseChannel(s, s.run.c).(run := Leaving(s.run.after))
  }

  function OneClosed(s: State, c: ClientId): State
    requires c in s.clients
  {
    CloseChannel(s, c).(run := Removing(c))
  }

  function Removed(s: State): (t: State)
    requires s.run.Removing?
    ensures t.clients == s.clients && t.broadcast == s.broadcast && t.processed == s.processed
  {
    s.(members := s.members - {s.run.c}, run := Doing(Shut))
  }

  function Delivered(s: State, c: ClientId): State
    requires s.run.Doing? && s.run.job.Deliver? && c in s.clients
  {
    var job := s.run.job;
    if HasRoom(s, c) then Send(s, c, FromHub(job.text)).(run := Doing(Deliver(job.text, job.todo - {c})))
    else s.(readers := s.readers - {RunLoop}, run := Waiting(Evict(c, job.text, job.todo - {c})))
  }

  function DeliveryEnded(s: State): (t: State)
    requires s.run.Doing?
    ensures t.clients == s.clients && t.broadcast == s.broadcast && t.processed == s.processed
  {
    if s.run.job.Deliver? then s.(readers := s.readers - {RunLoop}, run := Select) else s.(run := Leaving(ToExit))
  }

  function RunNext(s: State, a: Action): State
    requires Enabled(s, a)
  {
    match a
    case SeeStop => s.(run := Waiting(Shut))
    case TakeRegister(c) => RegisterTaken(s, c)
    case TakeUnregister(c, fromWriter) => UnregisterTaken(s, c, fromWriter)
    case TakeBroadcast => BroadcastTaken(s)
    case Lock => Locked(s)
    case Unlock => Unlocked(s)
    case Insert => Inserted(s)
    case Delete => Deleted(s)
    case CloseDeleted => DeletedClosed(s)
    case CloseOne(c) => OneClosed(s, c)
    case Remove => Removed(s)
    case DeliverTo(c) => Delivered(s, c)
    case EndDelivery => DeliveryEnded(s)
    case _ => s
  }

  // ---- callers of the hub and the pumps ----

  /** Steps that change nothing but their own client. */
  predicate IsOwn(a: Action) {
    a.StartPumps? || a.Receive? || a.WriteOk? || a.WriteFails? || a.PingFails? || a.Hear? || a.ReadFails?
  }

  function Own(k: Client, a: Action): Client
    requires IsOwn(a) && (a.WriteOk? ==> k.writer.Writing?)
  {
    match a
    case StartPumps(_) => k.(serve := Served, writer := WaitingForItem, reader := Reading)
    case Receive(_) =>
      if k.queue != []
      then k.(queue := k.queue[1..], consumed := k.consumed + [k.queue[0]], writer := Writing(true))
      else k.(writer := Writing(false))
    case WriteOk(_) => k.(writer := if k.writer.open then WaitingForItem else WriterDone)
    case WriteFails(_) => k.(writer := WriterUnregistering)
    case PingFails(_) => k.(writer := WriterUnregistering)
    case Hear(_, text) => k.(heard := k.heard + [text], reader := WantsLock(text))
    case ReadFails(_) => k.(reader := ReaderUnregistering)
  }

  /** A pump holds the mutex for reading and sees the map it will go through. */
  function PumpLocked(s: State, c: ClientId): State
    requires c in s.clients && s.clients[c].reader.WantsLock?
  {
    var k := s.clients[c];
    Set(s, c, k.(reader := Forwarding(k.reader.text, s.members - {c}))).(readers := s.readers + {Pump(c)})
  }

  function Forwarded(s: State, c: ClientId, to: ClientId): (t: State)
    requires c in s.clients && s.clients[c].reader.Forwarding? && to in s.clients
    ensures t.broadcast == s.broadcast && t.processed == s.processed && t.members == s.members && t.run == s.run
  {
    var k := s.clients[c];
    var rest := Set(s, c, k.(reader := Forwarding(k.reader.text, k.reader.todo - {to})));
    if HasRoom(rest, to) then Send(rest, to, FromPeer(c, k.reader.text)) else rest
  }

  function OtherNext(s: State, a: Action): State
    requires Enabled(s, a)
  {
    if IsOwn(a) then Set(s, a.c, Own(s.clients[a.c], a)) else
    match a
    case Dial(c) => Set(s, c, NEW_CLIENT)
    case Publish(text) => s.(broadcast := s.broadcast + [text])
    case RequestStop => s.(stop := true)
    case PumpLock(c) => PumpLocked(s, c)
    case Forward(c, to) => Forwarded(s, c, to)
    case PumpUnlock(c) => Set(s, c, s.clients[c].(reader := Reading)).(readers := s.readers - {Pump(c)})
    case _ => s
  }

  predicate ByRun(a: Action) {
    a.SeeStop? || a.TakeRegister? || a.TakeUnregister? || a.TakeBroadcast? || a.Lock? || a.Unlock? || a.Insert? || a.Delete?
    || a.CloseDeleted? || a.CloseOne? || a.Remove? || a.DeliverTo? || a.EndDelivery?
  }

  function Next(s: State, a: Action): State
    requires Enabled(s, a)
  {
    if ByRun(a) then RunNext(s, a) else OtherNext(s, a)
  }

  /** states[i] follows from START by the first i actions. */
  ghost predicate Run(states: seq<State>, actions: seq<Action>) {
    && |states| == |actions| + 1
    && states[0] == START
    && forall i :: 0 <= i < |actions| ==> Enabled(states[i], actions[i]) && states[i + 1] == Next(states[i], actions[i])
  }
}
