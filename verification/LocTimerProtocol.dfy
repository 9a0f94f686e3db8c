/** The timer service as interleaved atomic steps.

  Client threads run `start` and `stop` under their timer's lock and destroy timers; one message thread owns both
  heaps and takes messages in order; one poll thread turns a readable timer descriptor into an
  expire message. Each kernel call, each locked region and each visit to a heap is one step, and
  `Run` allows every interleaving of them. The heaps are the trees of `LocHeapTree`.
  */
module LocTimerProtocol {
  import opened Options
  import opened LocTimerClock
  import opened LocHeapTree

  /** Timers and alarms: one heap and one descriptor each, sharing both threads. */
  datatype Kind = SwTimers | HwTimers

  function Other(k: Kind): Kind {
    if k == SwTimers then HwTimers else SwTimers
  }

  datatype Container = Container(heap: Tree, armed: Option<Timespec>, polled: bool)

  /** `live` until `destroyLocked` has cleared the client and container pointers. */
  datatype Delegate = Delegate(client: nat, kind: Kind, due: Timespec, live: bool)

  datatype Msg =
    | MsgPush(kind: Kind, timer: nat)
    | MsgRemove(kind: Kind, timer: nat)
    | MsgExpire(kind: Kind)

  /** Where the message thread is. `del` is the delegate a remove message will delete when done. */
  datatype MsgPc =
    | Idle
    | AddPoll(k: Kind, t: Timespec, del: Option<nat>)
    | SetTime(k: Kind, t: Timespec, del: Option<nat>)
    | Deleting(d: nat)
    | Popping(k: Kind, at: Timespec, first: bool)
    | Firing(k: Kind, at: Timespec, d: nat)
    | Stopping(k: Kind, at: Timespec, d: nat, client: nat)

  datatype PollStage = ToDisarm | ToUnpoll | ToSend

  datatype PollPc = Waiting | Handling(stage: PollStage, k: Kind, next: Option<Kind>)

  datatype What = Started | Stopped | CalledBack

  datatype Event = Event(what: What, client: nat, timer: nat)

  /** The lock a timer shares with its delegates: its count, and how often it has deleted itself. */
  datatype Lock = Lock(mRef: int, deletes: nat)

  /** As the timer's constructor makes it, the timer being its only user. */
  const NEW_LOCK: Lock := Lock(1, 0)

  function Shared(lock: Lock): Lock {
    lock.(mRef := lock.mRef + 1)
  }

  function Dropped(lock: Lock): Lock {
    Lock(lock.mRef - 1, if lock.mRef == 1 then lock.deletes + 1 else lock.deletes)
  }

  /** The locks of all timers; one that is in no map is new. A timer being destroyed is `ending` from
      its last stop on, and `ended` once it has dropped its lock. */
  datatype Locks = Locks(used: map<nat, Lock>, ending: set<nat>, ended: set<nat>)

  function LockOf(l: Locks, c: nat): Lock {
    if c in l.used then l.used[c] else NEW_LOCK
  }

  function Share(l: Locks, c: nat): Locks {
    l.(used := l.used[c := Shared(LockOf(l, c))])
  }

  function Drop(l: Locks, c: nat): Locks {
    l.(used := l.used[c := Dropped(LockOf(l, c))])
  }

  /** `running` maps each LocTimer with a non-null mTimer to that delegate. `taken`, `freed` and `log`
      are histories: messages taken off the queue, delegates deleted, and the outcomes of start, stop
      and expiry. */
  datatype State = State(
    now: Clock,
    dels: seq<Delegate>,
    running: map<nat, nat>,
    sw: Container,
    hw: Container,
    queue: seq<Msg>,
    taken: seq<Msg>,
    msg: MsgPc,
    poll: PollPc,
    freed: seq<nat>,
    log: seq<Event>,
    locks: Locks)

  datatype Label =
    | Tick(to: Clock)
    | Start(client: nat, kind: Kind, ms: UInt32)
    | Stop(client: nat)
    | Destroy(client: nat)
    | MsgStep
    | PollWake(kind: Kind, both: bool)
    | PollStep

  function Get(s: State, k: Kind): Container {
    if k == SwTimers then s.sw else s.hw
  }

  function Put(s: State, k: Kind, c: Container): State {
    if k == SwTimers then s.(sw := c) else s.(hw := c)
  }

  /** Earlier seconds rank higher; nanoseconds play no part. */
  function RankOf(d: nat, due: Timespec): Rankable {
    Rankable(d, -due.sec)
  }

  function Ranked(s: State, d: nat): Rankable
    requires d < |s.dels|
  {
    RankOf(d, s.dels[d].due)
  }

  function Init(now: Clock): State {
    var empty := Container(Nil, None, false);
    State(now, [], map[], empty, empty, [], [], Idle, Waiting, [], [], Locks(map[], {}, {}))
  }

  // ---------- Client threads ----------

  /** Nobody starts a timer that is being destroyed. */
  predicate CanStart(s: State, c: nat) {
    c !in s.running && c !in s.locks.ending && c !in s.locks.ended
  }

  function StepStart(s: State, c: nat, k: Kind, ms: UInt32): State {
    if !CanStart(s, c) then s
    else
      var d := |s.dels|;
      s.(dels := s.dels + [Delegate(c, k, DueTime(s.now, ms), true)],
         running := s.running[c := d],
         queue := s.queue + [MsgPush(k, d)],
         log := s.log + [Event(Started, c, d)],
         locks := Share(s.locks, c))
  }

  /** The locked body of `LocTimer::stop`, for a client or for the expire loop. */
  function StepStop(s: State, c: nat, what: What): State {
    if c !in s.running || s.running[c] >= |s.dels| then s
    else
      var d := s.running[c];
      s.(dels := s.dels[d := s.dels[d].(live := false)],
         running := s.running - {c},
         queue := s.queue + [MsgRemove(s.dels[d].kind, d)],
         log := s.log + [Event(what, c, d)])
  }

  /** The destructor of a timer: first it stops, then it drops the lock. */
  function StepDestroy(s: State, c: nat): State {
    if c in s.locks.ended then s
    else if c in s.locks.ending then
      s.(locks := Drop(s.locks, c).(ending := s.locks.ending - {c}, ended := s.locks.ended + {c}))
    else StepStop(s, c, Stopped).(locks := s.locks.(ending := s.locks.ending + {c}))
  }

  // ---------- Message thread ----------

  datatype Update = Keep | Disarm | Arm

  /** `updateSoonestTime`: what to tell the kernel, given the top before and the top now. */
  function UpdateFor(prior: Option<Rankable>, cur: Option<Rankable>): Update {
    if cur == prior then Keep
    else if cur.None? then Disarm
    else if prior.None? || OutRanks(cur.value, prior.value) then Arm
    else Keep
  }

  function AfterUpdate(del: Option<nat>): MsgPc {
    if del.Some? then Deleting(del.value) else Idle
  }

  /** Continues with `updateSoonestTime(prior)` and then the deletion, if any. */
  function Rearm(s: State, k: Kind, prior: Option<Rankable>, del: Option<nat>): State {
    var cur := TopOf(Get(s, k).heap);
    match UpdateFor(prior, cur)
    case Keep => s.(msg := AfterUpdate(del))
    case Disarm => Put(s, k, Get(s, k).(armed := None, polled := false)).(msg := AfterUpdate(del))
    case Arm =>
      if cur.Some? && cur.value.id < |s.dels|
      then s.(msg := AddPoll(k, s.dels[cur.value.id].due, del))
      else s.(msg := AfterUpdate(del))
  }

  function ProcPush(s: State, k: Kind, d: nat): State
    requires d < |s.dels|
  {
    var c := Get(s, k);
    Rearm(Put(s, k, c.(heap := Push(c.heap, Ranked(s, d)))), k, TopOf(c.heap), None)
  }

  function ProcRemove(s: State, k: Kind, d: nat): State
    requires d < |s.dels|
  {
    var c := Get(s, k);
    var r := RemoveFrom(c.heap, Ranked(s, d));
    var s' := Put(s, k, c.(heap := r.tree));
    if TopOf(c.heap) == (if r.found then Some(Ranked(s, d)) else None)
    then Rearm(s', k, None, Some(d))
    else s'.(msg := Deleting(d))
  }

  /** One turn of the expire loop's head: the first pop is unconditional, later ones are checked. */
  function ProcPop(s: State, k: Kind, at: Timespec, first: bool): State {
    var c := Get(s, k);
    if c.heap.Nil? || (!first && OutRanks(RankOf(0, at), c.heap.data)) then Rearm(s, k, None, None)
    else Put(s, k, c.(heap := Pop(c.heap))).(msg := Firing(k, at, c.heap.data.id))
  }

  function TakeMsg(s: State): State {
    if s.queue == [] then s
    else
      var s' := s.(queue := s.queue[1..], taken := s.taken + [s.queue[0]]);
      match s.queue[0]
      case MsgPush(k, d) => if d < |s.dels| then ProcPush(s', k, d) else s
      case MsgRemove(k, d) => if d < |s.dels| then ProcRemove(s', k, d) else s
      case MsgExpire(k) => s'.(msg := Popping(k, s.now, true))
  }

  function StepMsg(s: State): State {
    match s.msg
    case Idle => TakeMsg(s)
    case AddPoll(k, t, del) => Put(s, k, Get(s, k).(polled := true)).(msg := SetTime(k, t, del))
    case SetTime(k, t, del) =>
      // an all-zero time disarms the descriptor
      var armed := if t == Timespec(0, 0) then None else Some(t);
      Put(s, k, Get(s, k).(armed := armed)).(msg := AfterUpdate(del))
    case Deleting(d) =>
      s.(freed := s.freed + [d], msg := Idle,
         locks := if d < |s.dels| then Drop(s.locks, s.dels[d].client) else s.locks)
    case Popping(k, at, first) => ProcPop(s, k, at, first)
    case Firing(k, at, d) =>
      if d < |s.dels| && s.dels[d].live then s.(msg := Stopping(k, at, d, s.dels[d].client))
      else s.(msg := Popping(k, at, false))
    case Stopping(k, at, d, c) => StepStop(s, c, CalledBack).(msg := Popping(k, at, false))
  }

  // ---------- Poll thread and clock ----------

  predicate Readable(s: State, k: Kind) {
    var c := Get(s, k);
    c.polled && c.armed.Some? && !Earlier(s.now, c.armed.value)
  }

  function StepWake(s: State, k: Kind, both: bool): State {
    if s.poll.Waiting? && Readable(s, k) && (both ==> Readable(s, Other(k)))
    then s.(poll := Handling(ToDisarm, k, if both then Some(Other(k)) else None))
    else s
  }

  function StepPoll(s: State): State {
    match s.poll
    case Waiting => s
    case Handling(ToDisarm, k, next) =>
      Put(s, k, Get(s, k).(armed := None)).(poll := Handling(ToUnpoll, k, next))
    case Handling(ToUnpoll, k, next) =>
      Put(s, k, Get(s, k).(polled := false)).(poll := Handling(ToSend, k, next))
    case Handling(ToSend, k, next) =>
      s.(queue := s.queue + [MsgExpire(k)],
         poll := if next.Some? then Handling(ToDisarm, next.value, None) else Waiting)
  }

  function StepTick(s: State, to: Clock): State {
    if !Earlier(to, s.now) then s.(now := to) else s
  }

  function Step(s: State, l: Label): State {
    match l
    case Tick(to) => StepTick(s, to)
    case Start(c, k, ms) => StepStart(s, c, k, ms)
    case Stop(c) => StepStop(s, c, Stopped)
    case Destroy(c) => StepDestroy(s, c)
    case MsgStep => StepMsg(s)
    case PollWake(k, both) => StepWake(s, k, both)
    case PollStep => StepPoll(s)
  }
}
