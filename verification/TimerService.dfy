/** The timer service of gps/utils/LocTimer.cpp as a machine. Three kinds of thread take turns, in
    any order: client threads inside LocTimer, the poll thread inside LocTimerPollTask::run, and
    the message thread inside the proc() of one message. A step is as much of a method as no other
    thread can see into: what runs under the client's lock, one timerfd_settime, one epoll_ctl, one
    send to the message queue, or work on what the message thread alone touches.

    Touching a delegate, a client or a lock after it was deleted sets `fault`. */
module TimerService {
  import opened Wrappers
  import opened HeapTree
  import opened TimerTypes

  datatype Msg = MsgPush(t: Timer) | MsgRemove(t: Timer) | MsgExpire(con: bool)

  /** A LocTimer object. `dying` is set while its destructor has stopped it but not yet dropped
      its lock. */
  datatype Client = Client(timer: Option<Timer>, dying: bool)

  /** Where the message thread is. */
  datatype Task =
    | Idle
    | Programming(con: bool, u: Update, doomed: Option<Timer>)  // epoll done, timerfd to come
    | Deleting(t: Timer)
    | Draining(con: bool, now: Time, first: bool)               // at the head of the drain loop
    | Popped(con: bool, now: Time, first: bool, t: Timer)       // in LocTimerDelegate::expire
    | Calling(con: bool, now: Time, first: bool, t: Timer, client: Option<ClientId>)

  /** How one start ended. A callback remembers which delegate was popped for it, when, and whether
      that was the unconditional first pop of the drain. */
  datatype Outcome =
    | Fired(t: Timer, popped: Timer, at: Time, first: bool)
    | Stopped(t: Timer)

  datatype State = State(
    clock: Time,
    sw: Container, hw: Container,
    queue: seq<Msg>,
    task: Task,
    events: seq<bool>, stage: nat,        // containers the poll thread still has to handle, and
                                          // how far it is inside expire() of the first of them
    clients: map<ClientId, Client>, locks: map<ClientId, int>,
    live: set<Timer>, stopped: set<Timer>,
    issued: set<Timer>, nextId: nat, nextClient: ClientId,
    log: seq<Outcome>,
    fault: bool)

  function Con(s: State, c: bool): Container {
    if c then s.hw else s.sw
  }

  function PutCon(s: State, c: bool, con: Container): State {
    if c then s.(hw := con) else s.(sw := con)
  }

  /** Start is only ever asked for a moment that a 32-bit second can hold. */
  predicate ClockInRange(t: Time) {
    Normal(t) && Nanos(t) > 0 && t.sec < TWO31 - 4294968
  }

  ghost predicate Init(s: State) {
    && ClockInRange(s.clock)
    && s.sw == s.hw == Container(Leaf, false, None)
    && s.queue == [] && s.task == Idle && s.events == [] && s.stage == 0
    && s.clients == map[] && s.locks == map[]
    && s.live == s.stopped == s.issued == {}
    && s.log == [] && !s.fault
  }

  // ------------------------------------------------------------ client threads

  function NewClient(s: State): State {
    s.(clients := s.clients[s.nextClient := Client(None, false)],
       locks := s.locks[s.nextClient := 1],
       nextClient := s.nextClient + 1)
  }

  function Issue(s: State, k: ClientId, ms: nat, con: bool): Timer
    requires ClockInRange(s.clock) && ms < 0x1_0000_0000
  {
    DeadlineIsExact(s.clock, ms);
    TimerData(s.nextId, k, con, Deadline(s.clock, ms))
  }

  /** LocTimer::start. */
  function Start(s: State, k: ClientId, ms: nat, con: bool): State
    requires ClockInRange(s.clock) && ms < 0x1_0000_0000 && k in s.clients
  {
    if k !in s.locks then s.(fault := true)
    else if s.clients[k].timer.Some? then s
    else
      var t := Issue(s, k, ms, con);
      s.(clients := s.clients[k := s.clients[k].(timer := Some(t))],
         locks := s.locks[k := s.locks[k] + 1],
         live := s.live + {t}, issued := s.issued + {t}, nextId := s.nextId + 1,
         queue := s.queue + [MsgPush(t)])
  }

  /** What stop() does to the delegate of a client that has one: LocTimerDelegate::destroyLocked. */
  function StopTimer(s: State, k: ClientId): State
    requires k in s.clients && s.clients[k].timer.Some?
  {
    var t := s.clients[k].timer.value;
    var s1 := s.(clients := s.clients[k := s.clients[k].(timer := None)]);
    if t !in s.live then s1.(fault := true)
    else if t in s.stopped then s1
    else s1.(stopped := s.stopped + {t}, queue := s.queue + [MsgRemove(t)])
  }

  /** LocTimer::stop, called by a client. */
  function Stop(s: State, k: ClientId): State
    requires k in s.clients
  {
    if k !in s.locks then s.(fault := true)
    else if s.clients[k].timer.None? then s
    else StopTimer(s, k).(log := s.log + [Stopped(s.clients[k].timer.value)])
  }

  /** The first half of ~LocTimer. */
  function Retire(s: State, k: ClientId): State
    requires k in s.clients
  {
    var s1 := Stop(s, k);
    s1.(clients := s1.clients[k := s1.clients[k].(dying := true)])
  }

  /** LocSharedLock::drop. */
  function Drop(s: State, k: ClientId): State {
    if k !in s.locks then s.(fault := true)
    else if s.locks[k] == 1 then s.(locks := s.locks - {k})
    else s.(locks := s.locks[k := s.locks[k] - 1])
  }

  /** The second half of ~LocTimer. */
  function Destroy(s: State, k: ClientId): State
    requires k in s.clients
  {
    Drop(s, k).(clients := s.clients - {k})
  }

  // ----------------------------------------------------------------- poll thread

  /** epoll_wait has something to say about this container. */
  predicate Ready(s: State, c: bool) {
    var con := Con(s, c);
    con.polled && con.armed.Some? && Nanos(con.armed.value) <= Nanos(s.clock)
  }

  /** The next instruction of LocTimerContainer::expire: disarm, leave the epoll set, send. */
  function PollStep(s: State): State
    requires s.events != []
  {
    var c := s.events[0];
    if s.stage == 0 then PutCon(s, c, SetTime(Con(s, c), Time(0, 0))).(stage := 1)
    else if s.stage == 1 then PutCon(s, c, Con(s, c).(polled := false)).(stage := 2)
    else s.(queue := s.queue + [MsgExpire(c)], events := s.events[1..], stage := 0)
  }

  // -------------------------------------------------------------- message thread

  /** Everything the heap compares is still there. */
  ghost predicate HeapAlive(s: State, c: bool) {
    forall t :: Occurs(Con(s, c).heap, t) > 0 ==> t in s.live
  }

  ghost function Touch(s: State, alive: bool): State {
    if alive then s else s.(fault := true)
  }

  /** After an update was decided: its epoll half, and what is left to do. */
  function Updated(s: State, c: bool, u: Update, doomed: Option<Timer>): State {
    PutCon(s, c, Watch(Con(s, c), u)).(
      task := if u != Keep then Programming(c, u, doomed)
              else if doomed.Some? then Deleting(doomed.value)
              else Idle)
  }

  /** MsgTimerPush::proc up to the epoll half of its update. */
  ghost function DeliverPush(s: State, t: Timer): State {
    var con := Con(s, t.con);
    var heap := Push(con.heap, t, OutRanks);
    Touch(Updated(PutCon(s, t.con, con.(heap := heap)), t.con, Soonest(Top(con.heap), Top(heap)), None),
          HeapAlive(s, t.con) && t in s.live)
  }

  /** MsgTimerRemove::proc up to the epoll half of its update, which is made only if the top went. */
  ghost function DeliverRemove(s: State, t: Timer): State {
    var con := Con(s, t.con);
    var (heap, found) := Remove(con.heap, t, OutRanks);
    var u := if Top(con.heap) == (if found then Some(t) else None) then Soonest(None, Top(heap)) else Keep;
    Touch(Updated(PutCon(s, t.con, con.(heap := heap)), t.con, u, Some(t)),
          HeapAlive(s, t.con) && t in s.live)
  }

  /** The message thread takes the next message and does its heap work. */
  ghost function Deliver(s: State): State
    requires s.task == Idle && s.queue != []
  {
    var s1 := s.(queue := s.queue[1..]);
    match s.queue[0]
    case MsgPush(t) => DeliverPush(s1, t)
    case MsgRemove(t) => DeliverRemove(s1, t)
    case MsgExpire(c) => s1.(task := Draining(c, s.clock, true))
  }

  function ProgramStep(s: State): State
    requires s.task.Programming?
  {
    PutCon(s, s.task.con, Program(Con(s, s.task.con), s.task.u)).(
      task := if s.task.doomed.Some? then Deleting(s.task.doomed.value) else Idle)
  }

  function Delete(s: State): State
    requires s.task.Deleting?
  {
    var t := s.task.t;
    if t !in s.live then s.(task := Idle, fault := true)
    else Drop(s, t.owner).(task := Idle, live := s.live - {t}, stopped := s.stopped - {t})
  }

  /** One evaluation of the drain loop's head. */
  ghost function Drain(s: State): State
    requires s.task.Draining?
  {
    var Draining(c, now, first) := s.task;
    var con := Con(s, c);
    if con.heap.Node? && (first || Due(con.heap, now)) then
      Touch(PutCon(s, c, con.(heap := Pop(con.heap, OutRanks)))
              .(task := Popped(c, now, first, con.heap.data)),
            HeapAlive(s, c))
    else
      Touch(Updated(s, c, Soonest(None, Top(con.heap)), None), HeapAlive(s, c))
  }

  /** LocTimerDelegate::expire reads mClient, without the lock. */
  function ReadClient(s: State): State
    requires s.task.Popped?
  {
    var Popped(c, now, first, t) := s.task;
    s.(task := Calling(c, now, first, t, if t in s.stopped then None else Some(t.owner)),
       fault := s.fault || t !in s.live)
  }

  /** ... and then stops whatever timer that client has by now, and calls the client back if it
      had one. */
  function Call(s: State): State
    requires s.task.Calling?
  {
    var Calling(c, now, first, t, client) := s.task;
    var s1 := s.(task := Draining(c, now, false));
    if client.None? then s1
    else if client.value !in s.clients || client.value !in s.locks then s1.(fault := true)
    else if s.clients[client.value].timer.None? then s1
    else
      StopTimer(s1, client.value).(log := s.log + [Fired(s.clients[client.value].timer.value, t, now, first)])
  }

  // -------------------------------------------------------------------- steps

  datatype Step =
    | TickStep(now: Time)
    | NewClientStep
    | StartStep(k: ClientId, ms: nat, con: bool)
    | StopStep(k: ClientId)
    | RetireStep(k: ClientId)
    | DestroyStep(k: ClientId)
    | WakeStep(ready: seq<bool>)
    | PollStep_
    | DeliverStep
    | ProgramStep_
    | DeleteStep
    | DrainStep
    | ReadStep
    | CallStep

  /** Clients do not use a LocTimer whose destructor has begun, and do not destroy one while the
      message thread holds its address between the read of mClient and the end of the callback. */
  ghost predicate Enabled(s: State, a: Step) {
    match a
    case TickStep(now) => ClockInRange(now) && Nanos(s.clock) <= Nanos(now)
    case NewClientStep => true
    case StartStep(k, ms, _) =>
      ClockInRange(s.clock) && ms < 0x1_0000_0000 && k in s.clients && !s.clients[k].dying
    case StopStep(k) => k in s.clients && !s.clients[k].dying
    case RetireStep(k) =>
      k in s.clients && !s.clients[k].dying && !(s.task.Calling? && s.task.client == Some(k))
    case DestroyStep(k) => k in s.clients && s.clients[k].dying
    case WakeStep(ready) =>
      && s.events == [] && ready != []
      && (forall i :: 0 <= i < |ready| ==> Ready(s, ready[i]))
      && (forall i, j :: 0 <= i < j < |ready| ==> ready[i] != ready[j])
    case PollStep_ => s.events != []
    case DeliverStep => s.task == Idle && s.queue != []
    case ProgramStep_ => s.task.Programming?
    case DeleteStep => s.task.Deleting?
    case DrainStep => s.task.Draining?
    case ReadStep => s.task.Popped?
    case CallStep => s.task.Calling?
  }

  ghost function Apply(s: State, a: Step): State
    requires Enabled(s, a)
  {
    match a
    case TickStep(now) => s.(clock := now)
    case NewClientStep => NewClient(s)
    case StartStep(k, ms, con) => Start(s, k, ms, con)
    case StopStep(k) => Stop(s, k)
    case RetireStep(k) => Retire(s, k)
    case DestroyStep(k) => Destroy(s, k)
    case WakeStep(ready) => s.(events := ready, stage := 0)
    case PollStep_ => PollStep(s)
    case DeliverStep => Deliver(s)
    case ProgramStep_ => ProgramStep(s)
    case DeleteStep => Delete(s)
    case DrainStep => Drain(s)
    case ReadStep => ReadClient(s)
    case CallStep => Call(s)
  }

  ghost predicate Next(s: State, s': State) {
    exists a :: Enabled(s, a) && s' == Apply(s, a)
  }

  ghost predicate NextAt(run: seq<State>, i: int) {
    0 <= i < |run| - 1 ==> Next(run[i], run[i + 1])
  }

  /** Any interleaving, from the start. */
  ghost predicate IsRun(run: seq<State>) {
    run != [] && Init(run[0]) && forall i :: NextAt(run, i)
  }
}
