/** The service never spins and never stalls: left to itself it comes to rest, at rest every heap
    has its wake-up armed, and a due timer then gets its callback. */
module TimerLiveness {
  import opened Wrappers
  import opened HeapTree
  import opened TimerTypes
  import opened TimerService
  import opened TimerInvariant
  import opened TimerWakeup
  import opened TimerHistory
  import opened TimerFrames
  import opened TimerTheorems

  /** The steps that the poll thread and the message thread take by themselves. */
  predicate Service(a: Step) {
    a.PollStep_? || a.DeliverStep? || a.ProgramStep_? || a.DeleteStep? || a.DrainStep? || a.ReadStep?
    || a.CallStep?
  }

  predicate Quiet(s: State) {
    s.task == Idle && s.queue == [] && s.events == []
  }

  // --------------------------------------------------- how much is left to do

  function MsgWork(m: Msg): nat {
    if m.MsgPush? then 5 else 3
  }

  function QueueWork(q: seq<Msg>): nat {
    if q == [] then 0 else MsgWork(q[0]) + QueueWork(q[1..])
  }

  function TaskWork(task: Task): nat {
    match task
    case Idle => 0
    case Deleting(_) => 1
    case Programming(_, _, doomed) => if doomed.Some? then 2 else 1
    case Draining(_, _, _) => 2
    case Calling(_, _, _, _, _) => 3
    case Popped(_, _, _, _) => 4
  }

  function PollWork(events: seq<bool>, stage: nat): nat {
    if events == [] then 0 else 6 * |events| - if stage < 2 then stage else 2
  }

  ghost function Work(s: State): nat {
    QueueWork(s.queue) + TaskWork(s.task) + PollWork(s.events, s.stage)
    + 3 * (Count(s.sw.heap) + Count(s.hw.heap)) + 3 * |s.live - s.stopped|
  }

  lemma {:induction false} QueueWorkAppend(q: seq<Msg>, m: Msg)
    ensures QueueWork(q + [m]) == QueueWork(q) + MsgWork(m)
  {
    if q == [] {
      assert q + [m] == [m];
    } else {
      QueueWorkAppend(q[1..], m);
      assert (q + [m])[1..] == q[1..] + [m];
    }
  }

  lemma PollWorks(s: State)
    requires s.events != []
    ensures Work(PollStep(s)) < Work(s)
  {
    PollFrame(s);
    assert PollStep(s).sw.heap == s.sw.heap && PollStep(s).hw.heap == s.hw.heap;
    if s.stage >= 2 {
      QueueWorkAppend(s.queue, MsgExpire(s.events[0]));
    }
  }

  lemma DeliverPushWorks(s: State, t: Timer)
    requires s.task == Idle
    ensures Work(DeliverPush(s, t)) <= Work(s) + 4
  {
    PushCounts(Con(s, t.con).heap, t, OutRanks);
  }

  lemma DeliverRemoveWorks(s: State, t: Timer)
    requires s.task == Idle
    ensures Work(DeliverRemove(s, t)) <= Work(s) + 2
  {
    RemoveCounts(Con(s, t.con).heap, t, OutRanks);
  }

  lemma DeliverWorks(s: State)
    requires s.task == Idle && s.queue != []
    ensures Work(Deliver(s)) < Work(s)
  {
    var s1 := s.(queue := s.queue[1..]);
    match s.queue[0]
    case MsgPush(t) => DeliverPushWorks(s1, t);
    case MsgRemove(t) => DeliverRemoveWorks(s1, t);
    case MsgExpire(_) =>
  }

  lemma DeleteWorks(s: State)
    requires s.task.Deleting? && s.task.t in s.stopped
    ensures Work(Delete(s)) < Work(s)
  {
    DeleteFrame(s);
    if s.task.t in s.live {
      assert (s.live - {s.task.t}) - (s.stopped - {s.task.t}) == s.live - s.stopped;
    }
  }

  lemma PopWorks(s: State)
    requires s.task.Draining? && Con(s, s.task.con).heap.Node?
    requires s.task.first || Due(Con(s, s.task.con).heap, s.task.now)
    ensures Work(Drain(s)) < Work(s)
  {
    PopCounts(Con(s, s.task.con).heap, OutRanks);
  }

  lemma DrainEndWorks(s: State)
    requires s.task.Draining?
    requires Con(s, s.task.con).heap.Node? ==>
               !s.task.first && !Due(Con(s, s.task.con).heap, s.task.now)
    ensures Work(Drain(s)) < Work(s)
  {
  }

  lemma CallWorks(s: State)
    requires Lives(s) && s.task.Calling?
    ensures Work(Call(s)) < Work(s)
  {
    var client := s.task.client;
    if client.Some? {
      assert LockOk(s, client.value);
      if s.clients[client.value].timer.Some? {
        CallStops(s);
        StopWorks(s, s.clients[client.value].timer.value);
      }
    }
  }

  /** What a callback does to what there is to do. */
  lemma CallStops(s: State)
    requires Lives(s) && s.task.Calling? && s.task.client.Some? && s.clients[s.task.client.value].timer.Some?
    ensures var t, s' := s.clients[s.task.client.value].timer.value, Call(s);
            && t in s.live && t !in s.stopped
            && s'.queue == s.queue + [MsgRemove(t)] && s'.live == s.live && s'.stopped == s.stopped + {t}
            && s'.sw == s.sw && s'.hw == s.hw && s'.events == s.events && s'.stage == s.stage
            && s'.task.Draining?
  {
    assert LockOk(s, s.task.client.value);
    StopTimerKeeps(s, s.task.client.value);
  }

  lemma StopWorks(s: State, t: Timer)
    requires t in s.live && t !in s.stopped
    ensures QueueWork(s.queue + [MsgRemove(t)]) + 3 * |s.live - (s.stopped + {t})|
         == QueueWork(s.queue) + 3 * |s.live - s.stopped|
  {
    QueueWorkAppend(s.queue, MsgRemove(t));
    assert s.live - (s.stopped + {t}) == (s.live - s.stopped) - {t};
    assert t in s.live - s.stopped;
  }

  /** Each step that the service takes by itself leaves it less to do. */
  lemma ServiceWorks(s: State, a: Step)
    requires Lives(s) && Enabled(s, a) && Service(a)
    ensures Work(Apply(s, a)) < Work(s)
  {
    if a.PollStep_? {
      PollWorks(s);
    } else if a.DeliverStep? {
      DeliverWorks(s);
    } else if a.DeleteStep? {
      assert Placed(s, s.task.t);
      DeleteWorks(s);
    } else if a.DrainStep? {
      if Con(s, s.task.con).heap.Node? && (s.task.first || Due(Con(s, s.task.con).heap, s.task.now)) {
        PopWorks(s);
      } else {
        DrainEndWorks(s);
      }
    } else if a.CallStep? {
      CallWorks(s);
    } else if a.ProgramStep_? {
      ProgramWorks(s);
    }
  }

  lemma ProgramWorks(s: State)
    requires s.task.Programming?
    ensures Work(ProgramStep(s)) < Work(s)
  {
  }

  // ------------------------------------------------------------ coming to rest

  ghost predicate ServiceNext(s: State, s': State) {
    exists a :: Service(a) && Enabled(s, a) && s' == Apply(s, a)
  }

  ghost predicate ServiceAt(run: seq<State>, i: int) {
    0 <= i < |run| - 1 ==> ServiceNext(run[i], run[i + 1])
  }

  ghost predicate IsServiceRun(run: seq<State>) {
    run != [] && forall i :: ServiceAt(run, i)
  }

  /** Each step has taken away from the work that there was. */
  ghost predicate Worked(run: seq<State>, i: nat)
    requires i < |run|
  {
    Inv(run[i]) && i + Work(run[i]) <= Work(run[0])
  }

  lemma ServiceAtWorks(run: seq<State>, i: nat)
    requires IsServiceRun(run) && i < |run| - 1 && Worked(run, i)
    ensures Worked(run, i + 1)
  {
    assert ServiceAt(run, i);
    var a :| Service(a) && Enabled(run[i], a) && run[i + 1] == Apply(run[i], a);
    ServiceWorks(run[i], a);
    StepKeepsInv(run[i], a);
  }

  /** The service cannot run on by itself for more steps than it has work. */
  lemma {:induction false} ServiceStops(run: seq<State>, i: nat)
    requires IsServiceRun(run) && Inv(run[0]) && i < |run|
    ensures Worked(run, i)
  {
    if i > 0 {
      ServiceStops(run, i - 1);
      ServiceAtWorks(run, i - 1);
    }
  }

  /** It never stalls short of rest: if it is not quiet, one of its threads can move. */
  lemma BusyCanMove(s: State)
    requires !Quiet(s)
    ensures exists a :: Service(a) && Enabled(s, a)
  {
    var a := match s.task
      case Idle => if s.queue != [] then DeliverStep else PollStep_
      case Programming(_, _, _) => ProgramStep_
      case Deleting(_) => DeleteStep
      case Draining(_, _, _) => DrainStep
      case Popped(_, _, _, _) => ReadStep
      case Calling(_, _, _, _, _) => CallStep;
    assert Service(a) && Enabled(s, a);
  }

  /** So from anywhere it can reach, the service by itself comes to rest. */
  lemma {:induction false} ComesToRest(s: State) returns (run: seq<State>)
    requires Inv(s)
    ensures IsServiceRun(run) && run[0] == s && Quiet(run[|run| - 1]) && Inv(run[|run| - 1])
    decreases Work(s)
  {
    if Quiet(s) {
      run := [s];
      return;
    }
    BusyCanMove(s);
    var a :| Service(a) && Enabled(s, a);
    ServiceWorks(s, a);
    StepKeepsInv(s, a);
    var rest := ComesToRest(Apply(s, a));
    assert ServiceNext(s, rest[0]);
    Prepend(s, rest);
    run := [s] + rest;
  }

  lemma Prepend(s: State, rest: seq<State>)
    requires IsServiceRun(rest) && ServiceNext(s, rest[0])
    ensures IsServiceRun([s] + rest)
  {
    forall i ensures ServiceAt([s] + rest, i) {
      PrependAt(s, rest, i);
    }
  }

  lemma PrependAt(s: State, rest: seq<State>, i: int)
    requires IsServiceRun(rest) && ServiceNext(s, rest[0])
    ensures ServiceAt([s] + rest, i)
  {
    var run := [s] + rest;
    if i == 0 {
      assert run[0] == s && run[1] == rest[0];
    } else if 0 < i < |run| - 1 {
      assert ServiceAt(rest, i - 1);
      assert run[i] == rest[i - 1] && run[i + 1] == rest[i];
    }
  }

  /** At rest, a heap that holds a timer has its fd polled and armed at the deadline on top, so the
      poll thread wakes as soon as the clock gets there. */
  lemma RestIsArmed(s: State, c: bool)
    requires Inv(s) && Quiet(s) && Con(s, c).heap.Node?
    ensures var con := Con(s, c); con.polled && con.armed == Some(con.heap.data.future)
    ensures Nanos(Con(s, c).heap.data.future) <= Nanos(s.clock) ==> Enabled(s, WakeStep([c]))
  {
  }

  ghost function After(s: State, steps: seq<Step>): Option<State>
    decreases |steps|
  {
    if steps == [] then Some(s)
    else if Enabled(s, steps[0]) then After(Apply(s, steps[0]), steps[1..])
    else None
  }

  lemma AtRestRunning(s: State, c: bool)
    requires Inv(s) && Quiet(s) && Con(s, c).heap.Node?
    ensures var t := Con(s, c).heap.data;
            && t in s.live && t !in s.stopped && t.con == c
            && t.owner in s.clients && t.owner in s.locks && s.clients[t.owner].timer == Some(t)
  {
    var t := Con(s, c).heap.data;
    assert Placed(s, t) && Linked(s, t);
    OwnerLocked(s, t);
  }

  lemma {:induction false} AfterBoth(s: State, a: seq<Step>, b: seq<Step>)
    requires After(s, a).Some?
    ensures After(s, a + b) == After(After(s, a).value, b)
    decreases |a|
  {
    if a == [] {
      assert a + b == b;
    } else {
      AfterBoth(Apply(s, a[0]), a[1..], b);
      assert (a + b)[0] == a[0] && (a + b)[1..] == a[1..] + b;
    }
  }

  /** The poll thread disarms the fd, takes it out of the epoll set and sends the expiry. */
  lemma WakeTrip(s: State, c: bool)
    requires Quiet(s) && Ready(s, c)
    ensures After(s, [WakeStep([c]), PollStep_, PollStep_, PollStep_])
            == Some(PutCon(s, c, Con(s, c).(polled := false, armed := None))
                      .(queue := [MsgExpire(c)], stage := 0))
  {
    var s1 := s.(events := [c], stage := 0);
    var s2 := PutCon(s1, c, Con(s, c).(armed := None)).(stage := 1);
    var s3 := PutCon(s1, c, Con(s, c).(armed := None, polled := false)).(stage := 2);
    var s4 := s3.(queue := [MsgExpire(c)], events := [], stage := 0);
    assert PollStep(s3) == s4;
    assert After(s3, [PollStep_]) == Some(s4);
    assert PollStep(s2) == s3;
    assert After(s2, [PollStep_, PollStep_]) == Some(s4);
    assert PollStep(s1) == s2;
    assert After(s1, [PollStep_, PollStep_, PollStep_]) == Some(s4);
  }

  lemma PopTrip(s: State, c: bool, t: Timer)
    requires s.task == Idle && s.queue == [MsgExpire(c)] && Top(Con(s, c).heap) == Some(t)
    requires HeapAlive(s, c)
    ensures After(s, [DeliverStep, DrainStep])
            == Some(PutCon(s, c, Con(s, c).(heap := Pop(Con(s, c).heap, OutRanks)))
                      .(queue := [], task := Popped(c, s.clock, true, t)))
  {
    var s1 := s.(queue := [], task := Draining(c, s.clock, true));
    assert Deliver(s) == s1;
    assert HeapAlive(s1, c);
    DrainPops(s1);
    assert After(s, [DeliverStep]) == Some(s1) && After(s1, [DrainStep]) == Some(Drain(s1));
    AfterBoth(s, [DeliverStep], [DrainStep]);
    assert [DeliverStep] + [DrainStep] == [DeliverStep, DrainStep];
  }

  lemma DrainPops(s: State)
    requires s.task.Draining? && s.task.first && Con(s, s.task.con).heap.Node? && HeapAlive(s, s.task.con)
    ensures var Draining(c, now, _) := s.task;
            Drain(s) == PutCon(s, c, Con(s, c).(heap := Pop(Con(s, c).heap, OutRanks)))
                          .(task := Popped(c, now, true, Con(s, c).heap.data))
  {
  }

  lemma CallTrip(s: State, t: Timer)
    requires s.task.Popped? && s.task.t == t && t in s.live && t !in s.stopped
    requires t.owner in s.clients && t.owner in s.locks && s.clients[t.owner].timer == Some(t)
    ensures var after := After(s, [ReadStep, CallStep]);
            after.Some? && after.value.log == s.log + [Fired(t, t, s.task.now, s.task.first)]
  {
    var s1 := s.(task := Calling(s.task.con, s.task.now, s.task.first, t, Some(t.owner)));
    assert ReadClient(s) == s1;
    assert After(s1, [CallStep]) == Some(Call(s1));
  }

  /** The message thread pops the timer on top and calls its client back. */
  lemma DrainTrip(s: State, c: bool, t: Timer)
    requires s.task == Idle && s.queue == [MsgExpire(c)] && Top(Con(s, c).heap) == Some(t)
    requires HeapAlive(s, c) && t in s.live && t !in s.stopped && t.owner in s.clients && t.owner in s.locks
    requires s.clients[t.owner].timer == Some(t)
    ensures var after := After(s, [DeliverStep, DrainStep] + [ReadStep, CallStep]);
            after.Some? && after.value.log == s.log + [Fired(t, t, s.clock, true)]
  {
    PopTrip(s, c, t);
    CallTrip(After(s, [DeliverStep, DrainStep]).value, t);
    AfterBoth(s, [DeliverStep, DrainStep], [ReadStep, CallStep]);
  }

  /** From rest, once the deadline on top has come, the wake of the poll thread and seven steps of
      the service end in the callback of that very timer. */
  lemma DueTimerFires(s: State, c: bool)
    requires Inv(s) && Quiet(s) && Con(s, c).heap.Node?
    requires Nanos(Con(s, c).heap.data.future) <= Nanos(s.clock)
    ensures var t := Con(s, c).heap.data;
            var after := After(s, [WakeStep([c]), PollStep_, PollStep_, PollStep_]
                                  + ([DeliverStep, DrainStep] + [ReadStep, CallStep]));
            after.Some? && after.value.log == s.log + [Fired(t, t, s.clock, true)]
  {
    AtRestRunning(s, c);
    RestIsArmed(s, c);
    HeapElementsLive(s, c);
    WakeTrip(s, c);
    var wake := [WakeStep([c]), PollStep_, PollStep_, PollStep_];
    DrainTrip(After(s, wake).value, c, Con(s, c).heap.data);
    AfterBoth(s, wake, [DeliverStep, DrainStep] + [ReadStep, CallStep]);
  }
}
