/** An expiry on its way sees to every timer in its container whose second has come: however the poll
    thread and the message thread take turns, once they are at rest each has been called back. */
module TimerDue {
  import opened Wrappers
  import opened HeapTree
  import opened TimerTypes
  import opened TimerService
  import opened TimerInvariant
  import opened TimerWakeup
  import opened TimerHistory
  import opened TimerFrames
  import opened TimerTheorems
  import opened TimerTrace
  import opened TimerLiveness

  /** While `x` is in the heap, an expiry is on its way to it or its second has come for the drain. */
  ghost predicate Chased(s: State, c: bool, x: Timer) {
    && WasPushed(s, x)
    && x.future.sec <= s.clock.sec
    && (Occurs(Con(s, c).heap, x) > 0 ==>
          InFlight(s, c) || (DrainingOn(s, c) && x.future.sec <= s.task.now.sec))
  }

  lemma FlightStays(s: State, s': State, a: Step, c: bool)
    requires QueueAfter(s, s', a) && InFlight(s, c) && !a.WakeStep?
    requires a.DeliverStep? ==> s.queue[0] != MsgExpire(c)
    ensures InFlight(s', c)
  {
    if a.DeliverStep? {
      DequeueKeepsFlight(s, c);
    } else if a.PollStep_? && s.stage >= 2 {
      assert s.events == [s.events[0]] + s.events[1..];
      assert MsgExpire(s.events[0]) in s'.queue;
    }
  }

  /** No step of the service puts into a heap what is not waiting to be pushed. */
  lemma HeapShrinks(s: State, a: Step, c: bool, x: Timer)
    requires Inv(s) && Enabled(s, a) && Service(a) && Pushes(s, x) == 0
    ensures Occurs(Con(Apply(s, a), c).heap, x) <= Occurs(Con(s, c).heap, x)
  {
    match a
    case DeliverStep => DeliverShrinks(s, c, x);
    case DrainStep => DrainShrinks(s, c, x);
    case CallStep => CallQueue(s);
    case PollStep_ => assert Con(PollStep(s), c).heap == Con(s, c).heap;
    case ProgramStep_ => ProgramFrame(s);
    case DeleteStep => DeleteFrame(s);
    case ReadStep => assert Con(ReadClient(s), c) == Con(s, c);
  }

  lemma DeliverShrinks(s: State, c: bool, x: Timer)
    requires Lives(s) && s.task == Idle && s.queue != [] && Pushes(s, x) == 0
    ensures Occurs(Con(Deliver(s), c).heap, x) <= Occurs(Con(s, c).heap, x)
  {
    var s1 := s.(queue := s.queue[1..]);
    match s.queue[0]
    case MsgPush(t) =>
      Dequeued(s.queue, MsgPush(x));
      DeliverPushHeap(s1, t, c);
      PushOccurrences(Con(s, t.con).heap, t, x, OutRanks);
    case MsgRemove(t) =>
      DeliverRemoveHeap(s1, t, c);
      RemoveOccurrences(Con(s, t.con).heap, t, x, OutRanks);
    case MsgExpire(_) =>
  }

  lemma DeliverPushHeap(s: State, t: Timer, c: bool)
    ensures Con(DeliverPush(s, t), c).heap
         == if c == t.con then Push(Con(s, c).heap, t, OutRanks) else Con(s, c).heap
  {
  }

  lemma DeliverRemoveHeap(s: State, t: Timer, c: bool)
    ensures Con(DeliverRemove(s, t), c).heap
         == if c == t.con then Remove(Con(s, c).heap, t, OutRanks).0 else Con(s, c).heap
  {
  }

  lemma DrainShrinks(s: State, c: bool, x: Timer)
    requires Lives(s) && s.task.Draining?
    ensures Occurs(Con(Drain(s), c).heap, x) <= Occurs(Con(s, c).heap, x)
  {
    var heap := Con(s, s.task.con).heap;
    if heap.Node? && (s.task.first || Due(heap, s.task.now)) {
      OutRanksBySecond();
      PopRemovesTop(heap, OutRanks);
      assert Con(Drain(s), s.task.con).heap == Pop(heap, OutRanks);
      assert Con(Drain(s), !s.task.con).heap == Con(s, !s.task.con).heap;
    } else {
      assert Con(Drain(s), c).heap == Con(s, c).heap;
    }
  }

  /** The drain stops only when nothing in the heap is due. */
  lemma DrainedIsLater(s: State, x: Timer)
    requires Inv(s) && s.task.Draining? && !Drain(s).task.Popped?
    requires Occurs(Con(s, s.task.con).heap, x) > 0
    ensures s.task.now.sec < x.future.sec
  {
    var heap := Con(s, s.task.con).heap;
    OutRanksBySecond();
    NothingOutranksTop(heap, OutRanks);
    DueIsBySecond(heap, s.task.now);
  }

  /** Where the service leaves the message thread, if it was on container `c` or takes an expiry. */
  lemma DrainGoesOn(s: State, a: Step, c: bool)
    requires Lives(s) && Enabled(s, a) && Service(a)
    ensures DrainingOn(s, c) && !(a.DrainStep? && !Drain(s).task.Popped?) ==>
              DrainingOn(Apply(s, a), c) && Apply(s, a).task.now == s.task.now
    ensures a.DeliverStep? && s.queue[0] == MsgExpire(c) ==>
              DrainingOn(Apply(s, a), c) && Apply(s, a).task.now == s.clock
  {
    match a
    case DeliverStep => DeliverLog(s);
    case CallStep => CallLog(s);
    case PollStep_ => assert PollStep(s).task == s.task;
    case DrainStep => if Drain(s).task.Popped? {
      var heap := Con(s, s.task.con).heap;
      assert Drain(s).task == Popped(s.task.con, s.task.now, s.task.first, heap.data);
    }
    case ReadStep =>
    case ProgramStep_ =>
    case DeleteStep =>
  }

  lemma ServiceKeepsChased(s: State, a: Step, c: bool, x: Timer)
    requires Inv(s) && Enabled(s, a) && Service(a) && Chased(s, c, x)
    ensures Chased(Apply(s, a), c, x)
  {
    var s' := Apply(s, a);
    StepQueue(s, a);
    StepGrows(s, a);
    WasPushedStays(s, s', a, x);
    ServiceKeepsClock(s, a);
    HeapShrinks(s, a, c, x);
    if Occurs(Con(s', c).heap, x) > 0 {
      DrainGoesOn(s, a, c);
      if a.DeliverStep? && s.queue[0] == MsgExpire(c) {
      } else if InFlight(s, c) {
        FlightStays(s, s', a, c);
      } else if a.DrainStep? && !Drain(s).task.Popped? {
        DrainedIsLater(s, x);
      }
    }
  }

  lemma ServiceKeepsClock(s: State, a: Step)
    requires Lives(s) && Enabled(s, a) && Service(a)
    ensures Apply(s, a).clock == s.clock
  {
    match a
    case DeliverStep => DeliverQueue(s);
    case CallStep => CallQueue(s);
    case PollStep_ => PollFrame(s);
    case ProgramStep_ => ProgramFrame(s);
    case DeleteStep => DeleteFrame(s);
    case DrainStep => DrainFrame(s);
    case ReadStep =>
  }

  /** What the service itself adds to the history is callbacks. */
  ghost predicate CallsSince(log: seq<Outcome>, log': seq<Outcome>) {
    log <= log' && forall i :: |log| <= i < |log'| ==> log'[i].Fired?
  }

  lemma ServiceCalls(s: State, a: Step)
    requires Lives(s) && Enabled(s, a) && Service(a)
    ensures CallsSince(s.log, Apply(s, a).log)
  {
    match a
    case CallStep => CallFires(s);
    case DeliverStep => DeliverLog(s);
    case _ => OtherLog(s, a);
  }

  lemma CallFires(s: State)
    requires Lives(s) && s.task.Calling?
    ensures CallsSince(s.log, Call(s).log)
  {
    var client := s.task.client;
    if client.Some? {
      assert LockOk(s, client.value);
      if s.clients[client.value].timer.Some? {
        StopTimerKeeps(s, client.value);
        assert Call(s).log == s.log + [Fired(s.clients[client.value].timer.value, s.task.t, s.task.now, s.task.first)];
      }
    }
  }

  ghost predicate ChasedSince(run: seq<State>, i: nat, c: bool, x: Timer)
    requires i < |run|
  {
    Inv(run[i]) && Chased(run[i], c, x) && CallsSince(run[0].log, run[i].log)
  }

  lemma {:induction false} RunKeepsChased(run: seq<State>, i: nat, c: bool, x: Timer)
    requires IsServiceRun(run) && i < |run| && ChasedSince(run, 0, c, x)
    ensures ChasedSince(run, i, c, x)
  {
    if i > 0 {
      RunKeepsChased(run, i - 1, c, x);
      StepKeepsChased(run, i - 1, c, x);
    }
  }

  lemma StepKeepsChased(run: seq<State>, i: nat, c: bool, x: Timer)
    requires IsServiceRun(run) && i < |run| - 1 && ChasedSince(run, i, c, x)
    ensures ChasedSince(run, i + 1, c, x)
  {
    assert ServiceAt(run, i);
    var a :| Service(a) && Enabled(run[i], a) && run[i + 1] == Apply(run[i], a);
    StepKeepsInv(run[i], a);
    ServiceKeepsChased(run[i], a, c, x);
    ServiceCalls(run[i], a);
  }

  /** With an expiry of its container on the way, a timer in the heap whose second has come is gone by
      the time the service is at rest; it has had its callback, unless its client had stopped it
      before. This holds of every way for the service to come to rest. */
  lemma EveryDueTimerFires(run: seq<State>, c: bool, x: Timer)
    requires IsServiceRun(run) && Inv(run[0]) && InFlight(run[0], c) && Quiet(run[|run| - 1])
    requires Occurs(Con(run[0], c).heap, x) > 0 && x.future.sec <= run[0].clock.sec
    ensures var last := run[|run| - 1];
            && x !in last.live && Occurs(Con(last, c).heap, x) == 0
            && (x !in run[0].stopped ==>
                 exists i :: |run[0].log| <= i < |last.log| && last.log[i].Fired? && last.log[i].t == x)
  {
    var first, last := run[0], run[|run| - 1];
    assert Placed(first, x) && Settled(first, x);
    RunKeepsChased(run, |run| - 1, c, x);
    assert Placed(last, x) && Settled(last, x);
    assert Ended(last.log, x);
    if x !in first.stopped {
      assert forall j :: 0 <= j < |first.log| ==> last.log[j] == first.log[j] && first.log[j].t != x;
      var i :| 0 <= i < |last.log| && last.log[i].t == x;
    }
  }
}
