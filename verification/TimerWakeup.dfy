/** No timer wake-up is lost: what the heap, the epoll set, the timerfd, the poll thread and the
    message queue keep between them, whichever way the threads interleave. */
module TimerWakeup {
  import opened Wrappers
  import opened HeapTree
  import opened TimerTypes
  import opened TimerService
  import opened TimerInvariant

  /** An expiry of this container is on its way to the message thread. */
  ghost predicate InFlight(s: State, c: bool) {
    c in s.events || MsgExpire(c) in s.queue
  }

  /** The message thread is working on this container and will end with an update of it. */
  ghost predicate DrainingOn(s: State, c: bool) {
    (s.task.Draining? || s.task.Popped? || s.task.Calling?) && s.task.con == c
  }

  ghost predicate Watched(s: State, c: bool) {
    var con := Con(s, c);
    if s.task.Programming? && s.task.con == c then
      // the branch that disarms is never taken
      && con.heap.Node? && s.task.u == ArmAt(con.heap.data.future)
      && (InFlight(s, c) || con.polled)
    else
      con.heap.Node? && !DrainingOn(s, c) ==>
        InFlight(s, c) || (con.polled && con.armed == Some(con.heap.data.future))
  }

  /** Client steps, the clock and a wake of the poll thread only ever add to what is in flight. */
  lemma GrowthKeepsWatched(s: State, s': State, c: bool)
    requires Watched(s, c)
    requires s'.sw == s.sw && s'.hw == s.hw && s'.task == s.task
    requires s'.events == s.events || s.events == []
    requires s.queue <= s'.queue
    ensures Watched(s', c)
  {
    if MsgExpire(c) in s.queue {
      var i :| 0 <= i < |s.queue| && s.queue[i] == MsgExpire(c);
      assert s'.queue[i] == MsgExpire(c);
    }
  }

  lemma PollKeepsWatched(s: State, c: bool)
    requires s.events != [] && Watched(s, c)
    ensures Watched(PollStep(s), c)
  {
    if s.stage >= 2 {
      SendKeepsFlight(s, c);
    }
  }

  /** The expiry that the poll thread has sent is queued. */
  lemma SendKeepsFlight(s: State, c: bool)
    requires s.events != [] && s.stage >= 2
    ensures InFlight(PollStep(s), c) <==> InFlight(s, c)
  {
    assert s.events == [s.events[0]] + s.events[1..];
    assert PollStep(s).queue == s.queue + [MsgExpire(s.events[0])];
  }

  lemma DequeueKeepsFlight(s: State, c: bool)
    requires s.queue != [] && s.queue[0] != MsgExpire(c)
    ensures MsgExpire(c) in s.queue[1..] <==> MsgExpire(c) in s.queue
  {
    assert s.queue == [s.queue[0]] + s.queue[1..];
  }

  lemma DequeueKeepsWatched(s: State, c: bool)
    requires s.queue != [] && s.queue[0] != MsgExpire(c) && Watched(s, c)
    ensures Watched(s.(queue := s.queue[1..]), c)
  {
    DequeueKeepsFlight(s, c);
  }

  /** What an update must decide for the heap it finds. */
  ghost predicate Sound(prior: Tree<Timer>, heap: Tree<Timer>, u: Update) {
    if u.Keep? then heap.Leaf? || Top(heap) == Top(prior) else heap.Node? && u == ArmAt(heap.data.future)
  }

  lemma UpdateKeepsWatched(s: State, e: bool, heap: Tree<Timer>, u: Update, doomed: Option<Timer>, c: bool)
    requires s.task == Idle && Sound(Con(s, e).heap, heap, u) && Watched(s, c)
    ensures Watched(Updated(PutCon(s, e, Con(s, e).(heap := heap)), e, u, doomed), c)
  {
  }

  lemma PushIsSound(heap: Tree<Timer>, n: Timer)
    requires HeapTree.Valid(heap, OutRanks)
    ensures Sound(heap, Push(heap, n, OutRanks), Soonest(Top(heap), Top(Push(heap, n, OutRanks))))
  {
    PushAdds(heap, n, OutRanks) by { OutRanksBySecond(); }
  }

  /** What MsgTimerRemove makes of the update. */
  function Removal(heap: Tree<Timer>, n: Timer): Update {
    var (rest, found) := Remove(heap, n, OutRanks);
    if Top(heap) == (if found then Some(n) else None) then Soonest(None, Top(rest)) else Keep
  }

  lemma RemoveIsSound(heap: Tree<Timer>, n: Timer)
    requires HeapTree.Valid(heap, OutRanks)
    ensures Sound(heap, Remove(heap, n, OutRanks).0, Removal(heap, n))
  {
    RemoveIsComplete(heap, n, OutRanks) by { OutRanksBySecond(); }
  }

  lemma DeliverPushKeepsWatched(s: State, n: Timer, c: bool)
    requires HeapsValid(s) && s.task == Idle && Watched(s, c)
    ensures Watched(DeliverPush(s, n), c)
  {
    var heap := Con(s, n.con).heap;
    PushIsSound(heap, n);
    UpdateKeepsWatched(s, n.con, Push(heap, n, OutRanks), Soonest(Top(heap), Top(Push(heap, n, OutRanks))),
                       None, c);
  }

  lemma DeliverRemoveKeepsWatched(s: State, n: Timer, c: bool)
    requires HeapsValid(s) && s.task == Idle && Watched(s, c)
    ensures Watched(DeliverRemove(s, n), c)
  {
    var heap := Con(s, n.con).heap;
    RemoveIsSound(heap, n);
    UpdateKeepsWatched(s, n.con, Remove(heap, n, OutRanks).0, Removal(heap, n), Some(n), c);
  }

  lemma DeliverKeepsWatched(s: State, c: bool)
    requires HeapsValid(s) && s.task == Idle && s.queue != [] && Watched(s, c)
    ensures Watched(Deliver(s), c)
  {
    if s.queue[0] != MsgExpire(c) {
      DequeueKeepsWatched(s, c);
      var s1 := s.(queue := s.queue[1..]);
      match s.queue[0]
      case MsgPush(n) => DeliverPushKeepsWatched(s1, n, c);
      case MsgRemove(n) => DeliverRemoveKeepsWatched(s1, n, c);
      case MsgExpire(_) =>
    }
  }

  lemma ProgramKeepsWatched(s: State, c: bool)
    requires s.task.Programming? && Watched(s, c)
    ensures Watched(ProgramStep(s), c)
  {
  }

  lemma DeleteKeepsWatched(s: State, c: bool)
    requires s.task.Deleting? && Watched(s, c)
    ensures Watched(Delete(s), c)
  {
  }

  lemma DrainKeepsWatched(s: State, c: bool)
    requires s.task.Draining? && Watched(s, c)
    ensures Watched(Drain(s), c)
  {
    var con := Con(s, s.task.con);
    if !(con.heap.Node? && (s.task.first || Due(con.heap, s.task.now))) {
      DrainEndKeepsWatched(s, c);
    }
  }

  lemma DrainEndKeepsWatched(s: State, c: bool)
    requires s.task.Draining? && Watched(s, c)
    ensures Watched(Updated(s, s.task.con, Soonest(None, Top(Con(s, s.task.con).heap)), None), c)
  {
  }

  lemma CallKeepsWatched(s: State, c: bool)
    requires Lives(s) && s.task.Calling? && Watched(s, c)
    ensures Watched(Call(s), c)
  {
    if s.task.client.Some? && s.clients[s.task.client.value].timer.Some? {
      StopTimerKeeps(s, s.task.client.value);
      GrowthKeepsWatched(s.(task := Draining(s.task.con, s.task.now, false)), Call(s), c);
    }
  }

  lemma StopKeepsWatched(s: State, k: ClientId, c: bool)
    requires k in s.clients && Watched(s, c)
    ensures Watched(Stop(s, k), c)
  {
    GrowthKeepsWatched(s, Stop(s, k), c);
  }

  /** Message thread steps aside, a step leaves the containers alone or is the poll thread's. */
  lemma OtherKeepsWatched(s: State, a: Step, c: bool)
    requires Enabled(s, a) && Watched(s, c)
    requires a.TickStep? || a.NewClientStep? || a.StartStep? || a.StopStep? || a.RetireStep?
             || a.DestroyStep? || a.WakeStep?
    ensures Watched(Apply(s, a), c)
  {
    match a
    case TickStep(now) => GrowthKeepsWatched(s, s.(clock := now), c);
    case NewClientStep => GrowthKeepsWatched(s, NewClient(s), c);
    case StartStep(k, ms, con) => GrowthKeepsWatched(s, Start(s, k, ms, con), c);
    case StopStep(k) => StopKeepsWatched(s, k, c);
    case RetireStep(k) =>
      StopKeepsWatched(s, k, c);
      GrowthKeepsWatched(Stop(s, k), Retire(s, k), c);
    case DestroyStep(k) => GrowthKeepsWatched(s, Destroy(s, k), c);
    case WakeStep(ready) => GrowthKeepsWatched(s, s.(events := ready, stage := 0), c);
  }

  lemma StepKeepsWatched(s: State, a: Step, c: bool)
    requires Lives(s) && Enabled(s, a) && Watched(s, c)
    ensures Watched(Apply(s, a), c)
  {
    if a.PollStep_? {
      PollKeepsWatched(s, c);
    } else if a.DeliverStep? {
      DeliverKeepsWatched(s, c);
    } else if a.CallStep? {
      CallKeepsWatched(s, c);
    } else if a.ProgramStep_? {
      ProgramKeepsWatched(s, c);
    } else if a.DeleteStep? {
      DeleteKeepsWatched(s, c);
    } else if a.DrainStep? {
      DrainKeepsWatched(s, c);
    } else if !a.ReadStep? {
      OtherKeepsWatched(s, a, c);
    }
  }
}
