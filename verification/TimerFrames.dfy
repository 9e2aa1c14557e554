/** What each step of the timer service leaves as it is, and what it does to the queue, to what the
    fds are armed at and to the history. */
module TimerFrames {
  import opened Wrappers
  import opened HeapTree
  import opened TimerTypes
  import opened TimerService
  import opened TimerInvariant
  import opened TimerHistory

  /** The queue after a step: one message more, one less, or as it was. */
  ghost predicate QueueAfter(s: State, s': State, a: Step) {
    if a.DeliverStep? then s.queue != [] && s'.queue == s.queue[1..] && s'.events == s.events
    else if a.PollStep_? then
      && s.events != []
      && if s.stage < 2 then s'.queue == s.queue && s'.events == s.events
         else s'.queue == s.queue + [MsgExpire(s.events[0])] && s'.events == s.events[1..]
    else if a.WakeStep? then s'.queue == s.queue && s.events == [] && s'.events == a.ready
    else
      && s'.events == s.events
      && (s'.queue == s.queue
          || exists t: Timer :: s'.queue == s.queue + [MsgRemove(t)]
                                || (s'.queue == s.queue + [MsgPush(t)] && t !in s.issued))
  }

  lemma StopQueue(s: State, k: ClientId)
    requires Lives(s) && k in s.clients
    ensures Stop(s, k).events == s.events && Stop(s, k).clock == s.clock && Stop(s, k).issued == s.issued
    ensures Stop(s, k).sw == s.sw && Stop(s, k).hw == s.hw && Stop(s, k).live == s.live
    ensures Stop(s, k).queue == s.queue || exists t: Timer :: Stop(s, k).queue == s.queue + [MsgRemove(t)]
  {
    assert LockOk(s, k);
    if s.clients[k].timer.Some? {
      StopTimerKeeps(s, k);
    }
  }

  lemma CallQueue(s: State)
    requires Lives(s) && s.task.Calling?
    ensures Call(s).events == s.events && Call(s).clock == s.clock && Call(s).issued == s.issued
    ensures Call(s).sw == s.sw && Call(s).hw == s.hw && Call(s).live == s.live
    ensures Call(s).queue == s.queue || exists t: Timer :: Call(s).queue == s.queue + [MsgRemove(t)]
  {
    var client := s.task.client;
    if client.Some? && s.clients[client.value].timer.Some? {
      StopTimerKeeps(s, client.value);
    }
  }

  lemma StepQueue(s: State, a: Step)
    requires Lives(s) && Enabled(s, a)
    ensures QueueAfter(s, Apply(s, a), a)
  {
    match a
    case StartStep(k, ms, con) => IssueIsNew(s, k, ms, con);
    case StopStep(k) => StopQueue(s, k);
    case RetireStep(k) => StopQueue(s, k);
    case CallStep => CallQueue(s);
    case DeliverStep => DeliverQueue(s);
    case _ => OtherQueue(s, a);
  }

  /** What the steps below leave alone. */
  ghost predicate Kept(s: State, s': State) {
    && s'.clock == s.clock && s'.issued == s.issued && s'.log == s.log && s'.queue == s.queue
    && s'.events == s.events && s'.stage == s.stage
  }

  ghost predicate SameArmed(s: State, s': State) {
    s'.sw.armed == s.sw.armed && s'.hw.armed == s.hw.armed
  }

  lemma ProgramFrame(s: State)
    requires s.task.Programming?
    ensures Kept(s, ProgramStep(s)) && ProgramStep(s).live == s.live && ProgramStep(s).stopped == s.stopped
    ensures ProgramStep(s).sw.heap == s.sw.heap && ProgramStep(s).hw.heap == s.hw.heap
  {
  }

  lemma DeleteFrame(s: State)
    requires s.task.Deleting?
    ensures Kept(s, Delete(s)) && Delete(s).sw == s.sw && Delete(s).hw == s.hw && Delete(s).task == Idle
    ensures s.task.t in s.live ==>
              Delete(s).live == s.live - {s.task.t} && Delete(s).stopped == s.stopped - {s.task.t}
    ensures s.task.t !in s.live ==> Delete(s).live == s.live && Delete(s).stopped == s.stopped
  {
  }

  lemma DrainFrame(s: State)
    requires s.task.Draining?
    ensures Kept(s, Drain(s)) && SameArmed(s, Drain(s))
    ensures Drain(s).live == s.live && Drain(s).stopped == s.stopped
  {
    var c, heap := s.task.con, Con(s, s.task.con).heap;
    if !(heap.Node? && (s.task.first || Due(heap, s.task.now))) {
      UpdatedFrame(s, c, Soonest(None, Top(heap)), None);
    }
  }

  lemma UpdatedFrame(s: State, c: bool, u: Update, doomed: Option<Timer>)
    ensures var s' := Updated(s, c, u, doomed);
            && Kept(s, s') && SameArmed(s, s') && s'.live == s.live && s'.stopped == s.stopped
            && Con(s', c) == Watch(Con(s, c), u) && Con(s', !c) == Con(s, !c)
  {
  }

  lemma ReadFrame(s: State)
    requires s.task.Popped?
    ensures Kept(s, ReadClient(s)) && SameArmed(s, ReadClient(s))
  {
  }

  lemma DestroyFrame(s: State, k: ClientId)
    requires k in s.clients
    ensures Kept(s, Destroy(s, k)) && SameArmed(s, Destroy(s, k)) && Destroy(s, k).task == s.task
    ensures Destroy(s, k).live == s.live
  {
  }

  lemma StartFrame(s: State, k: ClientId, ms: nat, con: bool)
    requires Enabled(s, StartStep(k, ms, con))
    ensures var s' := Start(s, k, ms, con);
            && s'.clock == s.clock && s.issued <= s'.issued && s'.log == s.log && s'.events == s.events
            && SameArmed(s, s') && s'.task == s.task
  {
  }

  lemma PollFrame(s: State)
    requires s.events != []
    ensures var s' := PollStep(s);
            && s'.clock == s.clock && s'.issued == s.issued && s'.log == s.log && s'.task == s.task
            && s'.live == s.live && s'.stopped == s.stopped
            && (s.stage != 0 ==> SameArmed(s, s'))
            && if s.stage < 2 then s'.queue == s.queue && s'.events == s.events
               else s'.queue == s.queue + [MsgExpire(s.events[0])] && s'.events == s.events[1..]
  {
  }

  lemma OtherQueue(s: State, a: Step)
    requires Enabled(s, a)
    requires !a.StartStep? && !a.StopStep? && !a.RetireStep? && !a.CallStep? && !a.DeliverStep?
    ensures QueueAfter(s, Apply(s, a), a)
  {
    match a
    case PollStep_ => PollFrame(s);
    case ProgramStep_ => ProgramFrame(s);
    case DeleteStep => DeleteFrame(s);
    case DrainStep => DrainFrame(s);
    case ReadStep => ReadFrame(s);
    case DestroyStep(k) => DestroyFrame(s, k);
    case TickStep(now) =>
    case NewClientStep =>
    case WakeStep(ready) =>
  }

  lemma DeliverQueue(s: State)
    requires s.task == Idle && s.queue != []
    ensures Deliver(s).queue == s.queue[1..] && Deliver(s).events == s.events
    ensures Deliver(s).clock == s.clock && Deliver(s).issued == s.issued && Deliver(s).live == s.live
  {
    var s1 := s.(queue := s.queue[1..]);
    match s.queue[0]
    case MsgPush(t) => DeliverPushQueue(s1, t);
    case MsgRemove(t) => DeliverRemoveQueue(s1, t);
    case MsgExpire(_) =>
  }

  lemma DeliverPushQueue(s: State, t: Timer)
    ensures var s' := DeliverPush(s, t);
            s'.queue == s.queue && s'.events == s.events && s'.clock == s.clock && s'.issued == s.issued
            && s'.live == s.live
  {
  }

  lemma DeliverRemoveQueue(s: State, t: Timer)
    ensures var s' := DeliverRemove(s, t);
            s'.queue == s.queue && s'.events == s.events && s'.clock == s.clock && s'.issued == s.issued
            && s'.live == s.live
  {
  }

  /** The clock does not go back and nothing that was issued is forgotten. */
  lemma StepGrows(s: State, a: Step)
    requires Lives(s) && Enabled(s, a)
    ensures Nanos(s.clock) <= Nanos(Apply(s, a).clock) && s.issued <= Apply(s, a).issued
  {
    match a
    case StopStep(k) => StopQueue(s, k);
    case RetireStep(k) => StopQueue(s, k);
    case CallStep => CallQueue(s);
    case DeliverStep => DeliverQueue(s);
    case _ => OtherGrows(s, a);
  }

  lemma OtherGrows(s: State, a: Step)
    requires Enabled(s, a)
    requires !a.StopStep? && !a.RetireStep? && !a.CallStep? && !a.DeliverStep?
    ensures Nanos(s.clock) <= Nanos(Apply(s, a).clock) && s.issued <= Apply(s, a).issued
  {
    match a
    case PollStep_ => PollFrame(s);
    case ProgramStep_ => ProgramFrame(s);
    case DeleteStep => DeleteFrame(s);
    case DrainStep => DrainFrame(s);
    case ReadStep => ReadFrame(s);
    case DestroyStep(k) => DestroyFrame(s, k);
    case TickStep(now) =>
    case NewClientStep =>
    case WakeStep(ready) =>
    case StartStep(k, ms, con) => StartFrame(s, k, ms, con);
  }

  /** A step that is neither the message thread's timerfd_settime nor the poll thread's. */
  lemma ArmedStays(s: State, a: Step, c: bool)
    requires Lives(s) && Enabled(s, a) && !a.ProgramStep_? && !(a.PollStep_? && s.stage == 0)
    ensures Con(Apply(s, a), c).armed == Con(s, c).armed
  {
    match a
    case StopStep(k) => StopQueue(s, k);
    case RetireStep(k) => StopQueue(s, k);
    case CallStep => CallQueue(s);
    case DeliverStep => DeliverArmed(s, c);
    case _ => OtherArmed(s, a, c);
  }

  lemma OtherArmed(s: State, a: Step, c: bool)
    requires Enabled(s, a) && !a.ProgramStep_? && !(a.PollStep_? && s.stage == 0)
    requires !a.StopStep? && !a.RetireStep? && !a.CallStep? && !a.DeliverStep?
    ensures Con(Apply(s, a), c).armed == Con(s, c).armed
  {
    match a
    case PollStep_ => PollFrame(s);
    case DeleteStep => DeleteFrame(s);
    case DrainStep => DrainFrame(s);
    case ReadStep => ReadFrame(s);
    case DestroyStep(k) => DestroyFrame(s, k);
    case TickStep(now) =>
    case NewClientStep =>
    case WakeStep(ready) =>
    case StartStep(k, ms, con) => StartFrame(s, k, ms, con);
  }

  lemma DeliverArmed(s: State, c: bool)
    requires s.task == Idle && s.queue != []
    ensures Con(Deliver(s), c).armed == Con(s, c).armed
  {
    var s1 := s.(queue := s.queue[1..]);
    match s.queue[0]
    case MsgPush(t) => assert Con(DeliverPush(s1, t), c).armed == Con(s, c).armed;
    case MsgRemove(t) => assert Con(DeliverRemove(s1, t), c).armed == Con(s, c).armed;
    case MsgExpire(_) =>
  }

  /** The log grows by one outcome at most, which is a callback exactly if it is the message thread's. */
  ghost predicate LogAfter(s: State, s': State, a: Step) {
    || s'.log == s.log
    || exists o ::
         && s'.log == s.log + [o]
         && (o.Fired? ==> a.CallStep? && s.task.Calling? && o.popped == s.task.t && o.at == s.task.now
                          && o.first == s.task.first)
  }

  lemma StepLog(s: State, a: Step)
    requires Lives(s) && Enabled(s, a)
    ensures LogAfter(s, Apply(s, a), a)
  {
    match a
    case StopStep(k) => StopLog(s, k);
    case RetireStep(k) => StopLog(s, k);
    case CallStep => CallLog(s);
    case DeliverStep => DeliverLog(s);
    case _ => OtherLog(s, a);
  }

  lemma StopLog(s: State, k: ClientId)
    requires Lives(s) && k in s.clients
    ensures Stop(s, k).log == s.log || exists t: Timer :: Stop(s, k).log == s.log + [Stopped(t)]
    ensures Stop(s, k).task == s.task
  {
    assert LockOk(s, k);
    if s.clients[k].timer.Some? {
      StopTimerKeeps(s, k);
    }
  }

  lemma CallLog(s: State)
    requires Lives(s) && s.task.Calling?
    ensures LogAfter(s, Call(s), CallStep)
    ensures Call(s).task == Draining(s.task.con, s.task.now, false)
  {
    var client := s.task.client;
    if client.Some? && s.clients[client.value].timer.Some? {
      StopTimerKeeps(s, client.value);
      assert LockOk(s, client.value);
      assert Call(s).log == s.log + [Fired(s.clients[client.value].timer.value, s.task.t, s.task.now, s.task.first)];
    }
  }

  lemma DeliverLog(s: State)
    requires s.task == Idle && s.queue != []
    ensures Deliver(s).log == s.log
    ensures s.queue[0].MsgExpire? ==> Deliver(s).task == Draining(s.queue[0].con, s.clock, true)
    ensures !s.queue[0].MsgExpire? ==>
              !Deliver(s).task.Draining? && !Deliver(s).task.Popped? && !Deliver(s).task.Calling?
  {
    var s1 := s.(queue := s.queue[1..]);
    match s.queue[0]
    case MsgPush(t) => DeliverPushEndsNobody(s1, t);
    case MsgRemove(t) => DeliverRemoveEndsNobody(s1, t);
    case MsgExpire(_) =>
  }

  lemma OtherLog(s: State, a: Step)
    requires Enabled(s, a) && !a.StopStep? && !a.RetireStep? && !a.CallStep? && !a.DeliverStep?
    ensures Apply(s, a).log == s.log
  {
    match a
    case PollStep_ => PollFrame(s);
    case ProgramStep_ => ProgramFrame(s);
    case DeleteStep => DeleteFrame(s);
    case DrainStep => DrainFrame(s);
    case ReadStep => ReadFrame(s);
    case DestroyStep(k) => DestroyFrame(s, k);
    case TickStep(now) =>
    case NewClientStep =>
    case WakeStep(ready) =>
    case StartStep(k, ms, con) => StartFrame(s, k, ms, con);
  }

  lemma ClientKeepsTask(s: State, a: Step)
    requires Lives(s) && Enabled(s, a)
    requires !a.DeliverStep? && !a.DrainStep? && !a.ReadStep? && !a.CallStep? && !a.ProgramStep_? && !a.DeleteStep?
    ensures Apply(s, a).task == s.task
  {
    match a
    case StopStep(k) => StopLog(s, k);
    case RetireStep(k) => StopLog(s, k);
    case PollStep_ => PollFrame(s);
    case DestroyStep(k) => DestroyFrame(s, k);
    case StartStep(k, ms, con) => StartFrame(s, k, ms, con);
    case TickStep(now) =>
    case NewClientStep =>
    case WakeStep(ready) =>
  }
}
