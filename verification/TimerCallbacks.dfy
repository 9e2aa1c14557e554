/** Whose callback it is. The message thread reads mClient of the delegate it popped and then stops
    whatever timer that client has by then, which need not be the one that was popped. */
module TimerCallbacks {
  import opened Wrappers
  import opened TimerTypes
  import opened TimerService
  import opened TimerInvariant
  import opened TimerHistory
  import opened TimerTheorems

  /** Its client stopped this timer before outcome `n`. */
  ghost predicate StoppedBefore(log: seq<Outcome>, n: nat, t: Timer)
    requires n <= |log|
  {
    exists i :: 0 <= i < n && log[i] == Stopped(t)
  }

  ghost predicate Attributed(log: seq<Outcome>, m: nat)
    requires m < |log|
  {
    log[m].Fired? ==> (log[m].t != log[m].popped <==> StoppedBefore(log, m, log[m].popped))
  }

  ghost predicate Callbacks(s: State) {
    && (forall m :: 0 <= m < |s.log| ==> Attributed(s.log, m))
    && (s.task.Calling? && s.task.client.Some? ==> OnlyStopped(s.log, s.task.t))
  }

  /** If it has an outcome, it was stopped. */
  ghost predicate OnlyStopped(log: seq<Outcome>, t: Timer) {
    forall i :: 0 <= i < |log| && log[i].t == t ==> log[i] == Stopped(t)
  }

  lemma LogGrows(log: seq<Outcome>, o: Outcome, m: nat)
    requires m < |log|
    ensures Attributed(log + [o], m) <==> Attributed(log, m)
  {
    if log[m].Fired? && StoppedBefore(log, m, log[m].popped) {
      var i :| 0 <= i < m && log[i] == Stopped(log[m].popped);
      assert (log + [o])[i] == Stopped(log[m].popped);
    }
    if log[m].Fired? && StoppedBefore(log + [o], m, log[m].popped) {
      var i :| 0 <= i < m && (log + [o])[i] == Stopped(log[m].popped);
      assert log[i] == Stopped(log[m].popped);
    }
  }

  lemma SilentKeepsCallbacks(s: State, s': State)
    requires Callbacks(s) && s'.log == s.log && (s'.task == s.task || !s'.task.Calling?)
    ensures Callbacks(s')
  {
  }

  lemma EndingKeepsCallbacks(s: State, s': State, o: Outcome)
    requires Callbacks(s) && s'.log == s.log + [o]
    requires if o.Stopped? then s'.task == s.task
             else !s'.task.Calling? && (o.t != o.popped <==> StoppedBefore(s.log, |s.log|, o.popped))
    ensures Callbacks(s')
  {
    var n := |s.log|;
    forall m | 0 <= m < |s'.log| ensures Attributed(s'.log, m) {
      if m < n {
        LogGrows(s.log, o, m);
      } else if o.Fired? && o.t != o.popped {
        var i :| 0 <= i < n && s.log[i] == Stopped(o.popped);
        assert s'.log[i] == Stopped(o.popped);
      }
    }
  }

  lemma StopKeepsCallbacks(s: State, k: ClientId)
    requires Lives(s) && Callbacks(s) && k in s.clients
    ensures Callbacks(Stop(s, k))
  {
    assert LockOk(s, k);
    if s.clients[k].timer.Some? {
      StopTimerKeeps(s, k);
      EndingKeepsCallbacks(s, Stop(s, k), Stopped(s.clients[k].timer.value));
    }
  }

  lemma RetireKeepsCallbacks(s: State, k: ClientId)
    requires Lives(s) && Callbacks(s) && k in s.clients
    ensures Callbacks(Retire(s, k))
  {
    StopKeepsCallbacks(s, k);
    StopKeepsLives(s, k);
    SilentKeepsCallbacks(Stop(s, k), Retire(s, k));
  }

  /** mClient is read while the delegate is not stopped, and so has no outcome yet. */
  lemma ReadKeepsCallbacks(s: State)
    requires Lives(s) && History(s) && Callbacks(s) && s.task.Popped?
    ensures Callbacks(ReadClient(s))
  {
    var t := s.task.t;
    assert Settled(s, t) && Placed(s, t);
    if t !in s.stopped {
      assert !Ended(s.log, t);
    }
  }

  /** The timer that is stopped for the callback is the popped one, or its client stopped that one
      since. */
  lemma CallKeepsCallbacks(s: State)
    requires Lives(s) && History(s) && Callbacks(s) && s.task.Calling?
    ensures Callbacks(Call(s))
  {
    var client := s.task.client;
    if client.Some? && s.clients[client.value].timer.Some? {
      var t, popped := s.clients[client.value].timer.value, s.task.t;
      StopTimerKeeps(s, client.value);
      assert LockOk(s, client.value) && Linked(s, popped) && Settled(s, popped) && Placed(s, popped);
      if t == popped {
        assert !Ended(s.log, popped);
      } else {
        assert Ended(s.log, popped);
        var i :| 0 <= i < |s.log| && s.log[i].t == popped;
        assert s.log[i] == Stopped(popped);
      }
      EndingKeepsCallbacks(s, Call(s), Fired(t, popped, s.task.now, s.task.first));
    }
  }

  lemma DeliverKeepsCallbacks(s: State)
    requires Callbacks(s) && s.task == Idle && s.queue != []
    ensures Callbacks(Deliver(s))
  {
    var s1 := s.(queue := s.queue[1..]);
    match s.queue[0]
    case MsgPush(t) => DeliverPushEndsNobody(s1, t);
    case MsgRemove(t) => DeliverRemoveEndsNobody(s1, t);
    case MsgExpire(_) =>
  }

  /** The steps that leave the log alone and never call anybody back. */
  lemma OtherKeepsCallbacks(s: State, a: Step)
    requires Callbacks(s) && Enabled(s, a)
    requires !a.StopStep? && !a.RetireStep? && !a.DeliverStep? && !a.ReadStep? && !a.CallStep?
    ensures Callbacks(Apply(s, a))
  {
    match a
    case PollStep_ => SilentKeepsCallbacks(s, PollStep(s));
    case ProgramStep_ => SilentKeepsCallbacks(s, ProgramStep(s));
    case DeleteStep => SilentKeepsCallbacks(s, Delete(s));
    case DrainStep => SilentKeepsCallbacks(s, Drain(s));
    case DestroyStep(k) => SilentKeepsCallbacks(s, Destroy(s, k));
    case StartStep(k, ms, con) => SilentKeepsCallbacks(s, Start(s, k, ms, con));
    case TickStep(now) => SilentKeepsCallbacks(s, s.(clock := now));
    case NewClientStep => SilentKeepsCallbacks(s, NewClient(s));
    case WakeStep(ready) => SilentKeepsCallbacks(s, s.(events := ready, stage := 0));
  }

  lemma StepKeepsCallbacks(s: State, a: Step)
    requires Inv(s) && Callbacks(s) && Enabled(s, a)
    ensures Callbacks(Apply(s, a))
  {
    match a
    case StopStep(k) => StopKeepsCallbacks(s, k);
    case RetireStep(k) => RetireKeepsCallbacks(s, k);
    case DeliverStep => DeliverKeepsCallbacks(s);
    case ReadStep => ReadKeepsCallbacks(s);
    case CallStep => CallKeepsCallbacks(s);
    case _ => OtherKeepsCallbacks(s, a);
  }

  lemma {:induction false} RunCallbacks(run: seq<State>, i: nat)
    requires IsRun(run) && i < |run|
    ensures Callbacks(run[i])
  {
    if i > 0 {
      RunCallbacks(run, i - 1);
      RunInv(run, i - 1);
      assert NextAt(run, i - 1);
      NextKeepsCallbacks(run[i - 1], run[i]);
    }
  }

  lemma NextKeepsCallbacks(s: State, s': State)
    requires Inv(s) && Callbacks(s) && Next(s, s')
    ensures Callbacks(s')
  {
    var a :| Enabled(s, a) && s' == Apply(s, a);
    StepKeepsCallbacks(s, a);
  }

  /** A callback is for the start whose delegate was popped, unless the client had stopped that one;
      then, and only then, it is for another start. */
  lemma CallbackIsForPopped(run: seq<State>, i: nat, m: nat)
    requires IsRun(run) && i < |run| && m < |run[i].log| && run[i].log[m].Fired?
    ensures run[i].log[m].t != run[i].log[m].popped
       <==> exists j :: 0 <= j < m && run[i].log[j] == Stopped(run[i].log[m].popped)
  {
    RunCallbacks(run, i);
    assert Attributed(run[i].log, m);
  }

  /** A callback for the popped start itself, popped after the first of its drain, is less than one
      second early. */
  lemma LaterCallbackIsNearlyDue(run: seq<State>, i: nat, m: nat)
    requires IsRun(run) && i < |run| && m < |run[i].log| && run[i].log[m].Fired?
    requires !run[i].log[m].first
    requires forall j :: 0 <= j < m ==> run[i].log[j] != Stopped(run[i].log[m].popped)
    ensures Nanos(run[i].log[m].t.future) < Nanos(run[i].log[m].at) + BILLION
  {
    CallbackIsForPopped(run, i, m);
    LaterPopsAreNearlyDue(run, i, m);
  }
}
