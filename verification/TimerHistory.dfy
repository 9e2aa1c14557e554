/** How every start of a timer ends. */
module TimerHistory {
  import opened Wrappers
  import opened HeapTree
  import opened TimerTypes
  import opened TimerService
  import opened TimerInvariant

  ghost predicate Ended(log: seq<Outcome>, t: Timer) {
    exists i :: 0 <= i < |log| && log[i].t == t
  }

  /** A delegate has an outcome exactly when it is stopped or gone. */
  ghost predicate Settled(s: State, t: Timer) {
    && (t in s.issued ==> (Ended(s.log, t) <==> t !in s.live || t in s.stopped))
    && (Ended(s.log, t) ==> t in s.issued)
  }

  /** A delegate that the drain popped after its first pop is due by the second. */
  ghost predicate PoppedDue(t: Timer, at: Time, first: bool) {
    Normal(at) && (!first ==> t.future.sec <= at.sec)
  }

  ghost predicate History(s: State) {
    && (forall i, j :: 0 <= i < j < |s.log| ==> s.log[i].t != s.log[j].t)
    && (forall t: Timer :: Settled(s, t))
    && (forall i :: 0 <= i < |s.log| && s.log[i].Fired? ==>
          PoppedDue(s.log[i].popped, s.log[i].at, s.log[i].first))
    && (s.task.Draining? ==> Normal(s.task.now))
    && (s.task.Popped? || s.task.Calling? ==> PoppedDue(s.task.t, s.task.now, s.task.first))
  }

  lemma EndedGrows(log: seq<Outcome>, o: Outcome, t: Timer)
    ensures Ended(log + [o], t) <==> Ended(log, t) || o.t == t
  {
    if Ended(log, t) {
      var i :| 0 <= i < |log| && log[i].t == t;
      assert (log + [o])[i].t == t;
    }
    if o.t == t {
      assert (log + [o])[|log|].t == t;
    }
  }

  /** A step that ends nobody and deletes only what was stopped. */
  lemma SilentKeepsHistory(s: State, s': State)
    requires History(s)
    requires s'.log == s.log && s'.issued == s.issued
    requires s'.live <= s.live && s'.stopped <= s.stopped
    requires forall t :: t in s.live && t !in s'.live ==> t in s.stopped
    requires forall t :: t in s.stopped && t !in s'.stopped ==> t !in s'.live
    requires s'.task.Draining? ==> Normal(s'.task.now)
    requires s'.task.Popped? || s'.task.Calling? ==> PoppedDue(s'.task.t, s'.task.now, s'.task.first)
    ensures History(s')
  {
    forall t: Timer ensures Settled(s', t) {
      assert Settled(s, t);
    }
  }

  /** A step that ends one delegate, which was neither stopped nor gone. */
  lemma EndingKeepsHistory(s: State, s': State, o: Outcome)
    requires Lives(s) && History(s)
    requires o.t in s.live && o.t !in s.stopped
    requires o.Fired? ==> PoppedDue(o.popped, o.at, o.first)
    requires s'.log == s.log + [o] && s'.issued == s.issued
    requires s'.live == s.live && s'.stopped == s.stopped + {o.t}
    requires s'.task == s.task || (s'.task.Draining? && Normal(s'.task.now))
    ensures History(s')
  {
    assert Settled(s, o.t);
    forall t: Timer ensures Settled(s', t) {
      assert Settled(s, t);
      EndedGrows(s.log, o, t);
    }
    forall i | 0 <= i < |s.log| ensures s.log[i].t != o.t {
      assert !Ended(s.log, o.t);
    }
  }

  lemma StartKeepsHistory(s: State, k: ClientId, ms: nat, con: bool)
    requires Lives(s) && History(s) && Enabled(s, StartStep(k, ms, con))
    ensures History(Start(s, k, ms, con))
  {
    var n := Issue(s, k, ms, con);
    IssueIsNew(s, k, ms, con);
    forall t: Timer ensures Settled(Start(s, k, ms, con), t) {
      assert Settled(s, t) && Placed(s, t);
    }
  }

  lemma StopKeepsHistory(s: State, k: ClientId)
    requires Lives(s) && History(s) && k in s.clients
    ensures History(Stop(s, k))
  {
    assert LockOk(s, k);
    if s.clients[k].timer.Some? {
      StopTimerKeeps(s, k);
      EndingKeepsHistory(s, Stop(s, k), Stopped(s.clients[k].timer.value));
    }
  }

  lemma DrainKeepsHistory(s: State)
    requires Lives(s) && History(s) && s.task.Draining?
    ensures History(Drain(s))
  {
    var heap := Con(s, s.task.con).heap;
    if heap.Node? {
      DueIsBySecond(heap, s.task.now);
    }
    SilentKeepsHistory(s, Drain(s));
  }

  lemma CallKeepsHistory(s: State)
    requires Lives(s) && History(s) && s.task.Calling?
    ensures History(Call(s))
  {
    var client := s.task.client;
    if client.Some? && s.clients[client.value].timer.Some? {
      StopTimerKeeps(s, client.value);
      assert LockOk(s, client.value);
      EndingKeepsHistory(s, Call(s),
        Fired(s.clients[client.value].timer.value, s.task.t, s.task.now, s.task.first));
    } else {
      SilentKeepsHistory(s, Call(s));
    }
  }

  lemma RetireKeepsHistory(s: State, k: ClientId)
    requires Lives(s) && History(s) && k in s.clients
    ensures History(Retire(s, k))
  {
    StopKeepsHistory(s, k);
    StopKeepsLives(s, k);
    SilentKeepsHistory(Stop(s, k), Retire(s, k));
  }

  lemma DeleteKeepsHistory(s: State)
    requires Lives(s) && History(s) && s.task.Deleting?
    ensures History(Delete(s))
  {
    assert Placed(s, s.task.t);
    SilentKeepsHistory(s, Delete(s));
  }

  /** Taking a message ends nobody and deletes nothing. */
  ghost predicate EndsNobody(s: State, s': State) {
    && s'.log == s.log && s'.issued == s.issued && s'.live == s.live && s'.stopped == s.stopped
    && !s'.task.Popped? && !s'.task.Calling? && !s'.task.Draining?
  }

  lemma DeliverPushEndsNobody(s: State, t: Timer)
    requires s.task == Idle
    ensures EndsNobody(s, DeliverPush(s, t))
  {
  }

  lemma DeliverRemoveEndsNobody(s: State, t: Timer)
    requires s.task == Idle
    ensures EndsNobody(s, DeliverRemove(s, t))
  {
  }

  lemma DeliverKeepsHistory(s: State)
    requires Normal(s.clock) && History(s) && s.task == Idle && s.queue != []
    ensures History(Deliver(s))
  {
    var s1 := s.(queue := s.queue[1..]);
    match s.queue[0]
    case MsgPush(t) =>
      DeliverPushEndsNobody(s1, t);
      SilentKeepsHistory(s, DeliverPush(s1, t));
    case MsgRemove(t) =>
      DeliverRemoveEndsNobody(s1, t);
      SilentKeepsHistory(s, DeliverRemove(s1, t));
    case MsgExpire(c) =>
      SilentKeepsHistory(s, Deliver(s));
  }

  lemma ProgramKeepsHistory(s: State)
    requires s.task.Programming? && History(s)
    ensures History(ProgramStep(s))
  {
    SilentKeepsHistory(s, ProgramStep(s));
  }

  lemma ReadKeepsHistory(s: State)
    requires s.task.Popped? && History(s)
    ensures History(ReadClient(s))
  {
    SilentKeepsHistory(s, ReadClient(s));
  }

  lemma OtherKeepsHistory(s: State, a: Step)
    requires Enabled(s, a) && History(s)
    requires a.TickStep? || a.NewClientStep? || a.DestroyStep? || a.WakeStep? || a.PollStep_?
    ensures History(Apply(s, a))
  {
    match a
    case TickStep(now) => SilentKeepsHistory(s, s.(clock := now));
    case NewClientStep => SilentKeepsHistory(s, NewClient(s));
    case WakeStep(ready) => SilentKeepsHistory(s, s.(events := ready, stage := 0));
    case PollStep_ => PollKeepsHistory(s);
    case DestroyStep(k) => DestroyKeepsHistory(s, k);
  }

  lemma PollKeepsHistory(s: State)
    requires s.events != [] && History(s)
    ensures History(PollStep(s))
  {
    SilentKeepsHistory(s, PollStep(s));
  }

  lemma DestroyKeepsHistory(s: State, k: ClientId)
    requires k in s.clients && History(s)
    ensures History(Destroy(s, k))
  {
    SilentKeepsHistory(s, Destroy(s, k));
  }

  lemma StepKeepsHistory(s: State, a: Step)
    requires Lives(s) && Enabled(s, a) && History(s)
    ensures History(Apply(s, a))
  {
    if a.StartStep? {
      StartKeepsHistory(s, a.k, a.ms, a.con);
    } else if a.StopStep? {
      StopKeepsHistory(s, a.k);
    } else if a.RetireStep? {
      RetireKeepsHistory(s, a.k);
    } else if a.DeleteStep? {
      DeleteKeepsHistory(s);
    } else if a.DrainStep? {
      DrainKeepsHistory(s);
    } else if a.CallStep? {
      CallKeepsHistory(s);
    } else if a.DeliverStep? {
      DeliverKeepsHistory(s);
    } else if a.ProgramStep_? {
      ProgramKeepsHistory(s);
    } else if a.ReadStep? {
      ReadKeepsHistory(s);
    } else {
      OtherKeepsHistory(s, a);
    }
  }
}
