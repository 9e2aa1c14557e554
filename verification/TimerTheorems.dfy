/** What the timer service promises, for every interleaving of its threads. */
module TimerTheorems {
  import opened Wrappers
  import opened HeapTree
  import opened TimerTypes
  import opened TimerService
  import opened TimerInvariant
  import opened TimerWakeup
  import opened TimerHistory
  import opened TimerFrames

  ghost predicate Inv(s: State) {
    Lives(s) && Watched(s, false) && Watched(s, true) && History(s)
  }

  lemma InitInv(s: State)
    requires Init(s)
    ensures Inv(s)
  {
    forall k ensures LockOk(s, k) {
      assert OwnedBy(s.live, k) == {};
    }
  }

  lemma StepKeepsLives(s: State, a: Step)
    requires Lives(s) && Enabled(s, a)
    ensures Lives(Apply(s, a))
  {
    match a
    case TickStep(_) => QuietKeepsLives(s, Apply(s, a));
    case NewClientStep => NewClientKeepsLives(s);
    case StartStep(k, ms, con) => StartKeepsLives(s, k, ms, con);
    case StopStep(k) => StopKeepsLives(s, k);
    case RetireStep(k) => RetireKeepsLives(s, k);
    case DestroyStep(k) => DestroyKeepsLives(s, k);
    case WakeStep(_) => QuietKeepsLives(s, Apply(s, a));
    case PollStep_ => PollKeepsLives(s);
    case DeliverStep => DeliverKeepsLives(s);
    case ProgramStep_ => ProgramKeepsLives(s);
    case DeleteStep => DeleteKeepsLives(s);
    case DrainStep => DrainKeepsLives(s);
    case ReadStep => ReadKeepsLives(s);
    case CallStep => CallKeepsLives(s);
  }

  lemma StepKeepsInv(s: State, a: Step)
    requires Inv(s) && Enabled(s, a)
    ensures Inv(Apply(s, a))
  {
    StepKeepsLives(s, a);
    StepKeepsWatched(s, a, false);
    StepKeepsWatched(s, a, true);
    StepKeepsHistory(s, a);
  }

  lemma NextKeepsInv(s: State, s': State)
    requires Inv(s) && Next(s, s')
    ensures Inv(s')
  {
    var a :| Enabled(s, a) && s' == Apply(s, a);
    StepKeepsInv(s, a);
  }

  lemma {:induction false} RunInv(run: seq<State>, i: nat)
    requires IsRun(run) && i < |run|
    ensures Inv(run[i])
  {
    if i == 0 {
      InitInv(run[0]);
    } else {
      RunInv(run, i - 1);
      assert NextAt(run, i - 1);
      NextKeepsInv(run[i - 1], run[i]);
    }
  }

  // ------------------------------------------------------------------- safety

  /** Between messages, a heap that holds a timer has an expiry in flight, or its fd is polled and
      armed at exactly the deadline on top. */
  lemma NoLostWakeup(run: seq<State>, i: nat, c: bool)
    requires IsRun(run) && i < |run|
    requires run[i].task == Idle && Con(run[i], c).heap.Node?
    ensures var con := Con(run[i], c);
            || c in run[i].events
            || MsgExpire(c) in run[i].queue
            || (con.polled && con.armed == Some(con.heap.data.future))
  {
    RunInv(run, i);
  }

  /** The branch of updateSoonestTime that disarms an empty container is never taken. */
  lemma NeverDisarmed(run: seq<State>, i: nat)
    requires IsRun(run) && i < |run| && run[i].task.Programming?
    ensures var con := Con(run[i], run[i].task.con);
            con.heap.Node? && run[i].task.u == ArmAt(con.heap.data.future)
  {
    RunInv(run, i);
  }

  /** An fd that is out of the epoll set wakes nobody, armed or not; and only an update by the message
      thread, which goes on to arm it for the timer then on top, puts it back. */
  lemma UnpolledSleeps(run: seq<State>, i: nat, a: Step, c: bool)
    requires IsRun(run) && i < |run| && Enabled(run[i], a) && !Con(run[i], c).polled
    ensures a.WakeStep? ==> c !in a.ready
    ensures var s' := Apply(run[i], a);
            Con(s', c).polled ==>
              && (a.DeliverStep? || a.DrainStep?)
              && s'.task.Programming? && s'.task.con == c
              && Con(s', c).heap.Node? && s'.task.u == ArmAt(Con(s', c).heap.data.future)
  {
    RunInv(run, i);
    StepKeepsInv(run[i], a);
    if a.WakeStep? {
      assert forall j :: 0 <= j < |a.ready| ==> Ready(run[i], a.ready[j]);
    }
    OnlyUpdatesPoll(run[i], a, c);
  }

  lemma OnlyUpdatesPoll(s: State, a: Step, c: bool)
    requires Lives(s) && Enabled(s, a) && !Con(s, c).polled
    ensures Con(Apply(s, a), c).polled ==>
              (a.DeliverStep? || a.DrainStep?) && Apply(s, a).task.Programming? && Apply(s, a).task.con == c
  {
    match a
    case StopStep(k) => StopQueue(s, k);
    case RetireStep(k) => StopQueue(s, k);
    case CallStep => CallQueue(s);
    case DeliverStep => DeliverPolls(s, c);
    case PollStep_ => assert !Con(PollStep(s), c).polled;
    case DeleteStep => DeleteFrame(s);
    case DrainStep => DrainPolls(s, c);
    case ProgramStep_ => assert Con(ProgramStep(s), c).polled == Con(s, c).polled;
    case DestroyStep(k) => assert Con(Destroy(s, k), c) == Con(s, c);
    case StartStep(k, ms, con) => assert Con(Start(s, k, ms, con), c) == Con(s, c);
    case _ =>
  }

  lemma DrainPolls(s: State, c: bool)
    requires s.task.Draining? && !Con(s, c).polled
    ensures Con(Drain(s), c).polled ==> Drain(s).task.Programming? && Drain(s).task.con == c
  {
    var d, heap := s.task.con, Con(s, s.task.con).heap;
    if heap.Node? && (s.task.first || Due(heap, s.task.now)) {
      assert Con(Drain(s), false).polled == s.sw.polled && Con(Drain(s), true).polled == s.hw.polled;
    } else {
      UpdatedFrame(s, d, Soonest(None, Top(heap)), None);
    }
  }

  lemma DeliverPolls(s: State, c: bool)
    requires s.task == Idle && s.queue != [] && !Con(s, c).polled
    ensures Con(Deliver(s), c).polled ==> Deliver(s).task.Programming? && Deliver(s).task.con == c
  {
    var s1 := s.(queue := s.queue[1..]);
    match s.queue[0]
    case MsgPush(t) => PushPolls(s1, t, c);
    case MsgRemove(t) => RemovePolls(s1, t, c);
    case MsgExpire(_) =>
  }

  lemma PushPolls(s: State, t: Timer, c: bool)
    requires s.task == Idle && !Con(s, c).polled
    ensures Con(DeliverPush(s, t), c).polled ==> DeliverPush(s, t).task.Programming? && DeliverPush(s, t).task.con == c
  {
  }

  lemma RemovePolls(s: State, t: Timer, c: bool)
    requires s.task == Idle && !Con(s, c).polled
    ensures Con(DeliverRemove(s, t), c).polled ==> DeliverRemove(s, t).task.Programming? && DeliverRemove(s, t).task.con == c
  {
  }

  /** No thread ever touches a delegate, a client or a lock that was deleted; and between messages a
      live delegate waits to be pushed, is in the heap of its own container, or has its one removal
      queued, with no push of it queued behind. */
  lemma DelegateLifetime(run: seq<State>, i: nat, t: Timer)
    requires IsRun(run) && i < |run|
    ensures !run[i].fault
    ensures Held(run[i], t) > 0 ==> t in run[i].live && Occurs(Con(run[i], t.con).heap, t) == 1
    ensures run[i].task == Idle && t in run[i].live ==>
              || (Pushes(run[i], t) == 1 && Held(run[i], t) == 0)
              || (Pushes(run[i], t) == 0 && Held(run[i], t) == 1)
              || (Pushes(run[i], t) == 0 && Held(run[i], t) == 0 && Removes(run[i], t) == 1)
    ensures run[i].task == Idle && t in run[i].stopped ==> Removes(run[i], t) == 1
    ensures t !in run[i].live ==>
              Pushes(run[i], t) == 0 && Held(run[i], t) == 0 && Removes(run[i], t) == 0
    ensures PushFirst(run[i].queue)
  {
    RunInv(run, i);
    assert Placed(run[i], t);
  }

  lemma StepKeepsDead(s: State, a: Step, t: Timer)
    requires Inv(s) && Enabled(s, a) && t in s.issued && t !in s.live
    ensures t in Apply(s, a).issued && t !in Apply(s, a).live
  {
    match a
    case StartStep(k, ms, con) => StartKeepsDead(s, k, ms, con, t);
    case StopStep(k) => StopQueue(s, k);
    case RetireStep(k) => StopQueue(s, k);
    case CallStep => CallQueue(s);
    case DeliverStep => DeliverQueue(s);
    case DeleteStep => DeleteFrame(s);
    case DestroyStep(k) => DestroyFrame(s, k);
    case DrainStep => DrainFrame(s);
    case PollStep_ => PollFrame(s);
    case ProgramStep_ => ProgramFrame(s);
    case ReadStep =>
    case TickStep(_) =>
    case NewClientStep =>
    case WakeStep(_) =>
  }

  lemma StartKeepsDead(s: State, k: ClientId, ms: nat, con: bool, t: Timer)
    requires Lives(s) && Enabled(s, StartStep(k, ms, con)) && t in s.issued && t !in s.live
    ensures t in Start(s, k, ms, con).issued && t !in Start(s, k, ms, con).live
  {
    IssueIsNew(s, k, ms, con);
  }

  lemma RunKeepsDead(run: seq<State>, i: nat, t: Timer)
    requires IsRun(run) && i < |run| - 1 && t in run[i].issued && t !in run[i].live
    ensures t in run[i + 1].issued && t !in run[i + 1].live
  {
    RunInv(run, i);
    assert NextAt(run, i);
    var a :| Enabled(run[i], a) && run[i + 1] == Apply(run[i], a);
    StepKeepsDead(run[i], a, t);
  }

  /** A delegate is deleted at most once: what is gone never comes back. */
  lemma {:induction false} DeletedOnce(run: seq<State>, i: nat, j: nat, t: Timer)
    requires IsRun(run) && i <= j < |run| && t in run[i].issued && t !in run[i].live
    ensures t in run[j].issued && t !in run[j].live
  {
    if i < j {
      DeletedOnce(run, i, j - 1, t);
      RunKeepsDead(run, j - 1, t);
    }
  }

  /** Every successful start ends at most once, in a callback or in a stop; it has ended exactly
      when its client no longer has it running. */
  lemma OneOutcomePerStart(run: seq<State>, i: nat, t: Timer)
    requires IsRun(run) && i < |run|
    ensures forall m, n :: 0 <= m < n < |run[i].log| ==> run[i].log[m].t != run[i].log[n].t
    ensures t in run[i].issued ==>
              (Ended(run[i].log, t) <==>
               !(t.owner in run[i].clients && run[i].clients[t.owner].timer == Some(t)))
  {
    RunInv(run, i);
    assert Settled(run[i], t) && Linked(run[i], t);
  }

  /** The shared lock counts its client and the client's live delegates, and is gone exactly when
      none of them is left. */
  lemma LockCountsItsHolders(run: seq<State>, i: nat, k: ClientId)
    requires IsRun(run) && i < |run|
    ensures k in run[i].locks <==>
              k in run[i].clients || exists t :: t in run[i].live && t.owner == k
    ensures k in run[i].locks ==>
              run[i].locks[k] == (if k in run[i].clients then 1 else 0)
                                 + |set t | t in run[i].live && t.owner == k|
  {
    RunInv(run, i);
    assert LockOk(run[i], k);
    if |OwnedBy(run[i].live, k)| > 0 {
      var t :| t in OwnedBy(run[i].live, k);
    }
    forall t | t in run[i].live && t.owner == k ensures k in run[i].locks {
      OwnerLocked(run[i], t);
    }
  }

  /** A delegate that a drain popped after its first pop, and that led to a callback, was popped less
      than one second before its own deadline. */
  lemma LaterPopsAreNearlyDue(run: seq<State>, i: nat, m: nat)
    requires IsRun(run) && i < |run| && m < |run[i].log|
    requires run[i].log[m].Fired? && !run[i].log[m].first
    ensures Nanos(run[i].log[m].popped.future) < Nanos(run[i].log[m].at) + BILLION
  {
    RunInv(run, i);
  }
}
