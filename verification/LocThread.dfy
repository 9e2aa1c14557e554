/** gps/utils/LocThread.cpp: a delegate shared by the thread that makes it (the parent) and the
    thread it spawns (the child). The two interleave freely; each access to the shared fields is a
    step of its own. */
module LocThread {

  /** The fields of LocThreadDelegate; `runnable` says whether mRunnable is not NULL. */
  datatype Fields = Fields(runnable: bool, joinable: bool, refCount: int)

  /** What the parent does next: spawn, in the constructor; test isRunning(), in create(); wait for
      its client, with start() having returned true; the steps of stop(); those of destroy(). */
  datatype Parent =
    | Spawning | Creating | Waiting | Stopping | JoinTest | Joining
    | RefTest | Dropping | Deleting | Gone

  /** What the child does next, through threadMain() and then destroy(). */
  datatype Child =
    | Absent | Starting | PreRun | LoopTest | Running | PostRun | Nulling | FreeRunnable
    | RefTest | Dropping | Deleting | Exited

  /** `wantsJoin`: the joinable argument; `started`: what start() returned, once it has; `adopted`:
      the child found the runnable; `early`: stop() nulled mRunnable before the child looked;
      `frees`, `runnableFrees`: how often the delegate and the runnable were deleted; `fault`: the
      delegate was used after it was deleted. */
  datatype Started = NotYet | Yes | No
  datatype State = State(
    d: Fields, parent: Parent, child: Child, wantsJoin: bool, started: Started, adopted: bool,
    early: bool, frees: nat, runnableFrees: nat, fault: bool)

  /** `Spawn(ok)`: pthread_create, or the client's creator, makes a thread or does not. `Call(stop)`:
      the client calls stop(), or deletes its LocThread. `Run(more)`: run() returns `more`. */
  datatype Step = Spawn(ok: bool) | Call(stop: bool) | ParentGoes | ChildGoes | Run(more: bool)

  function Init(joinable: bool): State {
    State(Fields(true, joinable, 2), Spawning, Absent, joinable, NotYet, false, false, 0, 0, false)
  }

  predicate Enabled(s: State, step: Step) {
    match step
    case Spawn(_) => s.parent == Spawning
    case Call(_) => s.parent == Waiting
    case ParentGoes =>
      s.parent != Spawning && s.parent != Waiting && s.parent != Gone
      && (s.parent == Joining ==> s.child == Exited)
    case ChildGoes => s.child != Absent && s.child != Running && s.child != Exited
    case Run(_) => s.child == Running
  }

  /** The delegate is accessed. */
  function Touched(s: State): State {
    s.(fault := s.fault || s.frees > 0)
  }

  function Apply(s: State, step: Step): State
    requires Enabled(s, step)
  {
    match step
    case Spawn(ok) =>
      if ok then Touched(s).(parent := Creating, child := Starting)
      else Touched(s).(parent := Creating, d := Fields(false, false, 1))
    case Call(stop) =>
      // bye() is stop() for a joinable thread
      Touched(s).(parent := if stop || s.d.joinable then Stopping else Parent.RefTest)
    case ParentGoes => ParentStep(s)
    case ChildGoes => ChildStep(s)
    case Run(more) => s.(child := if more then LoopTest else PostRun)
  }

  function ParentStep(s: State): State {
    match s.parent
    case Creating =>
      if s.d.runnable then Touched(s).(parent := Waiting, started := Yes)
      else Touched(s).(parent := Parent.RefTest, started := No)
    case Stopping =>
      Touched(s).(parent := JoinTest, d := s.d.(runnable := false), early := s.child == Starting)
    case JoinTest =>
      if s.d.joinable then Touched(s).(parent := Joining, d := s.d.(joinable := false))
      else Touched(s).(parent := Parent.RefTest)
    case Joining => s.(parent := Parent.RefTest)
    case RefTest => Touched(s).(parent := if s.d.refCount > 0 then Parent.Dropping else Gone)
    case Dropping =>
      Touched(s).(parent := if s.d.refCount == 1 then Parent.Deleting else Gone,
                  d := s.d.(refCount := s.d.refCount - 1))
    case Deleting => Touched(s).(parent := Gone, frees := s.frees + 1)
    case _ => s
  }

  function ChildStep(s: State): State {
    match s.child
    case Starting => Touched(s).(child := if s.d.runnable then PreRun else Child.RefTest, adopted := s.d.runnable)
    case PreRun => Touched(s).(child := LoopTest)
    case LoopTest => Touched(s).(child := if s.d.runnable then Running else PostRun)
    case PostRun => Touched(s).(child := Nulling)
    case Nulling => Touched(s).(child := FreeRunnable, d := s.d.(runnable := false))
    case FreeRunnable => s.(child := Child.RefTest, runnableFrees := s.runnableFrees + 1)
    case RefTest => Touched(s).(child := if s.d.refCount > 0 then Child.Dropping else Exited)
    case Dropping =>
      Touched(s).(child := if s.d.refCount == 1 then Child.Deleting else Exited,
                  d := s.d.(refCount := s.d.refCount - 1))
    case Deleting => Touched(s).(child := Exited, frees := s.frees + 1)
    case _ => s
  }

  ghost predicate Next(s: State, t: State) {
    exists step :: Enabled(s, step) && t == Apply(s, step)
  }

  ghost predicate NextAt(run: seq<State>, i: int)
    requires 0 <= i < |run| - 1
  {
    Next(run[i], run[i + 1])
  }

  ghost predicate IsRun(run: seq<State>) {
    && 0 < |run|
    && run[0] == Init(run[0].wantsJoin)
    && forall i :: 0 <= i < |run| - 1 ==> NextAt(run, i)
  }

  predicate ParentHolds(p: Parent) {
    !p.Deleting? && !p.Gone?
  }

  predicate ChildHolds(c: Child) {
    !c.Absent? && !c.Deleting? && !c.Exited?
  }

  /** The count is that of the parties still to drop; the last one to drop is to delete. */
  predicate Counted(s: State) {
    && (s.parent == Spawning ==> s.child == Absent && s.d.refCount == 2)
    && (s.parent != Spawning ==>
          s.d.refCount == (if ParentHolds(s.parent) then 1 else 0) + (if ChildHolds(s.child) then 1 else 0))
    && s.frees + (if s.parent.Deleting? then 1 else 0) + (if s.child.Deleting? then 1 else 0)
       == (if s.d.refCount == 0 then 1 else 0)
    && !s.fault
  }

  lemma StepKeepsCounted(s: State, step: Step)
    requires Enabled(s, step) && Counted(s)
    ensures Counted(Apply(s, step))
  {
    match step {
      case ParentGoes => ParentKeepsCounted(s);
      case ChildGoes => ChildKeepsCounted(s);
      case _ =>
    }
  }

  lemma ParentKeepsCounted(s: State)
    requires Enabled(s, ParentGoes) && Counted(s)
    ensures Counted(ParentStep(s))
  {
    match s.parent {
      case RefTest =>
      case Dropping =>
      case Deleting =>
      case _ =>
    }
  }

  lemma ChildKeepsCounted(s: State)
    requires Enabled(s, ChildGoes) && Counted(s)
    ensures Counted(ChildStep(s))
  {
    match s.child {
      case RefTest =>
      case Dropping =>
      case Deleting =>
      case _ =>
    }
  }

  predicate Late(p: Parent) {
    p.RefTest? || p.Dropping? || p.Deleting? || p.Gone?
  }

  /** A client that asked for a joinable thread is let go only when the child has exited. */
  predicate Joins(s: State) {
    && (s.started == Yes <==> s.parent.Waiting? || s.parent.Stopping? || s.parent.JoinTest?
                              || s.parent.Joining? || (Late(s.parent) && s.started != No))
    && (s.started == NotYet <==> s.parent.Spawning? || s.parent.Creating?)
    && (s.parent.Spawning? ==> s.d.joinable == s.wantsJoin && s.child.Absent?)
    && (s.parent.Creating? && s.child != Absent ==> s.d.joinable == s.wantsJoin)
    && (!s.parent.Spawning? && s.child == Absent ==> !s.d.runnable && !s.d.joinable)
    && (s.parent.Waiting? || s.parent.Stopping? || s.parent.JoinTest? ==> s.d.joinable == s.wantsJoin)
    && (s.started == Yes && s.wantsJoin && Late(s.parent) ==> s.child == Exited)
    && (s.started == Yes ==> s.child != Absent)
    && (s.parent.Joining? || (s.started == Yes && Late(s.parent)) ==> !s.d.joinable)
  }

  lemma StepKeepsJoins(s: State, step: Step)
    requires Enabled(s, step) && Joins(s)
    ensures Joins(Apply(s, step))
  {
    match step {
      case ParentGoes => ParentKeepsJoins(s);
      case ChildGoes => ChildKeepsJoins(s);
      case _ =>
    }
  }

  lemma ChildLeavesAlone(s: State)
    requires Enabled(s, ChildGoes)
    ensures var t := ChildStep(s);
            && t.parent == s.parent && t.started == s.started && t.wantsJoin == s.wantsJoin
            && t.d.joinable == s.d.joinable && t.child != Absent
  {
    match s.child {
      case Nulling =>
      case Dropping =>
      case _ =>
    }
  }

  lemma JoinsStays(s: State, t: State)
    requires Joins(s) && s.child != Absent && s.child != Exited && t.child != Absent
    requires t.parent == s.parent && t.started == s.started && t.wantsJoin == s.wantsJoin
    requires t.d.joinable == s.d.joinable
    ensures Joins(t)
  {
  }

  lemma ChildKeepsJoins(s: State)
    requires Enabled(s, ChildGoes) && Joins(s)
    ensures Joins(ChildStep(s))
  {
    ChildLeavesAlone(s);
    JoinsStays(s, ChildStep(s));
  }

  lemma ParentKeepsJoins(s: State)
    requires Enabled(s, ParentGoes) && Joins(s)
    ensures Joins(ParentStep(s))
  {
  }

  predicate ChildDone(c: Child) {
    c.RefTest? || c.Dropping? || c.Deleting? || c.Exited?
  }

  predicate AtWork(c: Child) {
    !c.Absent? && !c.Starting? && !ChildDone(c)
  }

  /** What becomes of the runnable. */
  predicate Adoption(s: State) {
    && (s.runnableFrees == if s.adopted && ChildDone(s.child) then 1 else 0)
    && (s.child.Absent? || s.child.Starting? ==> !s.adopted)
    && (s.parent.Spawning? ==> s.d.runnable && s.child.Absent?)
    && (s.child.Starting? ==> (s.d.runnable <==> !s.early))
    && (!s.child.Absent? && !s.child.Starting? ==> (s.adopted <==> !s.early))
    && (s.parent.Spawning? || s.parent.Creating? || s.parent.Waiting? || s.parent.Stopping? ==> !s.early)
    && (AtWork(s.child) ==> s.adopted)
    && (s.started == No && !s.child.Absent? ==> !s.early && (s.child.FreeRunnable? || ChildDone(s.child)))
    && (s.d.runnable && !s.child.Absent? ==> !s.child.FreeRunnable? && !ChildDone(s.child))
    && (!s.d.runnable && !s.child.Absent? && (s.parent.Creating? || s.parent.Waiting?) ==>
          s.child.FreeRunnable? || ChildDone(s.child))
    && (s.started == No ==> Late(s.parent))
    && (s.started == Yes ==> !s.parent.Spawning? && !s.parent.Creating? && !s.child.Absent?)
    && (s.parent.Creating? && s.child.Absent? ==> !s.d.runnable)
  }

  lemma StepKeepsAdoption(s: State, step: Step)
    requires Enabled(s, step) && Adoption(s)
    ensures Adoption(Apply(s, step))
  {
    match step {
      case ParentGoes => ParentKeepsAdoption(s);
      case _ =>
    }
  }

  lemma ParentKeepsAdoption(s: State)
    requires Enabled(s, ParentGoes) && Adoption(s)
    ensures Adoption(ParentStep(s))
  {
  }

  lemma {:induction false} RunInv(run: seq<State>, k: nat)
    requires IsRun(run) && k < |run|
    ensures Counted(run[k]) && Joins(run[k]) && Adoption(run[k])
  {
    if k > 0 {
      RunInv(run, k - 1);
      assert NextAt(run, k - 1);
      var step :| Enabled(run[k - 1], step) && run[k] == Apply(run[k - 1], step);
      StepKeepsCounted(run[k - 1], step);
      StepKeepsJoins(run[k - 1], step);
      StepKeepsAdoption(run[k - 1], step);
    }
  }

  /** Both parties are through. */
  predicate AtRest(s: State) {
    s.parent.Gone? && (s.child.Absent? || s.child.Exited?)
  }

  /** Nobody uses a deleted delegate; it is deleted at most once, not before both parties have
      dropped it, and by the time both are through. */
  lemma FreedOnceByTheLast(run: seq<State>, k: nat)
    requires IsRun(run) && k < |run|
    ensures !run[k].fault && run[k].frees <= 1
    ensures run[k].frees == 1 ==> !ParentHolds(run[k].parent) && !ChildHolds(run[k].child)
    ensures AtRest(run[k]) ==> run[k].frees == 1
  {
    RunInv(run, k);
  }

  /** The stop, or the deletion, of a joinable thread returns only when the child has exited, and so
      has dropped the delegate and is done with the runnable. */
  lemma StopMeansExited(run: seq<State>, k: nat)
    requires IsRun(run) && k < |run|
    requires run[k].wantsJoin && run[k].started == Yes && Late(run[k].parent)
    ensures run[k].child == Exited && run[k].d.refCount <= 1 && !run[k].d.joinable
    ensures run[k].runnableFrees == if run[k].early then 0 else 1
  {
    RunInv(run, k);
  }

  /** A thread that could not be created leaves nothing to stop, to join or to wait for: start() returns
      false, the delegate is deleted by its maker, and the runnable is not touched. */
  lemma NothingSpawned(run: seq<State>, k: nat)
    requires IsRun(run) && k < |run| && run[k].child == Absent && run[k].parent != Spawning
    ensures !run[k].d.runnable && !run[k].d.joinable && run[k].runnableFrees == 0
    ensures run[k].parent == Creating || run[k].started == No
    ensures run[k].parent == Gone ==> run[k].frees == 1
  {
    RunInv(run, k);
  }

  /** Who deletes the runnable. LocThread.h says: the thread, when start() returns true, and else the
      client. What holds is that the thread does unless it could not be created or was stopped before
      it looked at mRunnable; a false start() says nothing more. */
  lemma RunnableFreed(run: seq<State>, k: nat)
    requires IsRun(run) && k < |run| && AtRest(run[k])
    ensures run[k].runnableFrees == 1 <==> run[k].child == Exited && !run[k].early
    ensures run[k].runnableFrees == 0 <==> run[k].child == Absent || run[k].early
    ensures run[k].started == Yes ==> (run[k].runnableFrees == 1 <==> !run[k].early)
    ensures run[k].started == No ==> (run[k].runnableFrees == 0 <==> run[k].child == Absent)
  {
    RunInv(run, k);
  }

  lemma Extend(run: seq<State>, step: Step) returns (longer: seq<State>)
    requires IsRun(run) && Enabled(run[|run| - 1], step)
    ensures IsRun(longer) && |longer| == |run| + 1
    ensures longer[|run|] == Apply(run[|run| - 1], step)
  {
    longer := run + [Apply(run[|run| - 1], step)];
    assert longer[0].wantsJoin == run[0].wantsJoin;
    forall i | 0 <= i < |longer| - 1 ensures NextAt(longer, i) {
      assert i < |run| - 1 ==> NextAt(run, i);
    }
  }

  /** `n` steps of the child, or of the parent, one after the other. */
  lemma {:induction false} ExtendMany(run: seq<State>, step: Step, n: nat, end: State) returns (longer: seq<State>)
    requires IsRun(run) && (step.ParentGoes? || step.ChildGoes?)
    requires Goes(run[|run| - 1], step, n, end)
    ensures IsRun(longer) && longer[|longer| - 1] == end
    decreases n
  {
    longer := run;
    if n > 0 {
      longer := Extend(run, step);
      longer := ExtendMany(longer, step, n - 1, end);
    }
  }

  predicate Goes(s: State, step: Step, n: nat, end: State)
    requires step.ParentGoes? || step.ChildGoes?
    decreases n
  {
    if n == 0 then s == end else Enabled(s, step) && Goes(Apply(s, step), step, n - 1, end)
  }

  /** A child may run the runnable and delete it before create() looks: start() returns false. */
  lemma FalseStartMayDelete() returns (run: seq<State>)
    ensures IsRun(run)
    ensures var s := run[|run| - 1]; s.started == No && s.runnableFrees == 1
  {
    var s := Init(true).(parent := Creating, child := Running, adopted := true);
    run := Extend([Init(true)], Spawn(true));
    run := ExtendMany(run, ChildGoes, 3, s);
    run := Extend(run, Run(false));
    run := ExtendMany(run, ChildGoes, 3, s.(child := Child.RefTest, d := Fields(false, true, 2), runnableFrees := 1));
    run := Extend(run, ParentGoes);
  }

  /** A stop() that comes before the child has looked leaves the runnable to nobody. */
  lemma EarlyStopLeaks() returns (run: seq<State>)
    ensures IsRun(run)
    ensures var s := run[|run| - 1]; s.started == Yes && AtRest(s) && s.runnableFrees == 0
  {
    run := ChildFindsNothing();
    var released := run[|run| - 1];
    run := ExtendMany(run, ParentGoes, 2, released.(parent := Parent.Dropping));
    run := ExtendMany(run, ParentGoes, 2, released.(parent := Gone, frees := 1, d := Fields(false, false, 0)));
  }

  lemma ChildFindsNothing() returns (run: seq<State>)
    ensures IsRun(run)
    ensures run[|run| - 1] == State(Fields(false, false, 1), Joining, Exited, true, Yes, false, true, 0, 0, false)
  {
    run := StopAtOnce();
    run := ExtendMany(run, ChildGoes, 3, run[|run| - 1].(child := Exited, d := Fields(false, false, 1)));
  }

  lemma StopAtOnce() returns (run: seq<State>)
    ensures IsRun(run)
    ensures run[|run| - 1] == State(Fields(false, false, 2), Joining, Starting, true, Yes, false, true, 0, 0, false)
  {
    var s := Init(true).(child := Starting);
    run := Extend([Init(true)], Spawn(true));
    run := Extend(run, ParentGoes);
    run := Extend(run, Call(true));
    s := s.(parent := Joining, started := Yes, early := true, d := Fields(false, false, 2));
    run := ExtendMany(run, ParentGoes, 2, s);
  }

  /** How many steps the child has left once mRunnable is NULL. */
  function ChildLeft(c: Child): nat {
    match c
    case Absent => 0
    case Starting => 4
    case PreRun => 9
    case Running => 9
    case LoopTest => 8
    case PostRun => 7
    case Nulling => 6
    case FreeRunnable => 5
    case RefTest => 3
    case Dropping => 2
    case Deleting => 1
    case Exited => 0
  }

  /** A stop() is not held up: from its first step on the child is within nine steps of its exit. No
      other step gives it more to do, and it can always take the next, run() returning. */
  lemma StopComesThrough(s: State, step: Step)
    requires Enabled(s, step) && !s.d.runnable && s.parent != Spawning
    ensures !Apply(s, step).d.runnable
    ensures step.ChildGoes? || step.Run? ==> ChildLeft(Apply(s, step).child) < ChildLeft(s.child) <= 9
    ensures step.ParentGoes? || step.Call? ==> Apply(s, step).child == s.child
    ensures ChildLeft(s.child) > 0 <==> Enabled(s, ChildGoes) || Enabled(s, Run(true))
  {
    if step.ChildGoes? {
      ChildGoesOn(s);
    }
  }

  lemma ChildGoesOn(s: State)
    requires Enabled(s, ChildGoes) && !s.d.runnable
    ensures ChildLeft(ChildStep(s).child) < ChildLeft(s.child) <= 9 && !ChildStep(s).d.runnable
  {
    match s.child {
      case Starting =>
      case LoopTest =>
      case RefTest =>
      case Dropping =>
      case _ =>
    }
  }

  /** Nothing is stuck: until both are through somebody can go on, if only by run() returning or the
      client calling. */
  lemma NeverStuck(run: seq<State>, k: nat)
    requires IsRun(run) && k < |run| && !AtRest(run[k])
    ensures exists step :: Enabled(run[k], step)
  {
    RunInv(run, k);
    var s := run[k];
    if s.child != Absent && s.child != Exited {
      assert Enabled(s, if s.child == Running then Run(true) else ChildGoes);
    } else {
      assert Enabled(s, if s.parent == Spawning then Spawn(true)
                        else if s.parent == Waiting then Call(true) else ParentGoes);
    }
  }
}
