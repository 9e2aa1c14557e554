/** What the thread of module LocThread does with its runnable: the calls of prerun(), run() and
    postrun(), over runs with their steps. */
module LocThreadCalls {
  import opened LocThread

  datatype Called = PreRan | Ran(more: bool) | PostRan

  ghost predicate StepAt(run: seq<State>, steps: seq<Step>, i: int)
    requires 0 <= i < |steps| < |run|
  {
    Enabled(run[i], steps[i]) && run[i + 1] == Apply(run[i], steps[i])
  }

  ghost predicate Plays(run: seq<State>, steps: seq<Step>) {
    && |run| == |steps| + 1
    && run[0] == Init(run[0].wantsJoin)
    && forall i :: 0 <= i < |steps| ==> StepAt(run, steps, i)
  }

  /** Before prerun() and postrun() the child looks whether mRunnable is still there. */
  function CallsBy(s: State, step: Step): seq<Called> {
    if step.Run? then [Ran(step.more)]
    else if step.ChildGoes? && s.child.PreRun? && s.d.runnable then [PreRan]
    else if step.ChildGoes? && s.child.PostRun? && s.d.runnable then [PostRan]
    else []
  }

  /** The calls of the first `k` steps. */
  function Calls(run: seq<State>, steps: seq<Step>, k: nat): seq<Called>
    requires k <= |steps| < |run|
  {
    if k == 0 then [] else Calls(run, steps, k - 1) + CallsBy(run[k - 1], steps[k - 1])
  }

  /** stop() has nulled mRunnable. */
  function Nulled(run: seq<State>, steps: seq<Step>, k: nat): bool
    requires k <= |steps| < |run|
  {
    k > 0 && (Nulled(run, steps, k - 1) || (steps[k - 1].ParentGoes? && run[k - 1].parent.Stopping?))
  }

  /** The client has asked for that: with stop(), or by deleting the LocThread of a joinable thread. */
  function Asked(run: seq<State>, steps: seq<Step>, k: nat): bool
    requires k <= |steps| < |run|
  {
    k > 0 && (Asked(run, steps, k - 1)
              || (steps[k - 1].Call? && (steps[k - 1].stop || run[k - 1].wantsJoin)))
  }

  /** prerun(), and then run(), which has asked to be called again each time. */
  predicate Going(calls: seq<Called>) {
    calls != [] && calls[0] == PreRan && forall i :: 1 <= i < |calls| ==> calls[i] == Ran(true)
  }

  /** The same, and then run() that has asked for no more. */
  predicate Done(calls: seq<Called>) {
    calls != [] && calls[|calls| - 1] == Ran(false) && Going(calls[..|calls| - 1])
  }

  /** The same, and then postrun(). */
  predicate Finished(calls: seq<Called>) {
    calls != [] && calls[|calls| - 1] == PostRan && Done(calls[..|calls| - 1])
  }

  predicate AfterLoop(c: Child) {
    c.PostRun? || c.Nulling? || c.FreeRunnable? || ChildDone(c)
  }

  /** How far the calls have got, by where the child is. */
  predicate CallsFit(s: State, calls: seq<Called>) {
    && (s.parent.Spawning? ==> s.child.Absent?)
    && (s.child.Absent? || s.child.Starting? || s.child.PreRun? ==> calls == [])
    && (s.child.LoopTest? ==> Going(calls) || (calls == [] && !s.d.runnable))
    && (s.child.Running? ==> Going(calls))
    && (s.child.PostRun? ==> Done(calls) || (!s.d.runnable && (calls == [] || Going(calls))))
    && (s.child.Nulling? ==>
          Finished(calls) || (!s.d.runnable && (calls == [] || Going(calls) || Done(calls))))
    && (s.child.FreeRunnable? || ChildDone(s.child) ==>
          calls == [] || Going(calls) || Done(calls) || Finished(calls))
  }

  lemma OneMoreCall(calls: seq<Called>, c: Called)
    ensures Going(calls) && c == Ran(true) ==> Going(calls + [c])
    ensures Going(calls) && c == Ran(false) ==> Done(calls + [c])
    ensures Done(calls) && c == PostRan ==> Finished(calls + [c])
    ensures calls == [] && c == PreRan ==> Going(calls + [c])
  {
    assert (calls + [c])[..|calls|] == calls;
  }

  lemma StepKeepsCallsFit(s: State, step: Step, calls: seq<Called>)
    requires Enabled(s, step) && CallsFit(s, calls)
    ensures CallsFit(Apply(s, step), calls + CallsBy(s, step))
  {
    assert calls + [] == calls;
    match step {
      case Run(more) => OneMoreCall(calls, Ran(more));
      case ChildGoes => ChildKeepsCallsFit(s, calls);
      case _ => assert Apply(s, step).d.runnable ==> s.d.runnable;
    }
  }

  lemma ChildKeepsCallsFit(s: State, calls: seq<Called>)
    requires Enabled(s, ChildGoes) && CallsFit(s, calls)
    ensures CallsFit(ChildStep(s), calls + CallsBy(s, ChildGoes))
  {
    assert calls + [] == calls;
    if s.child.PreRun? {
      OneMoreCall(calls, PreRan);
    } else if s.child.PostRun? {
      OneMoreCall(calls, PostRan);
      assert s.d.runnable ==> Finished(calls + [PostRan]);
    } else {
      QuietFits(s, calls);
    }
  }

  lemma QuietFits(s: State, calls: seq<Called>)
    requires Enabled(s, ChildGoes) && !s.child.PreRun? && !s.child.PostRun? && CallsFit(s, calls)
    ensures CallsFit(ChildStep(s), calls)
  {
    var t := ChildStep(s);
    if s.child.Starting? {
      assert calls == [];
    } else if s.child.LoopTest? || s.child.Nulling? {
      assert calls == [] || Going(calls) || Done(calls) || Finished(calls);
    } else {
      assert t.child.FreeRunnable? || ChildDone(t.child);
    }
  }

  /** In every run: prerun() comes first, if at all; run() is called again as long as it asks for that
      and stop() has not intervened; postrun() comes last, and only after run() has asked for no more. */
  lemma {:induction false} CallsInOrder(run: seq<State>, steps: seq<Step>, k: nat)
    requires Plays(run, steps) && k <= |steps|
    ensures var calls := Calls(run, steps, k);
            && (calls == [] || Going(calls) || Done(calls) || Finished(calls))
            && CallsFit(run[k], calls)
  {
    if k > 0 {
      CallsInOrder(run, steps, k - 1);
      assert StepAt(run, steps, k - 1);
      StepKeepsCallsFit(run[k - 1], steps[k - 1], Calls(run, steps, k - 1));
    }
  }

  /** While stop() has not nulled mRunnable and run() has not declined, the thread is in its loop: it has
      neither left it nor deleted the runnable, whatever the client does otherwise. */
  lemma {:induction false} GoesOnUnlessTold(run: seq<State>, steps: seq<Step>, k: nat)
    requires Plays(run, steps) && k <= |steps|
    requires !Nulled(run, steps, k) && Run(false) !in steps[..k]
    ensures InLoop(run[k])
    ensures run[k].child != Absent ==> run[k].d.runnable && !AfterLoop(run[k].child)
    ensures run[k].runnableFrees == 0
  {
    if k > 0 {
      assert steps[..k][..k - 1] == steps[..k - 1] && steps[k - 1] in steps[..k];
      GoesOnUnlessTold(run, steps, k - 1);
      assert StepAt(run, steps, k - 1);
      StepGoesOn(run[k - 1], steps[k - 1]);
    }
  }

  predicate InLoop(s: State) {
    && (s.child != Absent ==> s.d.runnable && !AfterLoop(s.child))
    && (s.parent == Spawning ==> s.child == Absent && s.d.runnable)
    && s.runnableFrees == 0
  }

  lemma StepGoesOn(s: State, step: Step)
    requires Enabled(s, step) && InLoop(s) && step != Run(false) && !(step.ParentGoes? && s.parent.Stopping?)
    ensures InLoop(Apply(s, step))
  {
    match step {
      case ChildGoes => assert InLoop(ChildStep(s));
      case ParentGoes => assert InLoop(ParentStep(s));
      case _ =>
    }
  }

  /** And from run() that has asked to be called again the next step of the child is to call it. */
  lemma RunsAgain(s: State, between: State)
    requires s.child == Running && s.d.runnable
    requires between.child == Apply(s, Run(true)).child && between.d.runnable
    ensures Enabled(between, ChildGoes) && Apply(between, ChildGoes).child == Running
  {
  }

  /** stop() nulls mRunnable exactly if the client asked for it: a detached thread whose LocThread is
      deleted without a stop() runs on. */
  lemma {:induction false} StoppedWhenAsked(run: seq<State>, steps: seq<Step>, k: nat)
    requires Plays(run, steps) && k <= |steps|
    ensures Nulled(run, steps, k) ==> Asked(run, steps, k)
    ensures Late(run[k].parent) && Asked(run, steps, k) ==> Nulled(run, steps, k)
  {
    AskedFits(run, steps, k);
  }

  /** Where the parent is, by what the client has asked for. */
  predicate AskFits(s: State, asked: bool, nulled: bool) {
    && (s.parent.Spawning? || s.parent.Creating? || s.parent.Waiting? ==> !asked)
    && (s.parent.Spawning? ==> s.d.joinable == s.wantsJoin && s.child.Absent?)
    && (s.parent.Creating? ==> if s.child == Absent then !s.d.runnable else s.d.joinable == s.wantsJoin)
    && (s.parent.Waiting? ==> s.d.joinable == s.wantsJoin)
    && (s.parent.Stopping? ==> asked && !nulled)
    && (s.parent.JoinTest? || s.parent.Joining? || Late(s.parent) ==> asked == nulled)
    && (nulled ==> asked)
  }

  lemma StepKeepsAskFits(s: State, step: Step, asked: bool, nulled: bool)
    requires Enabled(s, step) && AskFits(s, asked, nulled)
    ensures AskFits(Apply(s, step), asked || (step.Call? && (step.stop || s.wantsJoin)),
                    nulled || (step.ParentGoes? && s.parent.Stopping?))
  {
    match step {
      case ChildGoes => ChildLeavesAlone(s);
      case _ =>
    }
  }

  lemma {:induction false} AskedFits(run: seq<State>, steps: seq<Step>, k: nat)
    requires Plays(run, steps) && k <= |steps|
    ensures AskFits(run[k], Asked(run, steps, k), Nulled(run, steps, k))
  {
    if k > 0 {
      AskedFits(run, steps, k - 1);
      assert StepAt(run, steps, k - 1);
      StepKeepsAskFits(run[k - 1], steps[k - 1], Asked(run, steps, k - 1), Nulled(run, steps, k - 1));
    }
  }
}
