/** camera/QCamera2/HAL/QCamera2HWI.cpp: deferred jobs. queueDefferedWork() puts a job in a slot and
    in a queue, one worker thread takes the jobs in turn and frees their slots, and waitDefferedWork()
    sleeps while a slot is in use. */
module DeferredWork {
  import opened Wrappers
  import opened Counting

  const MAX_ONGOING_JOBS: nat := 25

  /** A DeffWork. `serial` tells jobs of the same id apart; `proper` says that the command is
      known, and for CMD_DEFF_ALLOCATE_BUFF that its channel is not NULL; CMD_DEFF_PPROC_START asserts
      its channel and goes on to free the slot, so it is always proper. */
  datatype Job = Job(serial: nat, id: nat, proper: bool)

  /** A thread that may call waitDefferedWork(): not in it, or waiting for the slot of the job. */
  datatype Waiter = Out | Asleep(job: Job) | Woken(job: Job)

  /** `busy` is mDeffOngoingJobs; `queue` mCmdQueue; `abandoned` has the jobs that the worker took and
      found improper; `done` those it did, in order; `issued` all there were. */
  datatype State = State(
    busy: seq<bool>, queue: seq<Job>, running: Option<Job>, abandoned: seq<Job>, done: seq<Job>,
    issued: seq<Job>, waiters: seq<Waiter>)

  /** `chosen` is the waiter that mDeffCond.signal() wakes. */
  datatype Step =
    | Queue(proper: bool)
    | Take
    | Complete(chosen: nat)
    | Wait(w: nat, job: Job)
    | Spurious(w: nat)
    | Resume(w: nat)

  function Init(waiters: nat): State {
    State(seq(MAX_ONGOING_JOBS, _ => false), [], None, [], [], [], seq(waiters, _ => Out))
  }

  predicate IsAsleep(ws: seq<Waiter>, w: nat) {
    w < |ws| && ws[w].Asleep?
  }

  ghost predicate Enabled(s: State, step: Step) {
    match step
    case Queue(_) => true
    case Take => s.running == None && s.queue != []
    case Complete(chosen) => s.running.Some? && (IsAsleep(s.waiters, chosen) || forall w: nat :: !IsAsleep(s.waiters, w))
    case Wait(w, job) => w < |s.waiters| && s.waiters[w] == Out && job in s.issued
    case Spurious(w) => IsAsleep(s.waiters, w)
    case Resume(w) => w < |s.waiters| && s.waiters[w].Woken?
  }

  /** The first slot that is free, or their number. */
  function FirstFree(busy: seq<bool>): (k: nat)
    ensures k <= |busy| && (k < |busy| ==> !busy[k])
    ensures forall i :: 0 <= i < k ==> busy[i]
  {
    if busy == [] || !busy[0] then 0 else 1 + FirstFree(busy[1..])
  }

  /** queueDefferedWork(); None stands for -1. */
  function QueuedId(busy: seq<bool>): Option<nat> {
    if FirstFree(busy) < |busy| then Some(FirstFree(busy)) else None
  }

  function Queued(s: State, proper: bool): State {
    match QueuedId(s.busy)
    case None => s
    case Some(id) =>
      var job := Job(|s.issued|, id, proper);
      s.(queue := s.queue + [job], busy := s.busy[id := true], issued := s.issued + [job])
  }

  /** The loop of waitDefferedWork(), from having the lock to giving it up. */
  function Waited(s: State, w: nat, job: Job): State
    requires w < |s.waiters|
  {
    s.(waiters := s.waiters[w := if job.id < |s.busy| && s.busy[job.id] then Asleep(job) else Out])
  }

  function Signalled(ws: seq<Waiter>, chosen: nat): seq<Waiter> {
    if IsAsleep(ws, chosen) then ws[chosen := Woken(ws[chosen].job)] else ws
  }

  function Apply(s: State, step: Step): State
    requires Enabled(s, step)
  {
    match step
    case Queue(proper) => Queued(s, proper)
    case Take =>
      var job := s.queue[0];
      if job.proper then s.(queue := s.queue[1..], running := Some(job))
      else s.(queue := s.queue[1..], abandoned := s.abandoned + [job])
    case Complete(chosen) =>
      var job := s.running.value;
      s.(running := None, done := s.done + [job], waiters := Signalled(s.waiters, chosen),
         busy := if job.id < |s.busy| then s.busy[job.id := false] else s.busy)
    case Wait(w, job) => Waited(s, w, job)
    case Spurious(w) => s.(waiters := Signalled(s.waiters, w))
    case Resume(w) => Waited(s, w, s.waiters[w].job)
  }

  ghost predicate NextAt(run: seq<State>, i: int)
    requires 0 <= i < |run| - 1
  {
    Next(run[i], run[i + 1])
  }

  ghost predicate Next(s: State, t: State) {
    exists step :: Enabled(s, step) && t == Apply(s, step)
  }

  ghost predicate IsRun(run: seq<State>) {
    && 0 < |run|
    && run[0] == Init(|run[0].waiters|)
    && forall i :: 0 <= i < |run| - 1 ==> NextAt(run, i)
  }

  /** The jobs that were queued and are not done. */
  function Outstanding(s: State): seq<Job> {
    s.abandoned + Current(s) + s.queue
  }

  function Current(s: State): seq<Job> {
    if s.running.Some? then [s.running.value] else []
  }

  function IdOf(job: Job): nat {
    job.id
  }

  /** How many outstanding jobs have this id. */
  function Holders(s: State, id: nat): nat {
    Count(s.abandoned, IdOf, id) + Count(Current(s), IdOf, id) + Count(s.queue, IdOf, id)
  }

  /** A slot is in use exactly when one job of its id is outstanding, and no two jobs share an id. */
  ghost predicate Slots(s: State) {
    && |s.busy| == MAX_ONGOING_JOBS
    && forall id: nat {:trigger Holders(s, id)} ::
         Holders(s, id) == if id < |s.busy| && s.busy[id] then 1 else 0
  }

  lemma StepKeepsSlots(s: State, step: Step)
    requires Enabled(s, step) && Slots(s)
    ensures Slots(Apply(s, step))
  {
    var t := Apply(s, step);
    forall id: nat {:trigger Holders(t, id)}
      ensures Holders(t, id) == if id < |t.busy| && t.busy[id] then 1 else 0
    {
      assert Holders(s, id) == if id < |s.busy| && s.busy[id] then 1 else 0;
      HoldersAfter(s, step, id);
    }
  }

  lemma HoldersAfter(s: State, step: Step, id: nat)
    requires Enabled(s, step)
    ensures Holders(Apply(s, step), id) == Holders(s, id)
         + (if step.Queue? && QueuedId(s.busy) == Some(id) then 1 else 0)
         - (if step.Complete? && s.running.value.id == id then 1 else 0)
  {
    match step {
      case Queue(proper) =>
        if FirstFree(s.busy) < |s.busy| {
          CountAppend(s.queue, [Job(|s.issued|, FirstFree(s.busy), proper)], IdOf, id);
        }
      case Take =>
        CountAppend(s.abandoned, [s.queue[0]], IdOf, id);
        assert Count([s.queue[0]], IdOf, id) == if s.queue[0].id == id then 1 else 0;
      case Complete(_) =>
        assert Count(Current(s), IdOf, id) == if s.running.value.id == id then 1 else 0;
      case _ =>
    }
  }

  /** Every job that there was is done, or outstanding. */
  predicate Accounted(s: State, job: Job) {
    job in s.issued ==> job in s.done || job in s.abandoned || job in Current(s) || job in s.queue
  }

  lemma StepAccounts(s: State, step: Step, job: Job)
    requires Enabled(s, step) && Accounted(s, job)
    ensures Accounted(Apply(s, step), job)
  {
    var t := Apply(s, step);
    if step.Take? {
      assert s.queue == [s.queue[0]] + s.queue[1..];
    }
  }

  /** Who waits does so for a job that there was. */
  ghost predicate Waiting(s: State) {
    forall w: nat :: w < |s.waiters| && s.waiters[w] != Out ==> s.waiters[w].job in s.issued
  }

  lemma {:induction false} RunInv(run: seq<State>, k: nat)
    requires IsRun(run) && k < |run|
    ensures Slots(run[k]) && Waiting(run[k]) && forall job {:trigger Accounted(run[k], job)} :: Accounted(run[k], job)
  {
    if k > 0 {
      RunInv(run, k - 1);
      assert NextAt(run, k - 1);
      var step :| Enabled(run[k - 1], step) && run[k] == Apply(run[k - 1], step);
      StepKeepsSlots(run[k - 1], step);
      forall job {:trigger Accounted(run[k], job)} ensures Accounted(run[k], job) {
        assert Accounted(run[k - 1], job);
        StepAccounts(run[k - 1], step, job);
      }
    } else {
      forall id: nat {:trigger Holders(run[0], id)} ensures Holders(run[0], id) == 0 {
      }
    }
  }

  /** In every run: outstanding jobs have ids of their own, which are those of the slots in use. */
  lemma OneJobPerSlot(run: seq<State>, k: nat, id: nat)
    requires IsRun(run) && k < |run|
    ensures Count(Outstanding(run[k]), IdOf, id) <= 1
    ensures Count(Outstanding(run[k]), IdOf, id) == 1 <==> id < |run[k].busy| && run[k].busy[id]
    ensures |run[k].busy| == MAX_ONGOING_JOBS
  {
    RunInv(run, k);
    var s := run[k];
    CountAppend(s.abandoned + Current(s), s.queue, IdOf, id);
    CountAppend(s.abandoned, Current(s), IdOf, id);
    assert Holders(s, id) == if id < |s.busy| && s.busy[id] then 1 else 0;
  }

  /** A slot that is free is one whose jobs are all done; one in use has a job outstanding. */
  lemma SlotTells(s: State, id: nat)
    requires Slots(s) && id < |s.busy|
    ensures s.busy[id] <==> exists job :: job in Outstanding(s) && job.id == id
    ensures !s.busy[id] ==> forall job :: job in s.issued && job.id == id && Accounted(s, job) ==> job in s.done
  {
    assert Holders(s, id) == if s.busy[id] then 1 else 0;
    CountIn(s.abandoned, IdOf, id);
    CountIn(Current(s), IdOf, id);
    CountIn(s.queue, IdOf, id);
    if s.busy[id] {
      var job :| (job in s.abandoned || job in Current(s) || job in s.queue) && IdOf(job) == id;
      assert job in Outstanding(s) && job.id == id;
    }
    forall job | job in Outstanding(s) && job.id == id ensures s.busy[id] {
      assert IdOf(job) == id && (job in s.abandoned || job in Current(s) || job in s.queue);
    }
    forall job | !s.busy[id] && job in s.issued && job.id == id && Accounted(s, job) ensures job in s.done {
      assert IdOf(job) == id;
    }
  }

  /** waitDefferedWork() returns, now or after sleeping, only when the job is done. */
  lemma WaitedForIsDone(run: seq<State>, k: nat, step: Step, w: nat)
    requires IsRun(run) && k < |run| && Enabled(run[k], step)
    requires step == Resume(w) || (step.Wait? && step.w == w)
    requires Apply(run[k], step).waiters[w] == Out
    ensures (if step.Wait? then step.job else run[k].waiters[w].job) in run[k].done
  {
    RunInv(run, k);
    var s := run[k];
    var job := if step.Wait? then step.job else s.waiters[w].job;
    assert Accounted(s, job);
    assert Holders(s, job.id) == 0;
    CountIn(s.abandoned, IdOf, job.id);
    CountIn(Current(s), IdOf, job.id);
    CountIn(s.queue, IdOf, job.id);
    assert IdOf(job) == job.id;
  }

  /** A slot whose job was improper is never free again. */
  lemma {:induction false} AbandonedForGood(run: seq<State>, j: nat, k: nat, job: Job)
    requires IsRun(run) && j <= k < |run| && job in run[j].abandoned
    ensures job in run[k].abandoned && job.id < |run[k].busy| && run[k].busy[job.id]
    decreases k - j
  {
    if j < k {
      AbandonedForGood(run, j, k - 1, job);
      assert NextAt(run, k - 1);
    }
    RunInv(run, k);
    CountIn(run[k].abandoned, IdOf, job.id);
    assert Holders(run[k], job.id) > 0;
  }

  /** So a job that the worker takes and finds improper blocks its slot. */
  lemma ImproperBlocksSlot(run: seq<State>, j: nat, k: nat)
    requires IsRun(run) && j < k < |run| && Enabled(run[j], Take) && run[j + 1] == Apply(run[j], Take)
    requires !run[j].queue[0].proper
    ensures run[j].queue[0].id < |run[k].busy| && run[k].busy[run[j].queue[0].id]
    ensures run[j + 1].done == run[j].done
  {
    AbandonedForGood(run, j + 1, k, run[j].queue[0]);
  }

  /** The worker does the jobs in the order they were queued. */
  ghost predicate Increasing(jobs: seq<Job>) {
    forall i, j :: 0 <= i < j < |jobs| ==> jobs[i].serial < jobs[j].serial
  }

  ghost predicate InOrder(s: State) {
    && Increasing(AllJobs(s))
    && forall job :: job in AllJobs(s) ==> job.serial < |s.issued|
  }

  function AllJobs(s: State): seq<Job> {
    s.done + Current(s) + s.queue
  }

  function Dropped(jobs: seq<Job>, n: nat): seq<Job>
    requires n < |jobs|
  {
    jobs[..n] + jobs[n + 1..]
  }

  lemma StillIncreasing(jobs: seq<Job>, n: nat)
    requires n < |jobs| && Increasing(jobs)
    ensures Increasing(Dropped(jobs, n))
    ensures forall job :: job in Dropped(jobs, n) ==> job in jobs
  {
    var less := Dropped(jobs, n);
    assert forall i :: 0 <= i < |less| ==> less[i] == jobs[if i < n then i else i + 1];
  }

  lemma StepKeepsOrder(s: State, step: Step)
    requires Enabled(s, step) && InOrder(s)
    ensures InOrder(Apply(s, step))
  {
    var t := Apply(s, step);
    match step {
      case Queue(proper) =>
        if QueuedId(s.busy).Some? {
          var job := Job(|s.issued|, FirstFree(s.busy), proper);
          assert AllJobs(t) == AllJobs(s) + [job];
        }
      case Take => TakeKeepsOrder(s);
      case Complete(_) => assert AllJobs(t) == AllJobs(s);
      case _ => assert AllJobs(t) == AllJobs(s);
    }
  }

  lemma TakeKeepsOrder(s: State)
    requires Enabled(s, Take) && InOrder(s)
    ensures InOrder(Apply(s, Take))
  {
    var t, n := Apply(s, Take), |s.done|;
    assert AllJobs(s)[n] == s.queue[0];
    if s.queue[0].proper {
      assert AllJobs(t) == AllJobs(s);
    } else {
      assert AllJobs(t) == Dropped(AllJobs(s), n);
      StillIncreasing(AllJobs(s), n);
    }
  }

  lemma {:induction false} DoneInOrder(run: seq<State>, k: nat)
    requires IsRun(run) && k < |run|
    ensures InOrder(run[k]) && Increasing(run[k].done)
  {
    if k > 0 {
      DoneInOrder(run, k - 1);
      assert NextAt(run, k - 1);
      var step :| Enabled(run[k - 1], step) && run[k] == Apply(run[k - 1], step);
      StepKeepsOrder(run[k - 1], step);
    }
    assert forall i :: 0 <= i < |run[k].done| ==> run[k].done[i] == AllJobs(run[k])[i];
  }

  /** With one thread that waits, none sleeps past the end of its job. */
  lemma {:induction false} OneWaiterIsWoken(run: seq<State>, k: nat)
    requires IsRun(run) && k < |run| && |run[0].waiters| <= 1
    ensures |run[k].waiters| <= 1
    ensures forall w: nat :: IsAsleep(run[k].waiters, w) ==> SlotBusy(run[k], run[k].waiters[w].job)
  {
    if k > 0 {
      OneWaiterIsWoken(run, k - 1);
      assert NextAt(run, k - 1);
      var step :| Enabled(run[k - 1], step) && run[k] == Apply(run[k - 1], step);
      if step.Complete? && IsAsleep(run[k - 1].waiters, 0) {
        assert step.chosen == 0;
      }
    }
  }

  predicate SlotBusy(s: State, job: Job) {
    job.id < |s.busy| && s.busy[job.id]
  }

  lemma Extend(run: seq<State>, step: Step) returns (longer: seq<State>)
    requires IsRun(run) && Enabled(run[|run| - 1], step)
    ensures IsRun(longer) && |longer| == |run| + 1 && longer[0] == run[0]
    ensures longer[|run|] == Apply(run[|run| - 1], step)
  {
    longer := run + [Apply(run[|run| - 1], step)];
    assert |longer[0].waiters| == |run[0].waiters|;
    forall i | 0 <= i < |longer| - 1 ensures NextAt(longer, i) {
      assert i < |run| - 1 ==> NextAt(run, i);
    }
  }

  /** With more threads the signal for the end of a job may go to one that waits for another: all
      jobs are done, and a thread sleeps. */
  lemma OtherWaiterSleepsOn(n: nat) returns (run: seq<State>)
    requires n >= 2
    ensures IsRun(run) && |run[0].waiters| == n
    ensures var s := run[|run| - 1];
            IsAsleep(s.waiters, 0) && s.waiters[0].job in s.done && Outstanding(s) == [] && !SlotBusy(s, s.waiters[0].job)
  {
    var a, b := Job(0, 0, true), Job(1, 1, true);
    run := WrongOneWoken(n);
    run := Extend(run, Resume(1));
    run := Extend(run, Take);
    run := Extend(run, Complete(1));
    assert run[|run| - 1].done == [a, b];
  }

  lemma WrongOneWoken(n: nat) returns (run: seq<State>)
    requires n >= 2
    ensures IsRun(run) && |run[0].waiters| == n
    ensures var s, a, b := run[|run| - 1], Job(0, 0, true), Job(1, 1, true);
            && |s.busy| == MAX_ONGOING_JOBS && !s.busy[0] && s.busy[1]
            && s.queue == [b] && s.running == None && s.abandoned == [] && s.done == [a]
            && |s.waiters| == n && s.waiters[0] == Asleep(a) && s.waiters[1] == Woken(b)
  {
    run := BothAsleep(n);
    run := Extend(run, Take);
    run := Extend(run, Complete(1));
  }

  lemma BothAsleep(n: nat) returns (run: seq<State>)
    requires n >= 2
    ensures IsRun(run) && |run[0].waiters| == n
    ensures var a, b := Job(0, 0, true), Job(1, 1, true);
            run[|run| - 1] == State(Init(n).busy[0 := true][1 := true], [a, b], None, [], [], [a, b],
                                    Init(n).waiters[0 := Asleep(a)][1 := Asleep(b)])
  {
    var a, b := Job(0, 0, true), Job(1, 1, true);
    assert !Init(n).busy[0];
    run := Extend([Init(n)], Queue(true));
    assert run[|run| - 1].busy[0] && !run[|run| - 1].busy[1];
    run := Extend(run, Queue(true));
    assert run[|run| - 1].queue == [a, b];
    assert run[|run| - 1] == Init(n).(busy := Init(n).busy[0 := true][1 := true], queue := [a, b], issued := [a, b]);
    run := Extend(run, Wait(0, a));
    run := Extend(run, Wait(1, b));
  }

  /** How many slots are in use. */
  function InUse(busy: seq<bool>): nat {
    if busy == [] then 0 else (if busy[|busy| - 1] then 1 else 0) + InUse(busy[..|busy| - 1])
  }

  lemma {:induction false} AllInUse(busy: seq<bool>)
    ensures InUse(busy) <= |busy|
    ensures InUse(busy) == |busy| <==> forall i :: 0 <= i < |busy| ==> busy[i]
  {
    if busy != [] {
      var rest := busy[..|busy| - 1];
      AllInUse(rest);
      assert (forall i :: 0 <= i < |busy| ==> busy[i])
        <==> busy[|busy| - 1] && forall i :: 0 <= i < |rest| ==> rest[i];
    }
  }

  /** The jobs with an id below `n`. */
  function Below(jobs: seq<Job>, n: nat): nat {
    if jobs == [] then 0 else (if jobs[0].id < n then 1 else 0) + Below(jobs[1..], n)
  }

  lemma {:induction false} BelowOneMore(jobs: seq<Job>, n: nat)
    ensures Below(jobs, n + 1) == Below(jobs, n) + Count(jobs, IdOf, n)
    ensures Below(jobs, 0) == 0 && Below(jobs, n) <= |jobs|
  {
    if jobs != [] {
      BelowOneMore(jobs[1..], n);
    }
  }

  lemma {:induction false} BelowAll(jobs: seq<Job>, n: nat)
    requires forall job :: job in jobs ==> job.id < n
    ensures Below(jobs, n) == |jobs|
  {
    if jobs != [] {
      BelowAll(jobs[1..], n);
    }
  }

  lemma {:induction false} BelowInUse(jobs: seq<Job>, busy: seq<bool>, n: nat)
    requires n <= |busy|
    requires forall id: nat :: id < n ==> Count(jobs, IdOf, id) == if busy[id] then 1 else 0
    ensures Below(jobs, n) == InUse(busy[..n])
  {
    if n == 0 {
      BelowOneMore(jobs, 0);
    } else {
      BelowInUse(jobs, busy, n - 1);
      BelowOneMore(jobs, n - 1);
      assert busy[..n][..n - 1] == busy[..n - 1];
      assert Count(jobs, IdOf, n - 1) == if busy[n - 1] then 1 else 0;
    }
  }

  /** In every run: there are never more than 25 jobs outstanding, and exactly at 25 the next one is
      refused. */
  lemma RefusedAtTwentyFive(run: seq<State>, k: nat, proper: bool)
    requires IsRun(run) && k < |run|
    ensures |Outstanding(run[k])| <= 25
    ensures Apply(run[k], Queue(proper)) == run[k] <==> |Outstanding(run[k])| == 25
    ensures |Outstanding(run[k])| < 25 ==>
              |Outstanding(Apply(run[k], Queue(proper)))| == |Outstanding(run[k])| + 1
  {
    var s := run[k];
    var jobs := Outstanding(s);
    RunInv(run, k);
    forall id: nat ensures Count(jobs, IdOf, id) == if id < |s.busy| && s.busy[id] then 1 else 0 {
      OneJobPerSlot(run, k, id);
    }
    forall job | job in jobs ensures job.id < |s.busy| {
      CountIn(jobs, IdOf, job.id);
      assert IdOf(job) == job.id;
    }
    BelowAll(jobs, |s.busy|);
    BelowInUse(jobs, s.busy, |s.busy|);
    assert s.busy[..|s.busy|] == s.busy;
    AllInUse(s.busy);
  }

  /** The fields, and the methods stretch by stretch of holding mDeffLock. Each does to the fields what
      a step of the machine does to a state that they are part of. */
  class Jobs {
    const mDeffOngoingJobs: array<bool>
    var mCmdQueue: seq<Job>

    ghost predicate PartOf(s: State)
      reads this, mDeffOngoingJobs
    {
      mDeffOngoingJobs[..] == s.busy && mCmdQueue == s.queue
    }

    constructor ()
      ensures forall waiters: nat :: PartOf(Init(waiters))
      ensures fresh(mDeffOngoingJobs)
    {
      mDeffOngoingJobs := new bool[MAX_ONGOING_JOBS](_ => false);
      mCmdQueue := [];
    }

    /** `serial` stands for the address of the new DeffWork. */
    method QueueDefferedWork(proper: bool, serial: nat, ghost s: State) returns (id: int)
      requires PartOf(s) && serial == |s.issued|
      modifies this, mDeffOngoingJobs
      ensures PartOf(Apply(s, Queue(proper)))
      ensures id == -1 <==> forall i :: 0 <= i < |s.busy| ==> s.busy[i]
      ensures id != -1 ==> 0 <= id < |s.busy| && !s.busy[id] && forall i :: 0 <= i < id ==> s.busy[i]
      ensures id != -1 ==>
                && mDeffOngoingJobs[..] == s.busy[id := true]
                && mCmdQueue == s.queue + [Job(serial, id, proper)]
      ensures id == -1 ==> mDeffOngoingJobs[..] == s.busy && mCmdQueue == s.queue
      ensures id >= 0 ==> Apply(s, Queue(proper)).issued == s.issued + [Job(serial, id, proper)]
    {
      var i := 0;
      while i < mDeffOngoingJobs.Length
        invariant 0 <= i <= mDeffOngoingJobs.Length
        invariant forall k :: 0 <= k < i ==> mDeffOngoingJobs[k]
      {
        if !mDeffOngoingJobs[i] {
          ghost var busy := mDeffOngoingJobs[..];
          assert i == FirstFree(busy);
          mCmdQueue := mCmdQueue + [Job(serial, i, proper)];
          mDeffOngoingJobs[i] := true;
          return i;
        }
        i := i + 1;
      }
      assert FirstFree(s.busy) == |s.busy|;
      return -1;
    }

    /** defferedWorkRoutine() takes a job; None is an improper one, whose slot it leaves as it is. */
    method TakeJob(ghost s: State) returns (job: Option<Job>)
      requires PartOf(s) && Enabled(s, Take)
      modifies this
      ensures PartOf(Apply(s, Take)) && job == Apply(s, Take).running
    {
      var dw := mCmdQueue[0];
      mCmdQueue := mCmdQueue[1..];
      return if dw.proper then Some(dw) else None;
    }

    /** It is done with a job; mDeffCond is signalled. */
    method FinishJob(job: Job, ghost s: State, ghost chosen: nat)
      requires PartOf(s) && Slots(s) && s.running == Some(job) && Enabled(s, Complete(chosen))
      modifies mDeffOngoingJobs
      ensures PartOf(Apply(s, Complete(chosen)))
    {
      assert job.id < |s.busy| by {
        CountIn(Current(s), IdOf, job.id);
        assert job in Current(s) && IdOf(job) == job.id;
        assert Holders(s, job.id) > 0;
      }
      mDeffOngoingJobs[job.id] := false;
    }

    /** Waits, as the machine's waiter does, or returns with the caller's job_id set. It goes back to
        sleep exactly while a job of that number is outstanding; when it returns, all there ever were
        are done. A number that is no slot's is let through. */
    method WaitDefferedWork(jobId: int, ghost s: State) returns (waits: bool, newId: int)
      requires PartOf(s) && Slots(s)
      ensures waits <==> exists job :: job in Outstanding(s) && job.id == jobId
      ensures forall w: nat, job: Job :: w < |s.waiters| && job.id == jobId ==>
                (waits <==> Waited(s, w, job).waiters[w] == Asleep(job))
      ensures !waits ==> forall job :: job in s.issued && job.id == jobId && Accounted(s, job) ==> job in s.done
      ensures newId == if 0 <= jobId < MAX_ONGOING_JOBS && !waits then MAX_ONGOING_JOBS else jobId
    {
      if MAX_ONGOING_JOBS <= jobId || 0 > jobId {
        NoSuchSlot(s, jobId);
        return false, jobId;
      }
      SlotTells(s, jobId);
      if mDeffOngoingJobs[jobId] {
        return true, jobId;
      }
      return false, MAX_ONGOING_JOBS;
    }
  }

  lemma NoSuchSlot(s: State, id: int)
    requires Slots(s) && !(0 <= id < MAX_ONGOING_JOBS)
    ensures forall job :: job in Outstanding(s) ==> job.id != id
    ensures forall job :: job in s.issued && job.id == id && Accounted(s, job) ==> job in s.done
  {
    if id >= 0 {
      assert Holders(s, id) == 0;
      CountIn(s.abandoned, IdOf, id);
      CountIn(Current(s), IdOf, id);
      CountIn(s.queue, IdOf, id);
      forall job: Job | job.id == id ensures IdOf(job) == id {
      }
    }
  }
}
