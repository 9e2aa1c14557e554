/** What a start asks for is what it gets: its container and its deadline, for good. */
module TimerStarts {
  import opened Wrappers
  import opened HeapTree
  import opened TimerTypes
  import opened TimerService
  import opened TimerInvariant
  import opened TimerFrames
  import opened TimerTheorems

  /** `t` is what start(ms, con) of client `k` asks for at this moment. */
  ghost predicate AsksFor(s: State, k: ClientId, ms: nat, con: bool, t: Timer) {
    t.owner == k && t.con == con && Nanos(t.future) == Nanos(s.clock) + ms * MILLION
  }

  /** A start of a client that has no timer makes one new timer, as asked for, and sends it to be pushed;
      a start of one that has changes nothing. */
  lemma StartMakesOne(s: State, k: ClientId, ms: nat, con: bool)
    requires Lives(s) && Enabled(s, StartStep(k, ms, con))
    ensures var s' := Apply(s, StartStep(k, ms, con));
            if s.clients[k].timer.Some? then s' == s
            else exists t: Timer ::
                   && AsksFor(s, k, ms, con, t) && t !in s.issued && s'.issued == s.issued + {t}
                   && s'.live == s.live + {t} && t !in s.live
                   && s'.queue == s.queue + [MsgPush(t)]
                   && s'.clients == s.clients[k := s.clients[k].(timer := Some(t))]
  {
    assert LockOk(s, k);
    if s.clients[k].timer.None? {
      DeadlineIsExact(s.clock, ms);
      IssueIsNew(s, k, ms, con);
      assert AsksFor(s, k, ms, con, Issue(s, k, ms, con));
    }
  }

  /** The step after state `i` is a start of client t.owner, which asks for `t`, and makes it. */
  ghost predicate StartedAt(run: seq<State>, i: nat, ms: nat, t: Timer) {
    && i < |run| - 1
    && Enabled(run[i], StartStep(t.owner, ms, t.con))
    && run[i + 1] == Apply(run[i], StartStep(t.owner, ms, t.con))
    && run[i].clients[t.owner].timer.None?
    && AsksFor(run[i], t.owner, ms, t.con, t)
    && t !in run[i].issued && t in run[i + 1].issued
  }

  /** Only a start issues a timer. */
  lemma OnlyStartsIssue(s: State, a: Step)
    requires Inv(s) && Enabled(s, a) && !a.StartStep?
    ensures Apply(s, a).issued == s.issued
  {
    match a
    case StopStep(k) => StopQueue(s, k);
    case RetireStep(k) => StopQueue(s, k);
    case CallStep => CallQueue(s);
    case DeliverStep => DeliverQueue(s);
    case PollStep_ => PollFrame(s);
    case ProgramStep_ => ProgramFrame(s);
    case DeleteStep => DeleteFrame(s);
    case DrainStep => DrainFrame(s);
    case ReadStep => ReadFrame(s);
    case DestroyStep(k) => DestroyFrame(s, k);
    case TickStep(_) =>
    case NewClientStep =>
    case WakeStep(_) =>
  }

  lemma NewlyIssued(run: seq<State>, i: nat, t: Timer)
    requires IsRun(run) && i < |run| - 1 && t in run[i + 1].issued && t !in run[i].issued
    ensures exists ms: nat :: StartedAt(run, i, ms, t)
  {
    RunInv(run, i);
    assert NextAt(run, i);
    var a :| Enabled(run[i], a) && run[i + 1] == Apply(run[i], a);
    if !a.StartStep? {
      OnlyStartsIssue(run[i], a);
    }
    StartMakesOne(run[i], a.k, a.ms, a.con);
    assert StartedAt(run, i, a.ms, t);
  }

  /** In every run: each timer there is stems from one start, has the container and the deadline that
      start asked for, and is held by the heap of that container and no other. */
  lemma {:induction false} EachTimerAsAskedFor(run: seq<State>, j: nat, t: Timer)
    requires IsRun(run) && j < |run| && t in run[j].issued
    ensures exists i: nat, ms: nat :: i < j && StartedAt(run, i, ms, t)
    ensures Occurs(Con(run[j], !t.con).heap, t) == 0
  {
    RunInv(run, j);
    assert Placed(run[j], t);
    if t in run[j - 1].issued {
      EachTimerAsAskedFor(run, j - 1, t);
    } else {
      NewlyIssued(run, j - 1, t);
    }
  }
}
