/** The drain of module LocTimerContainer, which is the handler of an expiry message run in one go, and
    the steps that the timer service cuts it into are the same. */
module TimerDrain {
  import opened Wrappers
  import opened HeapTree
  import opened TimerTypes
  import opened TimerService
  import opened TimerInvariant
  import opened TimerFrames
  import opened TimerTheorems
  import opened TimerTrace
  import opened TimerLiveness
  import opened LocTimerContainer

  /** The delegates that these steps call expire() on: each reads its mClient first. */
  ghost function ExpiredBy(s: State, steps: seq<Step>): seq<Timer>
    decreases |steps|
  {
    if steps == [] || !Enabled(s, steps[0]) then []
    else (if steps[0].ReadStep? then [s.task.t] else []) + ExpiredBy(Apply(s, steps[0]), steps[1..])
  }

  lemma OneStep(s: State, a: Step, rest: seq<Step>)
    requires Enabled(s, a)
    ensures After(s, [a] + rest) == After(Apply(s, a), rest)
    ensures ExpiredBy(s, [a] + rest) == (if a.ReadStep? then [s.task.t] else []) + ExpiredBy(Apply(s, a), rest)
  {
    assert ([a] + rest)[1..] == rest;
  }

  lemma {:induction false} ExpiredByBoth(s: State, a: seq<Step>, b: seq<Step>)
    requires After(s, a).Some?
    ensures ExpiredBy(s, a + b) == ExpiredBy(s, a) + ExpiredBy(After(s, a).value, b)
    decreases |a|
  {
    if a == [] {
      assert a + b == b;
    } else {
      assert a == [a[0]] + a[1..] && a + b == [a[0]] + (a[1..] + b);
      OneStep(s, a[0], a[1..]);
      OneStep(s, a[0], a[1..] + b);
      var t := Apply(s, a[0]);
      ExpiredByBoth(t, a[1..], b);
      var head := if a[0].ReadStep? then [s.task.t] else [];
      var tail := ExpiredBy(After(t, a[1..]).value, b);
      assert head + (ExpiredBy(t, a[1..]) + tail) == (head + ExpiredBy(t, a[1..])) + tail;
    }
  }

  /** One timer is popped and expired. */
  lemma PopOne(s: State) returns (t: State)
    requires Inv(s) && s.task.Draining? && Con(s, s.task.con).heap.Node?
    requires s.task.first || Due(Con(s, s.task.con).heap, s.task.now)
    ensures After(s, [DrainStep, ReadStep, CallStep]) == Some(t) && Inv(t)
    ensures ExpiredBy(s, [DrainStep, ReadStep, CallStep]) == [Con(s, s.task.con).heap.data]
    ensures t.task == Draining(s.task.con, s.task.now, false)
    ensures Con(t, s.task.con) == Con(s, s.task.con).(heap := Pop(Con(s, s.task.con).heap, OutRanks))
    ensures Con(t, !s.task.con) == Con(s, !s.task.con)
  {
    var s1 := Drain(s);
    var s2 := ReadClient(s1);
    t := Call(s2);
    StepKeepsInv(s, DrainStep);
    StepKeepsInv(s1, ReadStep);
    StepKeepsInv(s2, CallStep);
    CallQueue(s2);
    CallLog(s2);
    PlayThree(s, s1, s2, t);
  }

  lemma PlayThree(s: State, s1: State, s2: State, t: State)
    requires s.task.Draining? && s1 == Drain(s) && s1.task.Popped?
    requires s2 == ReadClient(s1) && s2.task.Calling? && t == Call(s2)
    ensures After(s, [DrainStep, ReadStep, CallStep]) == Some(t)
    ensures ExpiredBy(s, [DrainStep, ReadStep, CallStep]) == [s1.task.t]
  {
    PlayCall(s2);
    PlayRead(s1);
    assert [DrainStep, ReadStep, CallStep] == [DrainStep] + [ReadStep, CallStep];
    OneStep(s, DrainStep, [ReadStep, CallStep]);
  }

  lemma PlayCall(s: State)
    requires s.task.Calling?
    ensures After(s, [CallStep]) == Some(Call(s)) && ExpiredBy(s, [CallStep]) == []
  {
    assert [CallStep] == [CallStep] + [];
    OneStep(s, CallStep, []);
  }

  lemma PlayRead(s: State)
    requires s.task.Popped?
    ensures ReadClient(s).task.Calling?
    ensures After(s, [ReadStep, CallStep]) == Some(Call(ReadClient(s)))
    ensures ExpiredBy(s, [ReadStep, CallStep]) == [s.task.t]
  {
    assert [ReadStep, CallStep] == [ReadStep] + [CallStep];
    OneStep(s, ReadStep, [CallStep]);
    PlayCall(ReadClient(s));
  }

  /** The loop is over: the update, and its timerfd half if there is one. */
  lemma DrainEnds(s: State) returns (steps: seq<Step>, t: State)
    requires s.task.Draining?
    requires Con(s, s.task.con).heap.Node? ==> !s.task.first && !Due(Con(s, s.task.con).heap, s.task.now)
    ensures After(s, steps) == Some(t) && ExpiredBy(s, steps) == [] && t.task == Idle
    ensures forall a :: a in steps ==> Handler(a)
    ensures Con(t, s.task.con) == Refreshed(Con(s, s.task.con), None)
    ensures Con(t, !s.task.con) == Con(s, !s.task.con)
  {
    var c := s.task.con;
    var u := Soonest(None, Top(Con(s, c).heap));
    UpdatedFrame(s, c, u, None);
    steps := if u == Keep then [DrainStep] else [DrainStep, ProgramStep_];
    if u == Keep {
      t := Drain(s);
      assert [DrainStep] == [DrainStep] + [];
      OneStep(s, DrainStep, []);
    } else {
      t := DrainEndsWithUpdate(s, u);
    }
  }

  lemma DrainEndsWithUpdate(s: State, u: Update) returns (t: State)
    requires s.task.Draining? && u == Soonest(None, Top(Con(s, s.task.con).heap)) && u != Keep
    requires Con(s, s.task.con).heap.Node? ==> !s.task.first && !Due(Con(s, s.task.con).heap, s.task.now)
    ensures After(s, [DrainStep, ProgramStep_]) == Some(t) && ExpiredBy(s, [DrainStep, ProgramStep_]) == []
    ensures t.task == Idle
    ensures Con(t, s.task.con) == Program(Watch(Con(s, s.task.con), u), u)
    ensures Con(t, !s.task.con) == Con(s, !s.task.con)
  {
    var c, s1 := s.task.con, Drain(s);
    UpdatedFrame(s, c, u, None);
    assert s1.task == Programming(c, u, None) && Con(s1, c) == Watch(Con(s, c), u) && Con(s1, !c) == Con(s, !c);
    t := ProgramStep(s1);
    assert [DrainStep, ProgramStep_] == [DrainStep] + [ProgramStep_] && [ProgramStep_] == [ProgramStep_] + [];
    OneStep(s, DrainStep, [ProgramStep_]);
    OneStep(s1, ProgramStep_, []);
  }

  predicate Handler(a: Step) {
    a.DrainStep? || a.ReadStep? || a.CallStep? || a.ProgramStep_?
  }

  lemma {:induction false} StepsAreDrain(s: State) returns (steps: seq<Step>, t: State)
    requires Inv(s) && s.task.Draining?
    ensures After(s, steps) == Some(t) && t.task == Idle
    ensures forall a :: a in steps ==> Handler(a)
    ensures Sized(Con(s, s.task.con).heap)
    ensures var Draining(c, now, first) := s.task;
            var (popped, left) := Drained(Con(s, c).heap, first, now);
            && ExpiredBy(s, steps) == popped
            && Con(t, c) == Refreshed(Con(s, c).(heap := left), None)
            && Con(t, !c) == Con(s, !c)
    decreases Count(Con(s, s.task.con).heap)
  {
    var Draining(c, now, first) := s.task;
    var heap := Con(s, c).heap;
    if heap.Node? && (first || Due(heap, now)) {
      PopCounts(heap, OutRanks);
      var s1 := PopOne(s);
      var rest;
      rest, t := StepsAreDrain(s1);
      var one := [DrainStep, ReadStep, CallStep];
      AfterBoth(s, one, rest);
      ExpiredByBoth(s, one, rest);
      steps := one + rest;
    } else {
      steps, t := DrainEnds(s);
    }
  }

  /** The message thread, taking an expiry message with nobody coming between, does what the handler
      does: it expires the same timers in the same order and leaves the same container. */
  lemma StepsAreExpire(s: State, c: bool) returns (steps: seq<Step>, t: State)
    requires Inv(s) && s.task == Idle && s.queue != [] && s.queue[0] == MsgExpire(c)
    ensures After(s, [DeliverStep] + steps) == Some(t) && t.task == Idle
    ensures forall a :: a in steps ==> Handler(a)
    ensures Sized(Con(s, c).heap)
    ensures (Con(t, c), ExpiredBy(s, [DeliverStep] + steps)) == Expired(Con(s, c), s.clock)
    ensures Con(t, !c) == Con(s, !c)
  {
    StepKeepsInv(s, DeliverStep);
    var s1 := Deliver(s);
    assert s1 == s.(queue := s.queue[1..], task := Draining(c, s.clock, true));
    assert Con(s1, c) == Con(s, c) && Con(s1, !c) == Con(s, !c);
    steps, t := StepsAreDrain(s1);
    OneStep(s, DeliverStep, steps);
    assert [] + ExpiredBy(s1, steps) == ExpiredBy(s1, steps);
  }
}
