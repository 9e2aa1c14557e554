/** Two more ways to an early callback: an fd left armed by a timer that was stopped and removed, and
    a client that stops the popped timer and starts another before its callback. */
module TimerEarlyRuns {
  import opened Wrappers
  import opened HeapTree
  import opened TimerTypes
  import opened TimerService
  import opened TimerLiveness
  import opened TimerStaleExpiry

  /** The timer is stopped ... */
  lemma StopIt(s: State)
    requires s.queue == [] && s.log == [] && s.live == {T0} && s.stopped == {}
    requires s.clients == map[0 := Client(Some(T0), false)] && s.locks == map[0 := 2]
    ensures After(s, [StopStep(0)])
            == Some(s.(clients := map[0 := Client(None, false)], stopped := {T0}, queue := [MsgRemove(T0)],
                       log := [Stopped(T0)]))
  {
    assert Stop(s, 0) == s.(clients := map[0 := Client(None, false)], stopped := {T0},
                            queue := [MsgRemove(T0)], log := [Stopped(T0)]);
  }

  /** ... removed and deleted; nothing is left, but the fd stays armed. */
  lemma LeaveArmed(s: State)
    requires s.sw.heap == Single(T0) && s.queue == [MsgRemove(T0)] && s.task == Idle
    requires s.live == {T0} && s.stopped == {T0} && s.locks == map[0 := 2]
    ensures After(s, [DeliverStep, DeleteStep])
            == Some(s.(sw := s.sw.(heap := Leaf), queue := [], live := {}, stopped := {}, locks := map[0 := 1]))
  {
    var s2 := s.(queue := []);
    TakeRemove(s2);
    assert Deliver(s) == DeliverRemove(s2, T0);
    var s3 := s2.(sw := s2.sw.(heap := Leaf), task := Deleting(T0));
    assert Delete(s3) == s3.(task := Idle, live := {}, stopped := {}, locks := map[0 := 1]);
    assert After(s3, [DeleteStep]) == Some(Delete(s3));
  }

  /** The armed moment comes; before the poll thread acts, the client starts for a hundred seconds. */
  lemma StartAgain(s: State)
    requires s.clock == Time(2, 0) && s.sw == Container(Leaf, true, Some(Time(2, 0)))
    requires s.queue == [] && s.events == [] && s.live == {} && s.nextId == 1
    requires s.clients == map[0 := Client(None, false)] && s.locks == map[0 := 1]
    ensures After(s, [WakeStep([false]), StartStep(0, 100000, false)])
            == Some(s.(events := [false], stage := 0, clients := map[0 := Client(Some(T1), false)],
                       locks := map[0 := 2], live := {T1}, issued := s.issued + {T1}, nextId := 2,
                       queue := [MsgPush(T1)]))
  {
    var s1 := s.(events := [false], stage := 0);
    assert Issue(s1, 0, 100000, false) == T1;
    var s2 := s1.(clients := map[0 := Client(Some(T1), false)], locks := map[0 := 2], live := {T1},
                  issued := s.issued + {T1}, nextId := 2, queue := [MsgPush(T1)]);
    assert Start(s1, 0, 100000, false) == s2;
    assert After(s1, [StartStep(0, 100000, false)]) == Some(s2);
  }

  /** An fd armed for an empty heap is not harmless: from a state at rest in which no timer is left
      anywhere, the next start may be called back a hundred seconds early. */
  lemma EmptyButArmed(s: State) returns (steps: seq<Step>, more: seq<Step>)
    requires Init(s) && s.clock == Time(1, 0) && s.nextId == 0 && s.nextClient == 0
    ensures var rest := After(s, steps);
            && rest.Some? && Quiet(rest.value) && rest.value.live == {}
            && rest.value.sw == Container(Leaf, true, Some(Time(2, 0)))
            && var after := After(rest.value, more);
               && after.Some? && |after.value.log| == 2
               && var o := after.value.log[1];
                  o.Fired? && o.popped == o.t && o.first && Nanos(o.t.future) == Nanos(o.at) + 100 * BILLION
  {
    var a := [NewClientStep, StartStep(0, 1000, false)];
    var b := [DeliverStep, ProgramStep_, TickStep(Time(2, 0))];
    var c := [StopStep(0)];
    var d := [DeliverStep, DeleteStep];
    StartFirst(s);
    ArmFirst(After(s, a).value);
    AfterBoth(s, a, b);
    StopIt(After(s, a + b).value);
    AfterBoth(s, a + b, c);
    LeaveArmed(After(s, a + b + c).value);
    AfterBoth(s, a + b + c, d);
    steps := a + b + c + d;
    more := FireEarly(After(s, steps).value);
  }

  lemma FireEarly(s: State) returns (steps: seq<Step>)
    requires s.clock == Time(2, 0) && s.sw == Container(Leaf, true, Some(Time(2, 0))) && s.task == Idle
    requires s.queue == [] && s.events == [] && s.live == {} && s.stopped == {} && s.nextId == 1
    requires s.clients == map[0 := Client(None, false)] && s.locks == map[0 := 1]
    ensures After(s, steps).Some? && After(s, steps).value.log == s.log + [Fired(T1, T1, Time(2, 0), true)]
  {
    var a := [WakeStep([false]), StartStep(0, 100000, false)];
    var b := [DeliverStep, ProgramStep_];
    var c := [PollStep_, PollStep_, PollStep_];
    var d := [DeliverStep, DrainStep] + [ReadStep, CallStep];
    StartAgain(s);
    var s1 := After(s, a).value;
    CatchUpPush(s1);
    var s2 := After(s1, b).value;
    SendStale(s2);
    var s3 := After(s2, c).value;
    DrainTrip(s3, false, T1);
    AfterBoth(s, a, b);
    AfterBoth(s, a + b, c);
    AfterBoth(s, a + b + c, d);
    steps := a + b + c + d;
  }

  // ------------------------------------------------------- another start's callback

  const A: Timer := TimerData(0, 0, false, Time(2, 0))
  const B: Timer := TimerData(1, 1, false, Time(2, 0))
  const C: Timer := TimerData(2, 1, false, Time(102, 0))

  const BOTH: Tree<Timer> := Node(2, A, Single(B), Leaf)

  lemma TwoClients(s: State)
    requires Init(s) && s.clock == Time(1, 0) && s.nextId == 0 && s.nextClient == 0
    ensures After(s, [NewClientStep, NewClientStep])
            == Some(s.(clients := map[0 := Client(None, false), 1 := Client(None, false)],
                       locks := map[0 := 1, 1 := 1], nextClient := 2))
  {
    var s1 := s.(clients := map[0 := Client(None, false)], locks := map[0 := 1], nextClient := 1);
    assert NewClient(s) == s1;
    var s2 := s1.(clients := map[0 := Client(None, false), 1 := Client(None, false)],
                  locks := map[0 := 1, 1 := 1], nextClient := 2);
    assert NewClient(s1) == s2;
    assert After(s1, [NewClientStep]) == Some(s2);
  }

  lemma FirstStart(s: State)
    requires s.clock == Time(1, 0) && s.nextId == 0 && s.queue == [] && s.live == {} && s.issued == {}
    requires s.clients == map[0 := Client(None, false), 1 := Client(None, false)] && s.locks == map[0 := 1, 1 := 1]
    ensures After(s, [StartStep(0, 1000, false)])
            == Some(s.(clients := map[0 := Client(Some(A), false), 1 := Client(None, false)],
                       locks := map[0 := 2, 1 := 1], live := {A}, issued := {A}, nextId := 1,
                       queue := [MsgPush(A)]))
  {
    assert Issue(s, 0, 1000, false) == A;
    var s1 := s.(clients := map[0 := Client(Some(A), false), 1 := Client(None, false)], locks := map[0 := 2, 1 := 1],
                 live := {A}, issued := {A}, nextId := 1, queue := [MsgPush(A)]);
    assert Start(s, 0, 1000, false) == s1;
  }

  lemma SecondStart(s: State)
    requires s.clock == Time(1, 0) && s.nextId == 1 && s.queue == [MsgPush(A)] && s.live == {A} && s.issued == {A}
    requires s.clients == map[0 := Client(Some(A), false), 1 := Client(None, false)] && s.locks == map[0 := 2, 1 := 1]
    ensures After(s, [StartStep(1, 1000, false)])
            == Some(s.(clients := map[0 := Client(Some(A), false), 1 := Client(Some(B), false)],
                       locks := map[0 := 2, 1 := 2], live := {A, B}, issued := {A, B}, nextId := 2,
                       queue := [MsgPush(A), MsgPush(B)]))
  {
    assert Issue(s, 1, 1000, false) == B;
    var s2 := s.(clients := map[0 := Client(Some(A), false), 1 := Client(Some(B), false)], locks := map[0 := 2, 1 := 2],
                 live := {A, B}, issued := {A, B}, nextId := 2, queue := [MsgPush(A), MsgPush(B)]);
    assert Start(s, 1, 1000, false) == s2;
  }

  lemma PushFirstOne(s: State)
    requires s.sw == Container(Leaf, false, None) && s.task == Idle && s.queue == [MsgPush(A), MsgPush(B)]
    requires s.live == {A, B}
    ensures After(s, [DeliverStep, ProgramStep_])
            == Some(s.(sw := Container(Single(A), true, Some(Time(2, 0))), queue := [MsgPush(B)]))
  {
    var s1 := s.(queue := [MsgPush(B)]);
    assert HeapAlive(s1, false);
    var s2 := s1.(sw := Container(Single(A), true, None), task := Programming(false, ArmAt(Time(2, 0)), None));
    assert DeliverPush(s1, A) == s2;
    assert Deliver(s) == s2;
    assert ProgramStep(s2) == s2.(task := Idle, sw := Container(Single(A), true, Some(Time(2, 0))));
    assert After(s2, [ProgramStep_]) == Some(ProgramStep(s2));
  }

  lemma PushSecondOne(s: State)
    requires s.sw == Container(Single(A), true, Some(Time(2, 0))) && s.task == Idle && s.queue == [MsgPush(B)]
    requires s.live == {A, B} && Nanos(s.clock) <= Nanos(Time(2, 0))
    ensures After(s, [DeliverStep, TickStep(Time(2, 0))])
            == Some(s.(sw := Container(BOTH, true, Some(Time(2, 0))), queue := [], clock := Time(2, 0)))
  {
    var s1 := s.(queue := []);
    assert HeapAlive(s1, false);
    assert Push(Single(A), B, OutRanks) == BOTH;
    var s2 := s1.(sw := Container(BOTH, true, Some(Time(2, 0))));
    assert DeliverPush(s1, B) == s2;
    assert Deliver(s) == s2;
    assert After(s2, [TickStep(Time(2, 0))]) == Some(s2.(clock := Time(2, 0)));
  }

  /** The first is popped and called back ... */
  lemma ReadFirst(s: State)
    requires s.task == Popped(false, Time(2, 0), true, A) && A in s.live && A !in s.stopped
    ensures After(s, [ReadStep]) == Some(s.(task := Calling(false, Time(2, 0), true, A, Some(0))))
  {
    assert ReadClient(s) == s.(task := Calling(false, Time(2, 0), true, A, Some(0)));
  }

  lemma CallFirst(s: State)
    requires s.task == Calling(false, Time(2, 0), true, A, Some(0)) && s.queue == []
    requires s.clients == map[0 := Client(Some(A), false), 1 := Client(Some(B), false)]
    requires 0 in s.locks && A in s.live && s.stopped == {} && s.log == []
    ensures After(s, [CallStep])
            == Some(s.(task := Draining(false, Time(2, 0), false), stopped := {A}, queue := [MsgRemove(A)],
                       clients := map[0 := Client(None, false), 1 := Client(Some(B), false)],
                       log := [Fired(A, A, Time(2, 0), true)]))
  {
    var s2 := s.(task := Draining(false, Time(2, 0), false), stopped := {A}, queue := [MsgRemove(A)],
                 clients := map[0 := Client(None, false), 1 := Client(Some(B), false)],
                 log := [Fired(A, A, Time(2, 0), true)]);
    assert Call(s) == s2;
  }

  /** ... the second is popped as well, and mClient read ... */
  lemma PopSecond(s: State)
    requires s.sw.heap == Single(B) && s.task == Draining(false, Time(2, 0), false)
    requires B in s.live && B !in s.stopped
    ensures After(s, [DrainStep, ReadStep])
            == Some(s.(sw := s.sw.(heap := Leaf), task := Calling(false, Time(2, 0), false, B, Some(1))))
  {
    DrainSecond(s);
    var s1 := s.(sw := s.sw.(heap := Leaf), task := Popped(false, Time(2, 0), false, B));
    ReadSecond(s1);
    AfterBoth(s, [DrainStep], [ReadStep]);
    assert [DrainStep] + [ReadStep] == [DrainStep, ReadStep];
  }

  lemma DrainSecond(s: State)
    requires s.sw.heap == Single(B) && s.task == Draining(false, Time(2, 0), false) && B in s.live
    ensures After(s, [DrainStep])
            == Some(s.(sw := s.sw.(heap := Leaf), task := Popped(false, Time(2, 0), false, B)))
  {
    assert HeapAlive(s, false);
    assert Pop(Single(B), OutRanks) == Leaf;
    assert Drain(s) == s.(sw := s.sw.(heap := Leaf), task := Popped(false, Time(2, 0), false, B));
  }

  lemma ReadSecond(s: State)
    requires s.task == Popped(false, Time(2, 0), false, B) && B in s.live && B !in s.stopped
    ensures After(s, [ReadStep]) == Some(s.(task := Calling(false, Time(2, 0), false, B, Some(1))))
  {
    assert ReadClient(s) == s.(task := Calling(false, Time(2, 0), false, B, Some(1)));
  }

  /** ... its client stops it ... */
  lemma StopSecond(s: State)
    requires s.live == {A, B} && s.stopped == {A} && s.queue == [MsgRemove(A)]
    requires s.clients == map[0 := Client(None, false), 1 := Client(Some(B), false)] && 1 in s.locks
    ensures After(s, [StopStep(1)])
            == Some(s.(clients := map[0 := Client(None, false), 1 := Client(None, false)], stopped := {A, B},
                       queue := [MsgRemove(A), MsgRemove(B)], log := s.log + [Stopped(B)]))
  {
    var s1 := s.(clients := map[0 := Client(None, false), 1 := Client(None, false)], stopped := {A, B},
                 queue := [MsgRemove(A), MsgRemove(B)], log := s.log + [Stopped(B)]);
    assert Stop(s, 1) == s1;
  }

  /** ... and starts another ... */
  lemma StartThird(s: State)
    requires s.clock == Time(2, 0) && s.nextId == 2 && s.live == {A, B} && s.issued == {A, B}
    requires s.clients == map[0 := Client(None, false), 1 := Client(None, false)] && s.locks == map[0 := 2, 1 := 2]
    ensures After(s, [StartStep(1, 100000, false)])
            == Some(s.(clients := map[0 := Client(None, false), 1 := Client(Some(C), false)],
                       locks := map[0 := 2, 1 := 3], live := {A, B, C}, issued := {A, B, C}, nextId := 3,
                       queue := s.queue + [MsgPush(C)]))
  {
    assert Issue(s, 1, 100000, false) == C;
    var s2 := s.(clients := map[0 := Client(None, false), 1 := Client(Some(C), false)], locks := map[0 := 2, 1 := 3],
                 live := {A, B, C}, issued := {A, B, C}, nextId := 3, queue := s.queue + [MsgPush(C)]);
    assert Start(s, 1, 100000, false) == s2;
  }

  /** ... and that one is called back. */
  lemma CallAnother(s: State)
    requires s.task == Calling(false, Time(2, 0), false, B, Some(1))
    requires 1 in s.clients && s.clients[1] == Client(Some(C), false) && 1 in s.locks && C in s.live && C !in s.stopped
    ensures After(s, [CallStep]).Some?
    ensures After(s, [CallStep]).value.log == s.log + [Fired(C, B, Time(2, 0), false)]
  {
    assert After(s, [CallStep]) == Some(Call(s));
  }

  lemma BothDue(s: State) returns (steps: seq<Step>)
    requires Init(s) && s.clock == Time(1, 0) && s.nextId == 0 && s.nextClient == 0
    ensures After(s, steps)
            == Some(s.(clients := map[0 := Client(Some(A), false), 1 := Client(Some(B), false)], nextClient := 2,
                       locks := map[0 := 2, 1 := 2], live := {A, B}, issued := {A, B}, nextId := 2,
                       sw := Container(BOTH, true, Some(Time(2, 0))), clock := Time(2, 0)))
  {
    var a := [NewClientStep, NewClientStep];
    var b, b' := [StartStep(0, 1000, false)], [StartStep(1, 1000, false)];
    var c := [DeliverStep, ProgramStep_];
    var d := [DeliverStep, TickStep(Time(2, 0))];
    TwoClients(s);
    FirstStart(After(s, a).value);
    AfterBoth(s, a, b);
    SecondStart(After(s, a + b).value);
    AfterBoth(s, a + b, b');
    PushFirstOne(After(s, a + b + b').value);
    AfterBoth(s, a + b + b', c);
    PushSecondOne(After(s, a + b + b' + c).value);
    AfterBoth(s, a + b + b' + c, d);
    steps := a + b + b' + c + d;
  }

  lemma WakeAndPop(s: State) returns (steps: seq<Step>)
    requires Quiet(s) && s.sw == Container(BOTH, true, Some(Time(2, 0))) && s.clock == Time(2, 0)
    requires s.live == {A, B} && s.stage == 0
    ensures After(s, steps)
            == Some(s.(sw := Container(Single(B), false, None), task := Popped(false, Time(2, 0), true, A)))
  {
    var wake := [WakeStep([false]), PollStep_, PollStep_, PollStep_];
    WakeTrip(s, false);
    var s1 := After(s, wake).value;
    assert HeapAlive(s1, false);
    PopTrip(s1, false, A);
    assert Pop(BOTH, OutRanks) == Single(B);
    AfterBoth(s, wake, [DeliverStep, DrainStep]);
    steps := wake + [DeliverStep, DrainStep];
  }

  /** A callback on a later pop, of a timer that was due, for a start with a hundred seconds to go. */
  lemma CallbackForAnotherStart(s: State) returns (steps: seq<Step>)
    requires Init(s) && s.clock == Time(1, 0) && s.nextId == 0 && s.nextClient == 0
    ensures var after := After(s, steps);
            && after.Some? && |after.value.log| == 3
            && var o := after.value.log[2];
               && o.Fired? && o.t != o.popped && !o.first && after.value.log[1] == Stopped(o.popped)
               && Nanos(o.popped.future) <= Nanos(o.at) && Nanos(o.t.future) == Nanos(o.at) + 100 * BILLION
  {
    var a := BothDue(s);
    var b := WakeAndPop(After(s, a).value);
    AfterBoth(s, a, b);
    var c := CallBoth(After(s, a + b).value);
    AfterBoth(s, a + b, c);
    steps := a + b + c;
  }

  lemma CallBoth(s: State) returns (steps: seq<Step>)
    requires s.clock == Time(2, 0) && s.nextId == 2 && s.queue == [] && s.log == [] && s.issued == {A, B}
    requires s.sw.heap == Single(B) && s.task == Popped(false, Time(2, 0), true, A)
    requires s.clients == map[0 := Client(Some(A), false), 1 := Client(Some(B), false)]
    requires s.locks == map[0 := 2, 1 := 2] && s.live == {A, B} && s.stopped == {}
    ensures After(s, steps).Some?
    ensures After(s, steps).value.log == [Fired(A, A, Time(2, 0), true), Stopped(B), Fired(C, B, Time(2, 0), false)]
  {
    var a, b, c := [ReadStep], [CallStep], [DrainStep, ReadStep];
    ReadFirst(s);
    CallFirst(After(s, a).value);
    AfterBoth(s, a, b);
    PopSecond(After(s, a + b).value);
    AfterBoth(s, a + b, c);
    var rest := StopStartCall(After(s, a + b + c).value);
    AfterBoth(s, a + b + c, rest);
    steps := a + b + c + rest;
  }

  lemma StopStartCall(s: State) returns (steps: seq<Step>)
    requires s.clock == Time(2, 0) && s.nextId == 2 && s.live == {A, B} && s.stopped == {A} && s.issued == {A, B}
    requires s.clients == map[0 := Client(None, false), 1 := Client(Some(B), false)] && s.locks == map[0 := 2, 1 := 2]
    requires s.queue == [MsgRemove(A)] && s.task == Calling(false, Time(2, 0), false, B, Some(1))
    ensures After(s, steps).Some?
    ensures After(s, steps).value.log == s.log + [Stopped(B), Fired(C, B, Time(2, 0), false)]
  {
    var a, b, c := [StopStep(1)], [StartStep(1, 100000, false)], [CallStep];
    StopSecond(s);
    StartThird(After(s, a).value);
    AfterBoth(s, a, b);
    CallAnother(After(s, a + b).value);
    AfterBoth(s, a + b, c);
    steps := a + b + c;
  }
}
