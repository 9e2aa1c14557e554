/** A timer can be called back long before its deadline: an expiry that was meant for a timer since
    stopped pops whatever is on top when it arrives (gps/utils/LocTimer.cpp:367). */
module TimerStaleExpiry {
  import opened Wrappers
  import opened HeapTree
  import opened TimerTypes
  import opened TimerService
  import opened TimerLiveness

  const T0: Timer := TimerData(0, 0, false, Time(2, 0))
  const T1: Timer := TimerData(1, 0, false, Time(102, 0))

  /** A timer of one second is started ... */
  lemma StartFirst(s: State)
    requires Init(s) && s.clock == Time(1, 0) && s.nextId == 0 && s.nextClient == 0
    ensures After(s, [NewClientStep, StartStep(0, 1000, false)])
            == Some(s.(clients := map[0 := Client(Some(T0), false)], locks := map[0 := 2],
                       live := {T0}, issued := {T0}, nextId := 1, nextClient := 1, queue := [MsgPush(T0)]))
  {
    var s1 := s.(clients := map[0 := Client(None, false)], locks := map[0 := 1], nextClient := 1);
    assert NewClient(s) == s1;
    assert Issue(s1, 0, 1000, false) == T0;
    var s2 := s1.(clients := map[0 := Client(Some(T0), false)], locks := map[0 := 2],
                  live := {T0}, issued := {T0}, nextId := 1, queue := [MsgPush(T0)]);
    assert Start(s1, 0, 1000, false) == s2;
    assert After(s1, [StartStep(0, 1000, false)]) == Some(s2);
  }

  /** ... armed, and comes due. */
  lemma ArmFirst(s: State)
    requires s.queue == [MsgPush(T0)] && s.task == Idle && T0 in s.live && s.sw == Container(Leaf, false, None)
    requires Nanos(s.clock) <= Nanos(Time(2, 0))
    ensures After(s, [DeliverStep, ProgramStep_, TickStep(Time(2, 0))])
            == Some(s.(clock := Time(2, 0), sw := Container(Single(T0), true, Some(Time(2, 0))), queue := []))
  {
    var s3 := s.(queue := [], sw := Container(Single(T0), true, None),
                 task := Programming(false, ArmAt(Time(2, 0)), None));
    assert Deliver(s) == s3;
    var s4 := s3.(task := Idle, sw := Container(Single(T0), true, Some(Time(2, 0))));
    assert ProgramStep(s3) == s4;
    assert After(s4, [TickStep(Time(2, 0))]) == Some(s4.(clock := Time(2, 0)));
    assert After(s3, [ProgramStep_, TickStep(Time(2, 0))]) == Some(s4.(clock := Time(2, 0)));
  }

  /** The poll thread wakes for it; before it acts, the client stops ... */
  lemma StopFirst(s: State)
    requires s.clock == Time(2, 0) && s.sw == Container(Single(T0), true, Some(Time(2, 0)))
    requires s.queue == [] && s.task == Idle && s.events == [] && s.log == []
    requires s.clients == map[0 := Client(Some(T0), false)] && s.locks == map[0 := 2]
    requires s.live == {T0} && s.stopped == {} && s.nextId == 1
    ensures After(s, [WakeStep([false]), StopStep(0)])
            == Some(s.(events := [false], stage := 0, clients := map[0 := Client(None, false)],
                       stopped := {T0}, queue := [MsgRemove(T0)], log := [Stopped(T0)]))
  {
    var s1 := s.(events := [false], stage := 0);
    var s2 := s1.(clients := map[0 := Client(None, false)], stopped := {T0}, queue := [MsgRemove(T0)],
                  log := [Stopped(T0)]);
    assert Stop(s1, 0) == s2;
    assert After(s1, [StopStep(0)]) == Some(s2);
  }

  /** ... and starts anew, with a hundred seconds to go. */
  lemma Restart(s: State)
    requires s.clock == Time(2, 0) && s.queue == [MsgRemove(T0)] && s.live == {T0} && s.nextId == 1
    requires s.clients == map[0 := Client(None, false)] && s.locks == map[0 := 2]
    ensures After(s, [StartStep(0, 100000, false)])
            == Some(s.(clients := map[0 := Client(Some(T1), false)], locks := map[0 := 3], live := {T0, T1},
                       issued := s.issued + {T1}, nextId := 2, queue := [MsgRemove(T0), MsgPush(T1)]))
  {
    assert Issue(s, 0, 100000, false) == T1;
    var s3 := s.(clients := map[0 := Client(Some(T1), false)], locks := map[0 := 3], live := {T0, T1},
                 issued := s.issued + {T1}, nextId := 2, queue := [MsgRemove(T0), MsgPush(T1)]);
    assert Start(s, 0, 100000, false) == s3;
  }

  lemma TakeRemove(s: State)
    requires s.sw.heap == Single(T0) && s.task == Idle && T0 in s.live
    ensures DeliverRemove(s, T0) == s.(sw := s.sw.(heap := Leaf), task := Deleting(T0))
  {
    assert HeapAlive(s, false);
  }

  lemma TakePush(s: State)
    requires s.sw.heap == Leaf && s.sw.polled && s.task == Idle && T1 in s.live
    ensures DeliverPush(s, T1)
            == s.(sw := s.sw.(heap := Single(T1)), task := Programming(false, ArmAt(Time(102, 0)), None))
  {
    assert HeapAlive(s, false);
  }

  /** The message thread catches up: the stopped timer leaves the heap and is deleted ... */
  lemma CatchUpRemove(s: State)
    requires s.sw.heap == Single(T0) && s.task == Idle && s.queue == [MsgRemove(T0), MsgPush(T1)]
    requires s.live == {T0, T1} && s.stopped == {T0} && s.locks == map[0 := 3]
    ensures After(s, [DeliverStep, DeleteStep])
            == Some(s.(sw := s.sw.(heap := Leaf), queue := [MsgPush(T1)],
                       live := {T1}, stopped := {}, locks := map[0 := 2]))
  {
    var s0 := s.(queue := [MsgPush(T1)]);
    TakeRemove(s0);
    assert Deliver(s) == DeliverRemove(s0, T0);
    var s1 := s0.(sw := s.sw.(heap := Leaf), task := Deleting(T0));
    assert Delete(s1) == s1.(task := Idle, live := {T1}, stopped := {}, locks := map[0 := 2]);
    assert After(s1, [DeleteStep]) == Some(Delete(s1));
  }

  /** ... and the new one is pushed and armed. */
  lemma CatchUpPush(s: State)
    requires s.sw.heap == Leaf && s.sw.polled && s.task == Idle && s.queue == [MsgPush(T1)] && T1 in s.live
    ensures After(s, [DeliverStep, ProgramStep_])
            == Some(s.(sw := Container(Single(T1), true, Some(Time(102, 0))), queue := []))
  {
    var s0 := s.(queue := []);
    TakePush(s0);
    assert Deliver(s) == DeliverPush(s0, T1);
    var s1 := DeliverPush(s0, T1);
    assert ProgramStep(s1) == s0.(sw := Container(Single(T1), true, Some(Time(102, 0))));
    assert After(s1, [ProgramStep_]) == Some(ProgramStep(s1));
  }

  /** The poll thread goes on with its expiry. */
  lemma SendStale(s: State)
    requires s.events == [false] && s.stage == 0 && s.queue == []
    ensures After(s, [PollStep_, PollStep_, PollStep_])
            == Some(s.(sw := s.sw.(polled := false, armed := None), queue := [MsgExpire(false)],
                       events := [], stage := 0))
  {
    var s1 := s.(sw := s.sw.(armed := None), stage := 1);
    var s2 := s.(sw := s.sw.(armed := None, polled := false), stage := 2);
    var s3 := s2.(queue := [MsgExpire(false)], events := [], stage := 0);
    assert PollStep(s) == s1 && PollStep(s1) == s2 && PollStep(s2) == s3;
    assert After(s2, [PollStep_]) == Some(s3);
    assert After(s1, [PollStep_, PollStep_]) == Some(s3);
  }

  /** So a start can be called back a hundred seconds early. */
  lemma FirstPopCanBeEarly(s: State) returns (steps: seq<Step>)
    requires Init(s) && s.clock == Time(1, 0) && s.nextId == 0 && s.nextClient == 0
    ensures var after := After(s, steps);
            && after.Some? && |after.value.log| == 2
            && var o := after.value.log[1];
               o.Fired? && o.popped == o.t && o.first && Nanos(o.t.future) == Nanos(o.at) + 100 * BILLION
  {
    var z := [NewClientStep, StartStep(0, 1000, false)];
    var y := [DeliverStep, ProgramStep_, TickStep(Time(2, 0))];
    var a := z + y;
    var x := [WakeStep([false]), StopStep(0)];
    var w := [StartStep(0, 100000, false)];
    var b := x + w;
    var e := [DeliverStep, DeleteStep];
    var f := [DeliverStep, ProgramStep_];
    var c := [PollStep_, PollStep_, PollStep_];
    var d := [DeliverStep, DrainStep] + [ReadStep, CallStep];
    StartFirst(s);
    ArmFirst(After(s, z).value);
    AfterBoth(s, z, y);
    var s1 := After(s, a).value;
    StopFirst(s1);
    Restart(After(s1, x).value);
    AfterBoth(s1, x, w);
    var s2 := After(s1, b).value;
    CatchUpRemove(s2);
    var s3 := After(s2, e).value;
    CatchUpPush(s3);
    var s4 := After(s3, f).value;
    SendStale(s4);
    var s5 := After(s4, c).value;
    DrainTrip(s5, false, T1);
    AfterBoth(s, a, b);
    AfterBoth(s, a + b, e);
    AfterBoth(s, a + b + e, f);
    AfterBoth(s, a + b + e + f, c);
    AfterBoth(s, a + b + e + f + c, d);
    steps := a + b + e + f + c + d;
    assert After(s, steps).value.log[1] == Fired(T1, T1, Time(2, 0), true);
  }
}
