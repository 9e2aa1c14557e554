/** LocTimerContainer of gps/utils/LocTimer.cpp: a heap of timers and the kernel state it drives.
    Each proc() below is one message handled without interruption; module TimerService cuts the same
    work into the steps that other threads can see. */
module LocTimerContainer {
  import opened Wrappers
  import opened HeapTree
  import opened TimerTypes
  import opened TimerService
  import opened LocHeap

  /** updateSoonestTime, both halves. */
  function Refreshed(c: Container, priorTop: Option<Timer>): Container {
    var u := Soonest(priorTop, Top(c.heap));
    Program(Watch(c, u), u)
  }

  function Pushed(c: Container, t: Timer): Container {
    Refreshed(c.(heap := Push(c.heap, t, OutRanks)), Top(c.heap))
  }

  function Removed(c: Container, t: Timer): Container {
    var (heap, found) := Remove(c.heap, t, OutRanks);
    var c1 := c.(heap := heap);
    if Top(c.heap) == (if found then Some(t) else None) then Refreshed(c1, None) else c1
  }

  /** What the drain pops, in order, and what it leaves. The first pop asks nothing. */
  function Drained(t: Tree<Timer>, first: bool, now: Time): (seq<Timer>, Tree<Timer>)
    requires Sized(t)
    decreases Count(t)
  {
    if t.Node? && (first || Due(t, now)) then
      PopCounts(t, OutRanks);
      var (rest, left) := Drained(Pop(t, OutRanks), false, now);
      ([t.data] + rest, left)
    else ([], t)
  }

  function Expired(c: Container, now: Time): (Container, seq<Timer>)
    requires Sized(c.heap)
  {
    var (popped, left) := Drained(c.heap, true, now);
    (Refreshed(c.(heap := left), None), popped)
  }

  /** The drain from where `timer` has just been popped, or has not. */
  function ToGo(timer: Option<Timer>, t: Tree<Timer>, now: Time): (seq<Timer>, Tree<Timer>)
    requires Sized(t)
  {
    match timer
    case None => ([], t)
    case Some(x) => var (rest, left) := Drained(t, false, now); ([x] + rest, left)
  }

  lemma ToGoOn(expired: seq<Timer>, x: Timer, t: Tree<Timer>, now: Time)
    requires Sized(t)
    ensures expired + ToGo(Some(x), t, now).0 == (expired + [x]) + Drained(t, false, now).0
  {
  }

  lemma {:induction false} DrainedKeepsAll(t: Tree<Timer>, first: bool, now: Time, x: Timer)
    requires Sized(t)
    ensures var (popped, left) := Drained(t, first, now);
            Occurs(t, x) == Occurs(left, x) + multiset(popped)[x]
    decreases Count(t)
  {
    if t.Node? && (first || Due(t, now)) {
      PopCounts(t, OutRanks);
      PopOccurrences(t, x, OutRanks);
      DrainedKeepsAll(Pop(t, OutRanks), false, now, x);
    }
  }

  lemma {:induction false} DrainedLeavesLater(t: Tree<Timer>, first: bool, now: Time, x: Timer)
    requires HeapTree.Valid(t, OutRanks) && Normal(now)
    requires Occurs(Drained(t, first, now).1, x) > 0
    ensures now.sec < x.future.sec
    decreases Count(t)
  {
    OutRanksBySecond();
    DueIsBySecond(t, now);
    if first || Due(t, now) {
      PopCounts(t, OutRanks);
      PopRemovesTop(t, OutRanks);
      DrainedLeavesLater(Pop(t, OutRanks), false, now, x);
    } else {
      NothingOutranksTop(t, OutRanks);
    }
  }

  lemma {:induction false} DrainedBySecond(t: Tree<Timer>, first: bool, now: Time)
    requires Sized(t) && Normal(now)
    ensures forall i :: 0 <= i < |Drained(t, first, now).0| && (i > 0 || !first) ==>
              Drained(t, first, now).0[i].future.sec <= now.sec
    decreases Count(t)
  {
    if t.Node? && (first || Due(t, now)) {
      DueIsBySecond(t, now);
      PopCounts(t, OutRanks);
      DrainedBySecond(Pop(t, OutRanks), false, now);
      var rest := Drained(Pop(t, OutRanks), false, now).0;
      var popped := Drained(t, first, now).0;
      assert popped == [t.data] + rest;
      assert forall i :: 0 <= i < |rest| ==> rest[i].future.sec <= now.sec;
      assert forall i :: 1 <= i < |popped| ==> popped[i] == rest[i - 1];
    }
  }

  lemma {:induction false} DrainedInOrder(t: Tree<Timer>, first: bool, now: Time)
    requires HeapTree.Valid(t, OutRanks)
    ensures var popped := Drained(t, first, now).0;
            forall i, j :: 0 <= i < j < |popped| ==> popped[i].future.sec <= popped[j].future.sec
    decreases Count(t)
  {
    if t.Node? && (first || Due(t, now)) {
      OutRanksBySecond();
      PopCounts(t, OutRanks);
      PopRemovesTop(t, OutRanks);
      DrainedInOrder(Pop(t, OutRanks), false, now);
      var rest := Drained(Pop(t, OutRanks), false, now).0;
      assert Drained(t, first, now).0 == [t.data] + rest;
      forall j | 0 <= j < |rest| ensures t.data.future.sec <= rest[j].future.sec {
        DrainedKeepsAll(Pop(t, OutRanks), false, now, rest[j]);
        assert rest[j] in multiset(rest);
      }
      var popped := Drained(t, first, now).0;
      assert forall i :: 1 <= i < |popped| ==> popped[i] == rest[i - 1];
      forall i, j | 0 <= i < j < |popped| ensures popped[i].future.sec <= popped[j].future.sec {
        assert i > 0 ==> rest[i - 1].future.sec <= rest[j - 1].future.sec;
      }
    }
  }

  /** Every timer popped after the first is due by the second and none that stays is; nothing is lost
      or made up; timers come out by the second. */
  lemma DrainedIsDue(t: Tree<Timer>, now: Time)
    requires HeapTree.Valid(t, OutRanks) && Normal(now)
    ensures var (popped, left) := Drained(t, true, now);
            && (forall i :: 1 <= i < |popped| ==> popped[i].future.sec <= now.sec)
            && (forall i, j :: 0 <= i < j < |popped| ==> popped[i].future.sec <= popped[j].future.sec)
            && (forall y :: Occurs(left, y) > 0 ==> now.sec < y.future.sec)
            && (forall y :: Occurs(t, y) == Occurs(left, y) + multiset(popped)[y])
  {
    DrainedBySecond(t, true, now);
    DrainedInOrder(t, true, now);
    forall y ensures Occurs(t, y) == Occurs(Drained(t, true, now).1, y) + multiset(Drained(t, true, now).0)[y] {
      DrainedKeepsAll(t, true, now, y);
    }
    forall y | Occurs(Drained(t, true, now).1, y) > 0 ensures now.sec < y.future.sec {
      DrainedLeavesLater(t, true, now, y);
    }
  }

  /** After an expiry, a heap that still holds a timer is watched and armed at its top. */
  lemma ExpiredIsArmed(c: Container, now: Time)
    requires Sized(c.heap)
    ensures var c' := Expired(c, now).0;
            c'.heap.Node? ==> c'.polled && c'.armed == Some(c'.heap.data.future)
  {
  }

  class LocTimerContainer {
    const heap: LocHeap<Timer>
    var polled: bool
    var armed: Option<Time>

    ghost predicate Valid()
      reads this, heap, heap.Repr
    {
      heap.Valid() && heap.outRanks == OutRanks && this !in heap.Repr
    }

    ghost function State(): Container
      reads this, heap, heap.mTree
    {
      Container(heap.Tree(), polled, armed)
    }

    constructor ()
      ensures Valid() && fresh(heap.Repr) && State() == Container(Leaf, false, None)
    {
      OutRanksBySecond();
      heap := new LocHeap<Timer>(OutRanks);
      polled, armed := false, None;
    }

    method SetTime(at: Time)
      modifies this`armed
      ensures armed == if at == Time(0, 0) then None else Some(at)
    {
      armed := if at == Time(0, 0) then None else Some(at);
    }

    method UpdateSoonestTime(priorTop: Option<Timer>)
      requires Valid()
      modifies this
      ensures Valid() && State() == Refreshed(old(State()), priorTop)
      ensures heap.Tree() == old(heap.Tree())
      ensures var top := Top(heap.Tree());
              if top == priorTop then polled == old(polled) && armed == old(armed)
              else if top.None? then !polled && armed == None
              else if priorTop.None? || top.value.future.sec < priorTop.value.future.sec then
                polled && armed == Some(top.value.future)
              else polled == old(polled) && armed == old(armed)
    {
      var curTop := heap.Peek();
      if curTop != priorTop {
        var delay := Time(0, 0);
        var toSetTime := false;
        if curTop.None? {
          polled := false;
          toSetTime := true;
        } else if priorTop.None? || OutRanks(curTop.value, priorTop.value) {
          polled := true;
          delay := curTop.value.future;
          toSetTime := true;
        }
        if toSetTime {
          SetTime(delay);
        }
      }
    }

    method ProcPush(t: Timer)
      requires Valid()
      modifies this, heap.Repr
      ensures Valid() && fresh(heap.Repr - old(heap.Repr))
      ensures State() == Pushed(old(State()), t)
      ensures forall x :: Occurs(heap.Tree(), x) == old(Occurs(heap.Tree(), x)) + if x == t then 1 else 0
      ensures if Top(heap.Tree()) == old(Top(heap.Tree())) then polled == old(polled) && armed == old(armed)
              else Top(heap.Tree()) == Some(t) && polled && armed == Some(t.future)
    {
      var priorTop := heap.Peek();
      heap.Push(t);
      UpdateSoonestTime(priorTop);
    }

    method ProcRemove(t: Timer)
      requires Valid()
      modifies this, heap.Repr
      ensures Valid() && fresh(heap.Repr - old(heap.Repr))
      ensures State() == Removed(old(State()), t)
      ensures forall x :: old(Occurs(heap.Tree(), x))
                          == Occurs(heap.Tree(), x) + if x == t && old(Occurs(heap.Tree(), t)) > 0 then 1 else 0
      ensures if old(Top(heap.Tree())) == Some(t) && heap.Tree().Node? then
                polled && armed == Some(heap.Tree().data.future)
              else polled == old(polled) && armed == old(armed)
    {
      RemoveIsComplete(heap.Tree(), t, OutRanks);
      var priorTop := heap.Peek();
      var removed := heap.Remove(t);
      if priorTop == removed {
        UpdateSoonestTime(None);
      }
    }

    /** The rest of the state machine's Expire: what the poll thread does before it sends. */
    method Expire()
      modifies this
      ensures !polled && armed == None
    {
      SetTime(Time(0, 0));
      polled := false;
    }

    method PopIfOutRanks(now: Time) returns (popped: Option<Timer>)
      requires Valid()
      modifies heap.Repr
      ensures Valid() && fresh(heap.Repr - old(heap.Repr))
      ensures polled == old(polled) && armed == old(armed)
      ensures popped.Some? <==> Due(old(heap.Tree()), now)
      ensures popped.None? ==> heap.Tree() == old(heap.Tree())
      ensures popped.Some? ==>
                && popped.value == old(heap.Tree()).data
                && heap.Tree() == Pop(old(heap.Tree()), OutRanks)
                && Count(heap.Tree()) < old(Count(heap.Tree()))
    {
      popped := None;
      if heap.mTree != null {
        PopCounts(heap.Tree(), OutRanks);
        var top := heap.Peek();
        if !(Ranks(now, top.value.future) > 0) {
          popped := heap.Pop();
        }
      }
    }

    /** The drain loop and the update that follows it; the answer is what expire() was called on. */
    method ProcExpire(now: Time) returns (expired: seq<Timer>)
      requires Valid()
      modifies this, heap.Repr
      ensures Valid() && fresh(heap.Repr - old(heap.Repr))
      ensures HeapTree.Valid(old(heap.Tree()), OutRanks)
      ensures (State(), expired) == Expired(old(State()), now)
      ensures if heap.Tree().Node? then polled && armed == Some(heap.Tree().data.future)
              else polled == old(polled) && armed == old(armed)
    {
      expired := [];
      ghost var before := heap.Tree();
      var timer := heap.Pop();
      assert [] + ToGo(timer, heap.Tree(), now).0 == ToGo(timer, heap.Tree(), now).0;
      while timer.Some?
        invariant Valid() && fresh(heap.Repr - old(heap.Repr))
        invariant polled == old(polled) && armed == old(armed)
        invariant Drained(before, true, now) == (expired + ToGo(timer, heap.Tree(), now).0, ToGo(timer, heap.Tree(), now).1)
        decreases Count(heap.Tree()), timer.Some?
      {
        ghost var tree := heap.Tree();
        ToGoOn(expired, timer.value, tree, now);
        expired := expired + [timer.value];
        timer := PopIfOutRanks(now);
        assert Drained(tree, false, now) == ToGo(timer, heap.Tree(), now);
      }
      assert expired + [] == expired;
      UpdateSoonestTime(None);
    }
  }

  // ------------------------------------------- the uninterrupted steps are these

  /** The message thread's steps for one message, when nobody comes between, do what proc() does. */
  lemma StepsArePush(s: State, t: Timer)
    ensures var s1 := DeliverPush(s.(task := Idle), t);
            Pushed(Con(s, t.con), t) == Con(if s1.task.Programming? then ProgramStep(s1) else s1, t.con)
  {
  }

  lemma StepsAreRemove(s: State, t: Timer)
    ensures var s1 := DeliverRemove(s.(task := Idle), t);
            Removed(Con(s, t.con), t) == Con(if s1.task.Programming? then ProgramStep(s1) else s1, t.con)
  {
  }
}
