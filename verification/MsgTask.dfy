/** gps/utils/MsgTask.cpp over msg_q.c: any number of threads receive from one queue, handle what
    they receive and delete it; anybody sends, flushes or unblocks. A message is the address of an
    object that its sender has just made and passes with a dealloc function. */
module MsgTask {
  import opened Wrappers
  import opened Counting
  import opened LinkedList
  import opened MsgQueue

  /** Where a receiver stands: outside msg_q_rcv, in pthread_cond_wait, signalled there but not yet
      running, or handling a message. */
  datatype Receiver = Out | Asleep | Woken | Handling(msg: Ptr)

  /** `accepted`: what was sent with success; `taken`: what has left the queue; `handled`: what
      receivers are done with; `freed`: what was deleted; each in order of time. */
  datatype State = State(
    q: Queue, receivers: seq<Receiver>, accepted: seq<Ptr>, taken: seq<Ptr>, handled: seq<Ptr>, freed: seq<Ptr>)

  /** `chosen` is the waiter that pthread_cond_signal wakes; should it wake more, those are Spurious. */
  datatype Step =
    | Send(msg: Ptr, room: bool, chosen: nat)
    | Receive(i: nat)
    | Spurious(i: nat)
    | Resume(i: nat)
    | Finish(i: nat)
    | Flush
    | Unblock

  function Init(n: nat): State {
    State(Queue([], false), seq(n, _ => Out), [], [], [], [])
  }

  ghost predicate Enabled(s: State, step: Step) {
    match step
    case Send(msg, _, chosen) =>
      && msg !in s.accepted
      && ((chosen < |s.receivers| && s.receivers[chosen] == Asleep) || Asleep !in s.receivers)
    case Receive(i) => i < |s.receivers| && s.receivers[i] == Out
    case Spurious(i) => i < |s.receivers| && s.receivers[i] == Asleep
    case Resume(i) => i < |s.receivers| && s.receivers[i] == Woken
    case Finish(i) => i < |s.receivers| && s.receivers[i].Handling?
    case Flush => true
    case Unblock => true
  }

  function Signalled(rs: seq<Receiver>, chosen: nat): seq<Receiver> {
    if chosen < |rs| && rs[chosen] == Asleep then rs[chosen := Woken] else rs
  }

  function Broadcast(rs: seq<Receiver>): seq<Receiver> {
    if rs == [] then [] else [if rs[0] == Asleep then Woken else rs[0]] + Broadcast(rs[1..])
  }

  function Rcv(s: State, i: nat, resumed: bool): State
    requires i < |s.receivers|
  {
    match WhatRcvDoes(s.q, resumed)
    case Waits => s.(receivers := s.receivers[i := Asleep])
    case Returns(_, Some(msg)) =>
      s.(q := Received(s.q, resumed), receivers := s.receivers[i := Handling(msg)], taken := s.taken + [msg])
    case Returns(_, None) => s.(receivers := s.receivers[i := Out])
  }

  function Apply(s: State, step: Step): State
    requires Enabled(s, step)
  {
    match step
    case Send(msg, room, chosen) =>
      s.(q := Sent(s.q, msg, true, room),
         receivers := if msg == NULL || s.q.unblocked then s.receivers else Signalled(s.receivers, chosen),
         accepted := if SendStatus(s.q, msg, room) == Success then s.accepted + [msg] else s.accepted)
    case Receive(i) => Rcv(s, i, false)
    case Spurious(i) => s.(receivers := s.receivers[i := Woken])
    case Resume(i) => Rcv(s, i, true)
    case Finish(i) =>
      var msg := s.receivers[i].msg;
      s.(receivers := s.receivers[i := Out], handled := s.handled + [msg], freed := s.freed + [msg])
    case Flush =>
      s.(q := s.q.(pending := []), taken := s.taken + Data(s.q.pending), freed := s.freed + Owned(Reversed(s.q.pending)))
    case Unblock =>
      s.(q := s.q.(unblocked := true), receivers := if s.q.unblocked then s.receivers else Broadcast(s.receivers))
  }

  function Self(m: Ptr): nat {
    m
  }

  function Data(items: seq<Item>): (data: seq<Ptr>)
    ensures |data| == |items| && forall i :: 0 <= i < |items| ==> data[i] == items[i].data
  {
    seq(|items|, i requires 0 <= i < |items| => items[i].data)
  }

  /** Every run, from an unused queue with `n` receivers. */
  ghost predicate Next(s: State, t: State) {
    exists step :: Enabled(s, step) && t == Apply(s, step)
  }

  ghost predicate NextAt(run: seq<State>, i: int)
    requires 0 <= i < |run| - 1
  {
    Next(run[i], run[i + 1])
  }

  ghost predicate IsRun(run: seq<State>) {
    && 0 < |run|
    && run[0] == Init(|run[0].receivers|)
    && forall i :: 0 <= i < |run| - 1 ==> NextAt(run, i)
  }

  /** How many receivers stand at `r`. */
  function Number(rs: seq<Receiver>, r: Receiver): (n: nat)
    ensures n > 0 <==> r in rs
  {
    if rs == [] then 0 else (if rs[0] == r then 1 else 0) + Number(rs[1..], r)
  }

  lemma {:induction false} CountFlushed(items: seq<Item>, m: Ptr)
    requires forall item :: item in items ==> item.owned
    ensures Count(Owned(Reversed(items)), Self, m) == Count(Data(items), Self, m)
  {
    if items == [] {
      assert Reversed(items) == [];
    } else {
      assert Reversed(items) == Reversed(items[1..]) + [items[0]];
      OwnedAppend(Reversed(items[1..]), items[0]);
      CountAppend(Owned(Reversed(items[1..])), [items[0].data], Self, m);
      CountFlushed(items[1..], m);
      assert Data(items)[1..] == Data(items[1..]);
    }
  }

  lemma {:induction false} NumberUpdate(rs: seq<Receiver>, i: nat, now: Receiver, r: Receiver)
    requires i < |rs|
    ensures Number(rs[i := now], r)
         == Number(rs, r) - (if rs[i] == r then 1 else 0) + (if now == r then 1 else 0)
  {
    if i > 0 {
      assert rs[i := now][1..] == rs[1..][i - 1 := now];
      NumberUpdate(rs[1..], i - 1, now, r);
    }
  }

  lemma {:induction false} NumberBroadcast(rs: seq<Receiver>, r: Receiver)
    requires !r.Woken?
    ensures Number(Broadcast(rs), r) == if r.Asleep? then 0 else Number(rs, r)
  {
    if rs != [] {
      NumberBroadcast(rs[1..], r);
    }
  }

  /** No signal is lost: a receiver sleeps only while everything pending has a woken receiver of its
      own on the way, and nobody sleeps once the queue is unblocked. */
  ghost predicate Signals(s: State) {
    Asleep in s.receivers ==> !s.q.unblocked && |s.q.pending| <= Number(s.receivers, Woken)
  }

  lemma StepKeepsSignals(s: State, step: Step)
    requires Enabled(s, step) && Signals(s)
    ensures Signals(Apply(s, step))
  {
    var t := Apply(s, step);
    match step {
      case Send(msg, room, chosen) =>
        if Asleep in s.receivers {
          NumberUpdate(s.receivers, chosen, Woken, Woken);
        }
      case Receive(i) => UpdateKeepsSignals(s, t, i);
      case Spurious(i) => UpdateKeepsSignals(s, t, i);
      case Resume(i) => UpdateKeepsSignals(s, t, i);
      case Finish(i) => UpdateKeepsSignals(s, t, i);
      case Flush =>
      case Unblock =>
        NumberBroadcast(s.receivers, Asleep);
    }
  }

  lemma UpdateKeepsSignals(s: State, t: State, i: nat)
    requires Signals(s) && i < |s.receivers| && |t.receivers| == |s.receivers|
    requires t.receivers == s.receivers[i := t.receivers[i]] && t.q.unblocked == s.q.unblocked
    requires t.receivers[i] == Asleep ==> !t.q.unblocked && t.q.pending == []
    requires |t.q.pending| <= |s.q.pending|
    requires s.receivers[i] == Woken && t.q.pending != [] ==> |t.q.pending| < |s.q.pending|
    ensures Signals(t)
  {
    NumberUpdate(s.receivers, i, t.receivers[i], Woken);
    NumberUpdate(s.receivers, i, t.receivers[i], Asleep);
  }

  /** Where a message that was accepted is: pending, with a receiver, or deleted. */
  function Places(s: State, m: Ptr): nat {
    Count(Data(s.q.pending), Self, m) + Number(s.receivers, Handling(m)) + Count(s.freed, Self, m)
  }

  ghost predicate Conserved(s: State) {
    && (forall item :: item in s.q.pending ==> item.owned)
    && (forall m {:trigger Places(s, m)} :: Places(s, m) == Count(s.accepted, Self, m) <= 1)
  }

  ghost predicate InOrder(s: State) {
    s.accepted == s.taken + Data(s.q.pending)
  }

  lemma StepKeepsOrder(s: State, step: Step)
    requires Enabled(s, step) && InOrder(s)
    ensures InOrder(Apply(s, step))
  {
    match step {
      case Send(msg, _, _) =>
        assert Data(s.q.pending + [Item(msg, true)]) == Data(s.q.pending) + [msg];
      case Receive(i) => RcvKeepsOrder(s, i, false);
      case Resume(i) => RcvKeepsOrder(s, i, true);
      case Flush => assert s.taken + Data(s.q.pending) + Data([]) == s.taken + Data(s.q.pending);
      case _ =>
    }
  }

  lemma RcvKeepsOrder(s: State, i: nat, resumed: bool)
    requires i < |s.receivers| && InOrder(s)
    ensures InOrder(Rcv(s, i, resumed))
  {
    var t := Rcv(s, i, resumed);
    if WhatRcvDoes(s.q, resumed).Returns? && WhatRcvDoes(s.q, resumed).msg.Some? {
      FirstTaken(s.taken, Data(s.q.pending));
      assert Data(t.q.pending) == Data(s.q.pending)[1..];
    }
  }

  lemma FirstTaken(taken: seq<Ptr>, left: seq<Ptr>)
    requires left != []
    ensures (taken + [left[0]]) + left[1..] == taken + left
  {
  }

  lemma StepConserves(s: State, step: Step, m: Ptr)
    requires Enabled(s, step) && Conserved(s)
    ensures Places(Apply(s, step), m) == Count(Apply(s, step).accepted, Self, m) <= 1
  {
    var t := Apply(s, step);
    assert Places(s, m) == Count(s.accepted, Self, m) <= 1;
    match step {
      case Send(_, _, _) => SendConserves(s, step, m);
      case Receive(i) => RcvConserves(s, i, false, m);
      case Spurious(i) => NumberUpdate(s.receivers, i, Woken, Handling(m));
      case Resume(i) => RcvConserves(s, i, true, m);
      case Finish(i) =>
        NumberUpdate(s.receivers, i, Out, Handling(m));
        CountAppend(s.freed, [s.receivers[i].msg], Self, m);
      case Flush =>
        CountAppend(s.freed, Owned(Reversed(s.q.pending)), Self, m);
        CountFlushed(s.q.pending, m);
      case Unblock =>
        NumberBroadcast(s.receivers, Handling(m));
    }
  }

  lemma SendConserves(s: State, step: Step, m: Ptr)
    requires step.Send? && Enabled(s, step) && Conserved(s)
    ensures Places(Apply(s, step), m) == Count(Apply(s, step).accepted, Self, m) <= 1
  {
    var t := Apply(s, step);
    var Send(msg, _, chosen) := step;
    assert Places(s, m) == Count(s.accepted, Self, m) <= 1;
    CountAppend(s.accepted, [msg], Self, m);
    CountIn(s.accepted, Self, m);
    if t.q.pending != s.q.pending {
      assert Data(t.q.pending) == Data(s.q.pending) + [msg];
      CountAppend(Data(s.q.pending), [msg], Self, m);
    }
    if chosen < |s.receivers| {
      NumberUpdate(s.receivers, chosen, Woken, Handling(m));
    }
  }

  lemma RcvConserves(s: State, i: nat, resumed: bool, m: Ptr)
    requires i < |s.receivers| && !s.receivers[i].Handling?
    ensures Places(Rcv(s, i, resumed), m) == Places(s, m)
  {
    var t := Rcv(s, i, resumed);
    NumberUpdate(s.receivers, i, t.receivers[i], Handling(m));
    if t.q.pending != s.q.pending {
      assert Data(s.q.pending) == [s.q.pending[0].data] + Data(t.q.pending);
    }
  }

  ghost predicate Inv(s: State) {
    Signals(s) && Conserved(s) && InOrder(s)
  }

  lemma {:induction false} RunInv(run: seq<State>, k: nat)
    requires IsRun(run) && k < |run|
    ensures Inv(run[k])
  {
    if k == 0 {
      InitInv(|run[0].receivers|);
    } else {
      RunInv(run, k - 1);
      assert NextAt(run, k - 1);
      var step :| Enabled(run[k - 1], step) && run[k] == Apply(run[k - 1], step);
      StepKeepsSignals(run[k - 1], step);
      StepKeepsOrder(run[k - 1], step);
      forall m {:trigger Places(run[k], m)} ensures Places(run[k], m) == Count(run[k].accepted, Self, m) <= 1 {
        StepConserves(run[k - 1], step, m);
      }
    }
  }

  lemma InitInv(n: nat)
    ensures Inv(Init(n))
  {
    var s := Init(n);
    forall m {:trigger Places(s, m)} ensures Places(s, m) == 0 {
      assert Handling(m) !in s.receivers;
    }
  }

  /** In every run: with somebody asleep, each pending message has a receiver that was woken for it
      and has yet to run; and from the unblocking on nobody sleeps. */
  lemma NoLostSignal(run: seq<State>, k: nat)
    requires IsRun(run) && k < |run| && Asleep in run[k].receivers
    ensures |run[k].q.pending| <= Number(run[k].receivers, Woken)
    ensures forall j :: 0 <= j <= k ==> !run[j].q.unblocked
  {
    RunInv(run, k);
    forall j | 0 <= j <= k ensures !run[j].q.unblocked {
      Unblocked(run, j, k);
    }
  }

  /** Once unblocked, always unblocked, and nothing more is accepted. */
  lemma {:induction false} Unblocked(run: seq<State>, j: nat, k: nat)
    requires IsRun(run) && j <= k < |run|
    ensures run[j].q.unblocked ==> run[k].q.unblocked && run[k].accepted == run[j].accepted
    decreases k - j
  {
    if j < k {
      assert NextAt(run, k - 1);
      Unblocked(run, j, k - 1);
    }
  }

  /** How many receivers are handling a message. */
  function Busy(rs: seq<Receiver>): nat {
    if rs == [] then 0 else (if rs[0].Handling? then 1 else 0) + Busy(rs[1..])
  }

  lemma {:induction false} BusyUpdate(rs: seq<Receiver>, i: nat, now: Receiver)
    requires i < |rs|
    ensures Busy(rs[i := now]) == Busy(rs) - (if rs[i].Handling? then 1 else 0) + (if now.Handling? then 1 else 0)
  {
    if i > 0 {
      assert rs[i := now][1..] == rs[1..][i - 1 := now];
      BusyUpdate(rs[1..], i - 1, now);
    }
  }

  lemma {:induction false} BroadcastEach(rs: seq<Receiver>, i: nat)
    requires i < |rs|
    ensures |Broadcast(rs)| == |rs| && Broadcast(rs)[i] == if rs[i] == Asleep then Woken else rs[i]
  {
    if i > 0 {
      BroadcastEach(rs[1..], i - 1);
    } else if |rs| > 1 {
      BroadcastEach(rs[1..], 0);
    }
  }

  /** A step of an unblocked queue: receivers outside it stay outside, whatever they call, those that are
      handling a message will be outside, and one that was woken inside takes one message at most. */
  lemma UnblockedStep(s: State, step: Step, i: nat)
    requires Enabled(s, step) && s.q.unblocked && Signals(s) && i < |s.receivers|
    ensures var t := Apply(s, step);
            && t.q.unblocked && |t.receivers| == |s.receivers|
            && (s.receivers[i] == Out ==> t.receivers[i] == Out)
            && (s.receivers[i].Handling? ==> t.receivers[i] == s.receivers[i] || t.receivers[i] == Out)
            && (s.receivers[i] == Woken ==>
                  t.receivers[i] == Woken || t.receivers[i] == Out || t.receivers[i].Handling?)
  {
    if step.Unblock? && |s.receivers| > 0 {
      BroadcastEach(s.receivers, i);
    }
  }

  /** Who enters after the unblocking takes nothing: a receiver that is outside then stays outside, and
      one that is handling a message takes no other. */
  lemma {:induction false} NothingForLatecomers(run: seq<State>, j: nat, k: nat, i: nat)
    requires IsRun(run) && j <= k < |run| && run[j].q.unblocked && i < |run[j].receivers|
    ensures run[k].q.unblocked && |run[k].receivers| == |run[j].receivers|
    ensures run[j].receivers[i] == Out ==> run[k].receivers[i] == Out
    ensures run[j].receivers[i].Handling? ==>
              run[k].receivers[i] == run[j].receivers[i] || run[k].receivers[i] == Out
    decreases k - j
  {
    if j < k {
      NothingForLatecomers(run, j, k - 1, i);
      RunInv(run, k - 1);
      assert NextAt(run, k - 1);
      var step :| Enabled(run[k - 1], step) && run[k] == Apply(run[k - 1], step);
      UnblockedStep(run[k - 1], step, i);
    }
  }

  /** What receivers have got so far. */
  function Got(s: State): nat {
    |s.handled| + Busy(s.receivers)
  }

  lemma UnblockedGets(s: State, step: Step)
    requires Enabled(s, step) && s.q.unblocked && Signals(s)
    ensures var t := Apply(s, step);
            Got(t) + Number(t.receivers, Woken) <= Got(s) + Number(s.receivers, Woken)
  {
    var t := Apply(s, step);
    match step {
      case Receive(i) => assert s.receivers[i := Out] == s.receivers;
      case Resume(i) =>
        BusyUpdate(s.receivers, i, t.receivers[i]);
        NumberUpdate(s.receivers, i, t.receivers[i], Woken);
      case Finish(i) =>
        BusyUpdate(s.receivers, i, Out);
        NumberUpdate(s.receivers, i, Out, Woken);
      case _ =>
    }
  }

  /** So after the unblocking at most the receivers that are inside get a message each. */
  lemma {:induction false} OneEachAfterUnblock(run: seq<State>, j: nat, k: nat)
    requires IsRun(run) && j <= k < |run| && run[j].q.unblocked
    ensures Got(run[k]) + Number(run[k].receivers, Woken) <= Got(run[j]) + Number(run[j].receivers, Woken)
    ensures run[k].q.unblocked
    decreases k - j
  {
    if j < k {
      OneEachAfterUnblock(run, j, k - 1);
      RunInv(run, k - 1);
      assert NextAt(run, k - 1);
      var step :| Enabled(run[k - 1], step) && run[k] == Apply(run[k - 1], step);
      UnblockedGets(run[k - 1], step);
    }
  }

  /** In every run: an accepted message is in one place and has been deleted at most once; what was
      not accepted is nowhere; and messages leave the queue in the order they were accepted. */
  lemma EachMessageOnce(run: seq<State>, k: nat, m: Ptr)
    requires IsRun(run) && k < |run|
    ensures var s := run[k];
            && Count(Data(s.q.pending), Self, m) + Number(s.receivers, Handling(m)) + Count(s.freed, Self, m)
               == if m in s.accepted then 1 else 0
    ensures run[k].taken <= run[k].accepted
  {
    RunInv(run, k);
    assert Places(run[k], m) == Count(run[k].accepted, Self, m) <= 1;
    CountIn(run[k].accepted, Self, m);
  }

  /** When the queue was flushed and the receivers are done, as at the end of ~MsgTask, every
      accepted message has been deleted, once. */
  lemma AllFreedInTheEnd(run: seq<State>, k: nat, m: Ptr)
    requires IsRun(run) && k < |run| && run[k].q.pending == []
    requires forall r :: r in run[k].receivers ==> !r.Handling?
    ensures Count(run[k].freed, Self, m) == if m in run[k].accepted then 1 else 0
  {
    EachMessageOnce(run, k, m);
    assert Data(run[k].q.pending) == [];
    assert Handling(m) !in run[k].receivers;
  }

  function InHand(r: Receiver): seq<Ptr> {
    if r.Handling? then [r.msg] else []
  }

  /** No step up to `k` was a flush. */
  ghost predicate Unflushed(run: seq<State>, k: nat)
    requires k < |run|
  {
    forall i :: 0 <= i < k ==> run[i + 1] != Apply(run[i], Flush) || run[i].q.pending == []
  }

  /** A MsgTask, which is one receiver and flushes only when its thread is over, handles the messages
      in the order they were accepted and leaves none out. */
  lemma {:induction false} HandledInOrder(run: seq<State>, k: nat)
    requires IsRun(run) && k < |run| && |run[0].receivers| == 1 && Unflushed(run, k)
    ensures |run[k].receivers| == 1
    ensures run[k].handled + InHand(run[k].receivers[0]) == run[k].taken
    ensures run[k].accepted == run[k].handled + InHand(run[k].receivers[0]) + Data(run[k].q.pending)
  {
    RunInv(run, k);
    if k > 0 {
      HandledInOrder(run, k - 1);
      assert NextAt(run, k - 1);
      var step :| Enabled(run[k - 1], step) && run[k] == Apply(run[k - 1], step);
      assert step.Flush? ==> run[k - 1 + 1] == Apply(run[k - 1], Flush);
      StepHandlesInOrder(run[k - 1], step);
    }
  }

  lemma StepHandlesInOrder(s: State, step: Step)
    requires Enabled(s, step) && |s.receivers| == 1
    requires s.handled + InHand(s.receivers[0]) == s.taken && (step.Flush? ==> s.q.pending == [])
    ensures var t := Apply(s, step);
            |t.receivers| == 1 && t.handled + InHand(t.receivers[0]) == t.taken
  {
    match step {
      case Flush => assert Data(s.q.pending) == [];
      case Finish(i) => assert s.handled + [s.receivers[0].msg] == s.taken;
      case Unblock => assert |Broadcast(s.receivers)| == 1;
      case _ =>
    }
  }
}
