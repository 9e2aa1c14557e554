/** What every step of module TimerService keeps. */
module TimerInvariant {
  import opened Wrappers
  import opened HeapTree
  import opened TimerTypes
  import opened TimerService

  // ---------------------------------------------------------------- counting

  ghost function Pushes(s: State, t: Timer): nat {
    multiset(s.queue)[MsgPush(t)]
  }

  ghost function Removes(s: State, t: Timer): nat {
    multiset(s.queue)[MsgRemove(t)]
  }

  ghost function Held(s: State, t: Timer): nat {
    Occurs(s.sw.heap, t) + Occurs(s.hw.heap, t)
  }

  ghost function Expiring(s: State, t: Timer): nat {
    if (s.task.Popped? || s.task.Calling?) && s.task.t == t then 1 else 0
  }

  ghost function Doomed(s: State, t: Timer): nat {
    if s.task == Deleting(t) || (s.task.Programming? && s.task.doomed == Some(t)) then 1 else 0
  }

  lemma Appended(q: seq<Msg>, m: Msg, x: Msg)
    ensures multiset(q + [m])[x] == multiset(q)[x] + if m == x then 1 else 0
  {
  }

  lemma Dequeued(q: seq<Msg>, x: Msg)
    requires q != []
    ensures multiset(q)[x] == multiset(q[1..])[x] + if q[0] == x then 1 else 0
  {
    assert q == [q[0]] + q[1..];
  }

  // --------------------------------------------------------------- invariants

  /** Where one delegate is. It is waiting to be pushed, in its heap or expiring, in one place at
      most; it is stopped exactly when its removal is queued or under way, once; and it is alive
      exactly when it is somewhere. */
  ghost predicate Placed(s: State, t: Timer) {
    var active := Pushes(s, t) + Held(s, t) + Expiring(s, t);
    var leaving := Removes(s, t) + Doomed(s, t);
    && active <= 1 && leaving <= 1
    && (t in s.live <==> active + leaving > 0)
    && (t in s.stopped <==> leaving == 1)
    && (Doomed(s, t) == 1 ==> active == 0)
    && (Occurs(Con(s, !t.con).heap, t) == 0)
  }

  /** No push of a delegate is queued behind its removal. */
  ghost predicate PushFirst(q: seq<Msg>) {
    forall i, j :: 0 <= i < j < |q| && q[i].MsgRemove? ==> q[j] != MsgPush(q[i].t)
  }

  ghost predicate HeapsValid(s: State) {
    HeapTree.Valid(s.sw.heap, OutRanks) && HeapTree.Valid(s.hw.heap, OutRanks)
  }

  /** A client and its delegate know of each other for as long as the delegate is not stopped. */
  ghost predicate Linked(s: State, t: Timer) {
    t in s.live && t !in s.stopped <==>
    t.owner in s.clients && s.clients[t.owner].timer == Some(t)
  }

  ghost predicate ClientOk(s: State, k: ClientId) {
    k in s.clients ==>
      && (s.clients[k].timer.Some? ==> s.clients[k].timer.value.owner == k)
      && (s.clients[k].dying ==> s.clients[k].timer.None?)
  }

  ghost predicate CallOk(s: State) {
    s.task.Calling? ==>
      match s.task.client
      case None => s.task.t in s.stopped
      case Some(k) => k == s.task.t.owner && k in s.clients && !s.clients[k].dying
  }

  ghost predicate Fresh(s: State) {
    && (forall t :: t in s.issued ==> t.id < s.nextId && t.owner < s.nextClient)
    && (forall k :: k in s.clients ==> k < s.nextClient)
    && s.live <= s.issued
  }

  ghost function OwnedBy(ts: set<Timer>, k: ClientId): set<Timer> {
    set t | t in ts && t.owner == k
  }

  /** How many hold the lock of client `k`: the client itself and its delegates. */
  ghost function Holders(s: State, k: ClientId): nat {
    (if k in s.clients then 1 else 0) + |OwnedBy(s.live, k)|
  }

  /** The lock exists exactly while somebody holds it, and counts its holders. */
  ghost predicate LockOk(s: State, k: ClientId) {
    && (k in s.locks <==> Holders(s, k) > 0)
    && (k in s.locks ==> s.locks[k] == Holders(s, k))
  }

  /** Life of delegates, clients, messages and locks. */
  ghost predicate Lives(s: State) {
    && HeapsValid(s)
    && (forall t: Timer :: Placed(s, t))
    && PushFirst(s.queue)
    && (forall t: Timer :: Linked(s, t))
    && (forall k :: ClientOk(s, k))
    && CallOk(s)
    && Fresh(s)
    && ClockInRange(s.clock)
    && (forall k :: LockOk(s, k))
    && !s.fault
  }

  lemma OwnerLocked(s: State, t: Timer)
    requires Lives(s) && t in s.live
    ensures t.owner in s.locks
  {
    assert LockOk(s, t.owner);
    assert t in OwnedBy(s.live, t.owner);
  }

  lemma HeapElementsLive(s: State, c: bool)
    requires Lives(s)
    ensures HeapAlive(s, c)
  {
    forall t | Occurs(Con(s, c).heap, t) > 0 ensures t in s.live {
      assert Placed(s, t);
    }
  }

  // ------------------------------------------------------------ client threads

  lemma NewClientKeepsLives(s: State)
    requires Lives(s)
    ensures Lives(NewClient(s))
  {
    var s' := NewClient(s);
    forall t: Timer ensures Placed(s', t) && Linked(s', t) {
      assert Placed(s, t) && Linked(s, t);
    }
    forall k ensures ClientOk(s', k) && LockOk(s', k) {
      assert ClientOk(s, k) && LockOk(s, k);
      if k == s.nextClient {
        assert OwnedBy(s.live, k) == {};
      }
    }
  }

  lemma IssueIsNew(s: State, k: ClientId, ms: nat, con: bool)
    requires Lives(s) && ClockInRange(s.clock) && ms < 0x1_0000_0000
    ensures Issue(s, k, ms, con) !in s.issued
  {
  }

  lemma StartPlaces(s: State, k: ClientId, ms: nat, con: bool, t: Timer)
    requires Lives(s) && Enabled(s, StartStep(k, ms, con)) && s.clients[k].timer.None?
    ensures Placed(Start(s, k, ms, con), t) && Linked(Start(s, k, ms, con), t)
  {
    var n := Issue(s, k, ms, con);
    assert LockOk(s, k);
    IssueIsNew(s, k, ms, con);
    assert Placed(s, t) && Linked(s, t);
    Appended(s.queue, MsgPush(n), MsgPush(t));
    Appended(s.queue, MsgPush(n), MsgRemove(t));
  }

  lemma StartLocks(s: State, s': State, k: ClientId, n: Timer, j: ClientId)
    requires k in s.clients && k in s.locks && n.owner == k && n !in s.live
    requires s'.clients == s.clients[k := s.clients[k].(timer := Some(n))] && !s.clients[k].dying
    requires s'.locks == s.locks[k := s.locks[k] + 1] && s'.live == s.live + {n}
    requires ClientOk(s, j) && LockOk(s, j)
    ensures ClientOk(s', j) && LockOk(s', j)
  {
    if j == k {
      assert OwnedBy(s'.live, j) == OwnedBy(s.live, j) + {n};
    } else {
      assert OwnedBy(s'.live, j) == OwnedBy(s.live, j);
    }
  }

  lemma StartKeepsLives(s: State, k: ClientId, ms: nat, con: bool)
    requires Lives(s) && Enabled(s, StartStep(k, ms, con))
    ensures Lives(Start(s, k, ms, con))
  {
    assert LockOk(s, k) && ClientOk(s, k);
    if s.clients[k].timer.None? {
      var n := Issue(s, k, ms, con);
      var s' := Start(s, k, ms, con);
      IssueIsNew(s, k, ms, con);
      forall t: Timer ensures Placed(s', t) && Linked(s', t) {
        StartPlaces(s, k, ms, con, t);
      }
      forall j ensures ClientOk(s', j) && LockOk(s', j) {
        assert ClientOk(s, j) && LockOk(s, j);
        StartLocks(s, s', k, n, j);
      }
      forall i | 0 <= i < |s.queue| && s.queue[i].MsgRemove? ensures s.queue[i].t != n {
        assert Placed(s, n);
        assert s.queue[i] in multiset(s.queue);
      }
    }
  }

  lemma StopTimerKeeps(s: State, k: ClientId)
    requires Lives(s) && k in s.clients && s.clients[k].timer.Some?
    ensures var s' := StopTimer(s, k);
            var t := s.clients[k].timer.value;
            && t in s.live && t !in s.stopped && t.owner == k
            && Lives(s')
            && s' == s.(clients := s.clients[k := s.clients[k].(timer := None)],
                        stopped := s.stopped + {t}, queue := s.queue + [MsgRemove(t)])
  {
    var n := s.clients[k].timer.value;
    var s' := StopTimer(s, k);
    assert ClientOk(s, k) && Linked(s, n);
    forall t: Timer ensures Placed(s', t) && Linked(s', t) {
      assert Placed(s, t) && Linked(s, t);
      Appended(s.queue, MsgRemove(n), MsgPush(t));
      Appended(s.queue, MsgRemove(n), MsgRemove(t));
    }
    forall j ensures ClientOk(s', j) && LockOk(s', j) {
      StopKeepsClients(s, k, j);
    }
  }

  lemma StopKeepsClients(s: State, k: ClientId, j: ClientId)
    requires k in s.clients && s.clients[k].timer.Some?
    requires ClientOk(s, j) && LockOk(s, j) && ClientOk(s, k)
    ensures ClientOk(StopTimer(s, k), j) && LockOk(StopTimer(s, k), j)
  {
  }

  lemma StopKeepsLives(s: State, k: ClientId)
    requires Lives(s) && k in s.clients
    ensures Lives(Stop(s, k))
    ensures k in Stop(s, k).clients && Stop(s, k).clients[k].timer.None?
    ensures Stop(s, k).clients.Keys == s.clients.Keys
    ensures Stop(s, k).task == s.task
  {
    assert LockOk(s, k);
    if s.clients[k].timer.Some? {
      StopTimerKeeps(s, k);
      LogIsFree(StopTimer(s, k), Stop(s, k));
    }
  }

  /** The history plays no part in the rest. */
  lemma LogIsFree(s: State, s': State)
    requires Lives(s) && s' == s.(log := s'.log)
    ensures Lives(s')
  {
    forall t: Timer ensures Placed(s', t) && Linked(s', t) {
      assert Placed(s, t) && Linked(s, t);
    }
    forall j ensures ClientOk(s', j) && LockOk(s', j) {
      assert ClientOk(s, j) && LockOk(s, j);
    }
  }

  lemma RetireKeepsLives(s: State, k: ClientId)
    requires Lives(s) && Enabled(s, RetireStep(k))
    ensures Lives(Retire(s, k))
  {
    StopKeepsLives(s, k);
    var s1, s' := Stop(s, k), Retire(s, k);
    forall t: Timer ensures Placed(s', t) && Linked(s', t) {
      assert Placed(s1, t) && Linked(s1, t);
    }
    forall j ensures ClientOk(s', j) && LockOk(s', j) {
      assert ClientOk(s1, j) && LockOk(s1, j);
    }
  }

  lemma DestroyKeepsLives(s: State, k: ClientId)
    requires Lives(s) && Enabled(s, DestroyStep(k))
    ensures Lives(Destroy(s, k))
  {
    var s' := Destroy(s, k);
    assert ClientOk(s, k) && LockOk(s, k);
    forall t: Timer ensures Placed(s', t) && Linked(s', t) {
      assert Placed(s, t) && Linked(s, t);
    }
    forall j ensures ClientOk(s', j) && LockOk(s', j) {
      assert ClientOk(s, j) && LockOk(s, j);
    }
  }

  // ------------------------------------------------- clock and poll thread

  /** What leaves queue, heaps, clients, delegates and locks alone keeps all this. */
  lemma QuietKeepsLives(s: State, s': State)
    requires Lives(s) && ClockInRange(s'.clock)
    requires s'.sw.heap == s.sw.heap && s'.hw.heap == s.hw.heap
    requires s' == s.(clock := s'.clock, sw := s'.sw, hw := s'.hw, events := s'.events, stage := s'.stage)
    ensures Lives(s')
  {
    forall t: Timer ensures Placed(s', t) && Linked(s', t) {
      assert Placed(s, t) && Linked(s, t);
    }
    forall j ensures ClientOk(s', j) && LockOk(s', j) {
      assert ClientOk(s, j) && LockOk(s, j);
    }
  }

  lemma SendExpireKeepsLives(s: State, c: bool)
    requires Lives(s)
    ensures Lives(s.(queue := s.queue + [MsgExpire(c)]))
  {
    var s' := s.(queue := s.queue + [MsgExpire(c)]);
    forall t: Timer ensures Placed(s', t) && Linked(s', t) {
      assert Placed(s, t) && Linked(s, t);
      Appended(s.queue, MsgExpire(c), MsgPush(t));
      Appended(s.queue, MsgExpire(c), MsgRemove(t));
    }
    forall j ensures ClientOk(s', j) && LockOk(s', j) {
      assert ClientOk(s, j) && LockOk(s, j);
    }
  }

  lemma PollKeepsLives(s: State)
    requires Lives(s) && s.events != []
    ensures Lives(PollStep(s))
  {
    if s.stage < 2 {
      QuietKeepsLives(s, PollStep(s));
    } else {
      var c := s.events[0];
      SendExpireKeepsLives(s, c);
      QuietKeepsLives(s.(queue := s.queue + [MsgExpire(c)]), PollStep(s));
    }
  }

  // ----------------------------------------------------------- message thread

  /** A step of the message thread that only moves delegates about keeps everything, provided each
      delegate is placed again and the call about to be made is sound. */
  lemma MoveKeepsLives(s: State, s': State)
    requires Lives(s)
    requires s' == s.(sw := s'.sw, hw := s'.hw, queue := s'.queue, task := s'.task)
    requires HeapsValid(s') && PushFirst(s'.queue) && CallOk(s')
    requires forall t: Timer :: Placed(s', t)
    ensures Lives(s')
  {
    forall t: Timer ensures Linked(s', t) {
      assert Linked(s, t);
    }
    forall j ensures ClientOk(s', j) && LockOk(s', j) {
      assert ClientOk(s, j) && LockOk(s, j);
    }
  }

  lemma PushPlaces(s: State, s': State, n: Timer, t: Timer)
    requires s.task == Idle && s.queue != [] && s.queue[0] == MsgPush(n) && s'.queue == s.queue[1..]
    requires s'.live == s.live && s'.stopped == s.stopped
    requires s'.task == Idle || (s'.task.Programming? && s'.task.doomed == None)
    requires Con(s', !n.con) == Con(s, !n.con)
    requires Occurs(Con(s', n.con).heap, t) == Occurs(Con(s, n.con).heap, t) + if n == t then 1 else 0
    requires Placed(s, t)
    ensures Placed(s', t)
  {
    Dequeued(s.queue, MsgPush(t));
    Dequeued(s.queue, MsgRemove(t));
  }

  lemma RemovePlaces(s: State, s': State, n: Timer, t: Timer)
    requires s.task == Idle && s.queue != [] && s.queue[0] == MsgRemove(n) && s'.queue == s.queue[1..]
    requires s'.live == s.live && s'.stopped == s.stopped
    requires s'.task == Deleting(n) || (s'.task.Programming? && s'.task.doomed == Some(n))
    requires Con(s', !n.con) == Con(s, !n.con)
    requires Occurs(Con(s', n.con).heap, t)
             == Occurs(Con(s, n.con).heap, t) - if n == t && Occurs(Con(s, n.con).heap, n) > 0 then 1 else 0
    requires Placed(s, t) && PushFirst(s.queue)
    ensures Placed(s', t)
  {
    Dequeued(s.queue, MsgPush(t));
    Dequeued(s.queue, MsgRemove(t));
    if t == n {
      assert MsgPush(n) !in s.queue;
      assert MsgPush(n) !in multiset(s.queue);
    }
  }

  lemma DeliverPushKeepsLives(s: State, n: Timer)
    requires Lives(s) && s.task == Idle && s.queue != [] && s.queue[0] == MsgPush(n)
    ensures Lives(Deliver(s))
  {
    var s', heap := Deliver(s), Con(s, n.con).heap;
    HeapElementsLive(s, n.con);
    Dequeued(s.queue, MsgPush(n));
    assert Placed(s, n);
    PushAdds(heap, n, OutRanks) by { OutRanksBySecond(); }
    forall t: Timer ensures Placed(s', t) {
      assert Placed(s, t);
      PushPlaces(s, s', n, t);
    }
    MoveKeepsLives(s, s');
  }

  lemma DeliverRemoveKeepsLives(s: State, n: Timer)
    requires Lives(s) && s.task == Idle && s.queue != [] && s.queue[0] == MsgRemove(n)
    ensures Lives(Deliver(s))
  {
    var s', heap := Deliver(s), Con(s, n.con).heap;
    HeapElementsLive(s, n.con);
    Dequeued(s.queue, MsgRemove(n));
    assert Placed(s, n);
    RemoveIsComplete(heap, n, OutRanks) by { OutRanksBySecond(); }
    forall t: Timer ensures Placed(s', t) {
      assert Placed(s, t);
      RemovePlaces(s, s', n, t);
    }
    MoveKeepsLives(s, s');
  }

  lemma DeliverExpireKeepsLives(s: State, c: bool)
    requires Lives(s) && s.task == Idle && s.queue != [] && s.queue[0] == MsgExpire(c)
    ensures Lives(Deliver(s))
  {
    forall t: Timer ensures Placed(Deliver(s), t) {
      assert Placed(s, t);
      Dequeued(s.queue, MsgPush(t));
      Dequeued(s.queue, MsgRemove(t));
    }
    MoveKeepsLives(s, Deliver(s));
  }

  lemma DeliverKeepsLives(s: State)
    requires Lives(s) && s.task == Idle && s.queue != []
    ensures Lives(Deliver(s))
  {
    match s.queue[0]
    case MsgPush(n) => DeliverPushKeepsLives(s, n);
    case MsgRemove(n) => DeliverRemoveKeepsLives(s, n);
    case MsgExpire(c) => DeliverExpireKeepsLives(s, c);
  }

  lemma ProgramKeepsLives(s: State)
    requires Lives(s) && s.task.Programming?
    ensures Lives(ProgramStep(s))
  {
    forall t: Timer ensures Placed(ProgramStep(s), t) {
      assert Placed(s, t);
      ProgramPlaces(s, t);
    }
    MoveKeepsLives(s, ProgramStep(s));
  }

  lemma ProgramPlaces(s: State, t: Timer)
    requires s.task.Programming? && Placed(s, t)
    ensures Placed(ProgramStep(s), t)
  {
    assert ProgramStep(s).sw.heap == s.sw.heap && ProgramStep(s).hw.heap == s.hw.heap;
  }

  lemma DeleteKeepsLives(s: State)
    requires Lives(s) && s.task.Deleting?
    ensures Lives(Delete(s))
  {
    var n, s' := s.task.t, Delete(s);
    assert Placed(s, n);
    OwnerLocked(s, n);
    forall t: Timer ensures Placed(s', t) && Linked(s', t) {
      assert Placed(s, t) && Linked(s, t);
      DeletePlaces(s, t);
    }
    forall j ensures ClientOk(s', j) && LockOk(s', j) {
      assert ClientOk(s, j) && LockOk(s, j);
      DeleteKeepsClients(s, j);
    }
  }

  lemma DeletePlaces(s: State, t: Timer)
    requires s.task.Deleting? && s.task.t in s.live && s.task.t in s.stopped && s.task.t.owner in s.locks
    requires Placed(s, t) && Linked(s, t)
    ensures Placed(Delete(s), t) && Linked(Delete(s), t)
  {
  }

  lemma DeleteKeepsClients(s: State, j: ClientId)
    requires s.task.Deleting? && s.task.t in s.live && s.task.t in s.stopped && s.task.t.owner in s.locks
    requires ClientOk(s, j) && LockOk(s, j)
    ensures ClientOk(Delete(s), j) && LockOk(Delete(s), j)
  {
    var n := s.task.t;
    assert OwnedBy(Delete(s).live, j) == OwnedBy(s.live, j) - {n};
    assert n in OwnedBy(s.live, n.owner);
  }

  lemma PopPlaces(s: State, s': State, n: Timer, t: Timer)
    requires s.task.Draining? && s'.task == Popped(s.task.con, s.task.now, s.task.first, n)
    requires s'.queue == s.queue && s'.live == s.live && s'.stopped == s.stopped
    requires Con(s', !s.task.con) == Con(s, !s.task.con)
    requires Occurs(Con(s, s.task.con).heap, t)
             == Occurs(Con(s', s.task.con).heap, t) + if n == t then 1 else 0
    requires Placed(s, t)
    ensures Placed(s', t)
  {
  }

  lemma DrainKeepsLives(s: State)
    requires Lives(s) && s.task.Draining?
    ensures Lives(Drain(s))
  {
    var s', heap := Drain(s), Con(s, s.task.con).heap;
    HeapElementsLive(s, s.task.con);
    if s'.task.Popped? {
      PopRemovesTop(heap, OutRanks) by { OutRanksBySecond(); }
      assert s' == PutCon(s, s.task.con, Con(s, s.task.con).(heap := Pop(heap, OutRanks)))
                     .(task := Popped(s.task.con, s.task.now, s.task.first, heap.data));
      forall t: Timer ensures Placed(s', t) {
        assert Placed(s, t);
        PopPlaces(s, s', heap.data, t);
      }
      MoveKeepsLives(s, s');
    } else {
      DrainEndKeepsLives(s);
    }
  }

  lemma DrainEndKeepsLives(s: State)
    requires Lives(s) && s.task.Draining? && !Drain(s).task.Popped? && HeapAlive(s, s.task.con)
    ensures Lives(Drain(s))
  {
    forall t: Timer ensures Placed(Drain(s), t) {
      assert Placed(s, t);
    }
    MoveKeepsLives(s, Drain(s));
  }

  lemma ReadKeepsLives(s: State)
    requires Lives(s) && s.task.Popped?
    ensures Lives(ReadClient(s))
  {
    forall t: Timer ensures Placed(ReadClient(s), t) {
      assert Placed(s, t);
    }
    assert Linked(s, s.task.t) && Placed(s, s.task.t) && ClientOk(s, s.task.t.owner);
    MoveKeepsLives(s, ReadClient(s));
  }

  /** The popped delegate was stopped, so that its client has it no more. */
  lemma UncalledKeepsLives(s: State)
    requires Lives(s) && s.task.Calling?
    requires s.task.client.Some? ==> s.clients[s.task.client.value].timer.None?
    ensures Lives(s.(task := Draining(s.task.con, s.task.now, false)))
  {
    var s1 := s.(task := Draining(s.task.con, s.task.now, false));
    assert Placed(s, s.task.t) && Linked(s, s.task.t);
    forall t: Timer ensures Placed(s1, t) {
      assert Placed(s, t);
    }
    MoveKeepsLives(s, s1);
  }

  lemma CallKeepsLives(s: State)
    requires Lives(s) && s.task.Calling?
    ensures Lives(Call(s))
  {
    var n, client := s.task.t, s.task.client;
    var s1 := s.(task := Draining(s.task.con, s.task.now, false));
    assert Placed(s, n) && Linked(s, n);
    if client.Some? && s.clients[client.value].timer.Some? {
      var k := client.value;
      assert LockOk(s, k);
      StopTimerKeeps(s, k);
      var s2 := StopTimer(s, k);
      var s3 := s2.(task := s1.task);
      forall t: Timer ensures Placed(s3, t) {
        assert Placed(s2, t);
      }
      MoveKeepsLives(s2, s3);
      LogIsFree(s3, Call(s));
    } else {
      if client.Some? {
        assert LockOk(s, client.value);
      }
      UncalledKeepsLives(s);
    }
  }
}
