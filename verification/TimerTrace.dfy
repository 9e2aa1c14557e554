/** What each expiry was sent for. A traced state adds to the service's state, and takes nothing from
    it: for each container the timer that its fd is armed for, the expiries on their way with the
    timer each is for, the one that the message thread is working on, and for each outcome the one it
    was brought about by. */
module TimerTrace {
  import opened Wrappers
  import opened HeapTree
  import opened TimerTypes
  import opened TimerService
  import opened TimerInvariant
  import opened TimerWakeup
  import opened TimerHistory
  import opened TimerFrames
  import opened TimerTheorems
  import opened TimerCallbacks

  datatype Flight = Flight(con: bool, due: Option<Timer>)

  datatype Traced = Traced(
    s: State, swFor: Option<Timer>, hwFor: Option<Timer>,
    flights: seq<Flight>, current: Option<Timer>, sentFor: seq<Option<Timer>>)

  function ArmedFor(x: Traced, c: bool): Option<Timer> {
    if c then x.hwFor else x.swFor
  }

  function PutArmedFor(x: Traced, c: bool, t: Option<Timer>): Traced {
    if c then x.(hwFor := t) else x.(swFor := t)
  }

  function Woken(x: Traced, ready: seq<bool>): seq<Flight> {
    seq(|ready|, i requires 0 <= i < |ready| => Flight(ready[i], ArmedFor(x, ready[i])))
  }

  /** What a step adds to the trace: the fd is programmed for the top, or disarmed; a wake sends off
      an expiry for what the fd was armed for; a delivery takes the first of them. */
  ghost function Traces(x: Traced, a: Step): Traced
    requires Enabled(x.s, a)
  {
    match a
    case ProgramStep_ => PutArmedFor(x, x.s.task.con, Top(Con(x.s, x.s.task.con).heap))
    case PollStep_ => if x.s.stage == 0 then PutArmedFor(x, x.s.events[0], None) else x
    case WakeStep(ready) => x.(flights := x.flights + Woken(x, ready))
    case DeliverStep =>
      if x.s.queue[0].MsgExpire? && x.flights != [] then
        x.(current := x.flights[0].due, flights := x.flights[1..])
      else x
    case _ => x
  }

  ghost function Follow(x: Traced, a: Step): Traced
    requires Enabled(x.s, a)
  {
    var s' := Apply(x.s, a);
    var sentFor := if |s'.log| > |x.s.log| then [if a.CallStep? then x.current else None] else [];
    Traces(x, a).(s := s', sentFor := x.sentFor + sentFor)
  }

  ghost predicate Follows(x: Traced, y: Traced) {
    exists a :: Enabled(x.s, a) && y == Follow(x, a)
  }

  ghost predicate FollowAt(trace: seq<Traced>, i: int) {
    0 <= i < |trace| - 1 ==> Follows(trace[i], trace[i + 1])
  }

  ghost predicate IsTrace(trace: seq<Traced>) {
    && trace != []
    && Init(trace[0].s) && trace[0] == Traced(trace[0].s, None, None, [], None, [])
    && forall i :: FollowAt(trace, i)
  }

  function States(trace: seq<Traced>): seq<State> {
    seq(|trace|, i requires 0 <= i < |trace| => trace[i].s)
  }

  lemma FollowsIsNext(x: Traced, y: Traced)
    requires Follows(x, y)
    ensures Next(x.s, y.s)
  {
    var a :| Enabled(x.s, a) && y == Follow(x, a);
  }

  lemma TraceNext(trace: seq<Traced>, i: nat)
    requires IsTrace(trace) && i < |trace| - 1
    ensures Next(trace[i].s, trace[i + 1].s)
  {
    assert FollowAt(trace, i);
    FollowsIsNext(trace[i], trace[i + 1]);
  }

  /** What is traced is a run ... */
  lemma TraceIsOfRun(trace: seq<Traced>)
    requires IsTrace(trace)
    ensures IsRun(States(trace))
  {
    forall i ensures NextAt(States(trace), i) {
      if 0 <= i < |trace| - 1 {
        TraceNext(trace, i);
      }
    }
  }

  lemma FollowOn(x: Traced, s': State) returns (y: Traced)
    requires Next(x.s, s')
    ensures Follows(x, y) && y.s == s'
  {
    var a :| Enabled(x.s, a) && s' == Apply(x.s, a);
    y := Follow(x, a);
  }

  lemma FollowsAt(trace: seq<Traced>, y: Traced, i: int)
    requires IsTrace(trace) && Follows(trace[|trace| - 1], y)
    ensures FollowAt(trace + [y], i)
  {
    var longer := trace + [y];
    if 0 <= i < |trace| - 1 {
      assert FollowAt(trace, i);
      assert longer[i] == trace[i] && longer[i + 1] == trace[i + 1];
    } else if i == |trace| - 1 {
      assert longer[i] == trace[i] && longer[i + 1] == y;
    }
  }

  lemma ExtendTrace(trace: seq<Traced>, y: Traced)
    requires IsTrace(trace) && Follows(trace[|trace| - 1], y)
    ensures IsTrace(trace + [y])
  {
    forall i ensures FollowAt(trace + [y], i) {
      FollowsAt(trace, y, i);
    }
  }

  ghost predicate TraceOf(trace: seq<Traced>, run: seq<State>, n: nat)
    requires n < |run|
  {
    IsTrace(trace) && |trace| == n + 1 && forall i :: 0 <= i <= n ==> trace[i].s == run[i]
  }

  /** ... and every run has a trace. */
  lemma {:induction false} EveryRunHasTrace(run: seq<State>, n: nat) returns (trace: seq<Traced>)
    requires IsRun(run) && n < |run|
    ensures TraceOf(trace, run, n)
  {
    if n == 0 {
      trace := [Traced(run[0], None, None, [], None, [])];
      forall i ensures FollowAt(trace, i) {
      }
    } else {
      trace := EveryRunHasTrace(run, n - 1);
      trace := TraceOneMore(run, n - 1, trace);
    }
  }

  lemma TraceOneMore(run: seq<State>, n: nat, trace: seq<Traced>) returns (longer: seq<Traced>)
    requires IsRun(run) && n < |run| - 1 && TraceOf(trace, run, n)
    ensures TraceOf(longer, run, n + 1)
  {
    var y := FollowRun(run, n, trace[n]);
    ExtendTrace(trace, y);
    longer := trace + [y];
  }

  lemma FollowRun(run: seq<State>, i: nat, x: Traced) returns (y: Traced)
    requires IsRun(run) && i < |run| - 1 && x.s == run[i]
    ensures Follows(x, y) && y.s == run[i + 1]
  {
    assert NextAt(run, i);
    y := FollowOn(x, run[i + 1]);
  }

  // --------------------------------------------------------------- invariants

  /** A timer that has been pushed and is not about to be again. */
  ghost predicate WasPushed(s: State, t: Timer) {
    t in s.issued && Pushes(s, t) == 0
  }

  function Expiries(q: seq<Msg>): seq<bool> {
    if q == [] then []
    else (if q[0].MsgExpire? then [q[0].con] else []) + Expiries(q[1..])
  }

  function Cons(flights: seq<Flight>): (cons: seq<bool>)
    ensures |cons| == |flights| && forall i :: 0 <= i < |flights| ==> cons[i] == flights[i].con
  {
    seq(|flights|, i requires 0 <= i < |flights| => flights[i].con)
  }

  /** The flights are the expiries that are queued, and then those the poll thread is at. */
  ghost predicate InStep(x: Traced) {
    Cons(x.flights) == Expiries(x.s.queue) + x.s.events
  }

  /** This timer's deadline is not in the future, and it was in the heap of this container. */
  ghost predicate SentFor(s: State, c: bool, due: Option<Timer>) {
    due.Some? && WasPushed(s, due.value) && due.value.con == c && Nanos(due.value.future) <= Nanos(s.clock)
  }

  ghost predicate FlightOk(s: State, f: Flight) {
    SentFor(s, f.con, f.due)
  }

  ghost predicate ArmedOk(x: Traced, c: bool) {
    Con(x.s, c).armed.Some? ==>
      var t := ArmedFor(x, c);
      t.Some? && t.value.future == Con(x.s, c).armed.value && t.value.con == c && WasPushed(x.s, t.value)
  }

  /** `due` came by `now`, and its start has ended by the `n`-th outcome. */
  ghost predicate Stale(log: seq<Outcome>, n: nat, now: Time, due: Option<Timer>)
    requires n <= |log|
  {
    due.Some? && Nanos(due.value.future) <= Nanos(now) && exists i :: 0 <= i < n && log[i].t == due.value
  }

  ghost predicate CurrentOk(x: Traced) {
    var task := x.s.task;
    && (task.Draining? && task.first ==>
          SentFor(x.s, task.con, x.current) && Nanos(x.current.value.future) <= Nanos(task.now))
    && ((task.Popped? || task.Calling?) && task.first && task.now.sec < task.t.future.sec ==>
          Stale(x.s.log, |x.s.log|, task.now, x.current))
  }

  ghost predicate OutcomeOk(log: seq<Outcome>, sentFor: seq<Option<Timer>>, m: nat)
    requires m < |log| == |sentFor|
  {
    log[m].Fired? && log[m].first && log[m].at.sec < log[m].popped.future.sec ==>
      Stale(log, m, log[m].at, sentFor[m])
  }

  ghost predicate OutcomesOk(x: Traced) {
    |x.sentFor| == |x.s.log| && forall m :: 0 <= m < |x.s.log| ==> OutcomeOk(x.s.log, x.sentFor, m)
  }

  ghost predicate FlightsOk(x: Traced) {
    forall i :: 0 <= i < |x.flights| ==> FlightOk(x.s, x.flights[i])
  }

  ghost predicate TraceInv(x: Traced) {
    InStep(x) && FlightsOk(x) && ArmedOk(x, false) && ArmedOk(x, true) && CurrentOk(x) && OutcomesOk(x)
  }

  // ------------------------------------------------------------ what each step keeps

  lemma {:induction false} ExpiriesAppend(q: seq<Msg>, m: Msg)
    ensures Expiries(q + [m]) == Expiries(q) + if m.MsgExpire? then [m.con] else []
  {
    if q == [] {
      assert q + [m] == [m];
    } else {
      var head := if q[0].MsgExpire? then [q[0].con] else [];
      var last := if m.MsgExpire? then [m.con] else [];
      assert (q + [m])[1..] == q[1..] + [m];
      ExpiriesAppend(q[1..], m);
      assert head + (Expiries(q[1..]) + last) == (head + Expiries(q[1..])) + last;
    }
  }

  lemma WasPushedStays(s: State, s': State, a: Step, t: Timer)
    requires QueueAfter(s, s', a) && s.issued <= s'.issued && WasPushed(s, t)
    ensures WasPushed(s', t)
  {
    if s'.queue != s.queue {
      if a.DeliverStep? {
        Dequeued(s.queue, MsgPush(t));
      } else if a.PollStep_? {
        Appended(s.queue, MsgExpire(s.events[0]), MsgPush(t));
      } else {
        var n: Timer :| s'.queue == s.queue + [MsgRemove(n)] || (s'.queue == s.queue + [MsgPush(n)] && n !in s.issued);
        Appended(s.queue, MsgRemove(n), MsgPush(t));
        Appended(s.queue, MsgPush(n), MsgPush(t));
      }
    }
  }

  lemma SentForStays(s: State, s': State, a: Step, c: bool, due: Option<Timer>)
    requires QueueAfter(s, s', a) && s.issued <= s'.issued && Nanos(s.clock) <= Nanos(s'.clock)
    requires SentFor(s, c, due)
    ensures SentFor(s', c, due)
  {
    WasPushedStays(s, s', a, due.value);
  }

  function Pending(s: State): seq<bool> {
    Expiries(s.queue) + s.events
  }

  lemma SendKeepsPending(s: State)
    requires s.events != []
    ensures Expiries(s.queue + [MsgExpire(s.events[0])]) + s.events[1..] == Pending(s)
  {
    ExpiriesAppend(s.queue, MsgExpire(s.events[0]));
    assert s.events == [s.events[0]] + s.events[1..];
  }

  lemma PendingAfter(s: State, s': State, a: Step)
    requires QueueAfter(s, s', a)
    ensures a.WakeStep? ==> Pending(s') == Pending(s) + a.ready
    ensures a.DeliverStep? && s.queue[0].MsgExpire? ==> Pending(s) == [s.queue[0].con] + Pending(s')
    ensures !a.WakeStep? && !(a.DeliverStep? && s.queue[0].MsgExpire?) ==> Pending(s') == Pending(s)
  {
    if a.DeliverStep? {
      assert Expiries(s.queue)
             == (if s.queue[0].MsgExpire? then [s.queue[0].con] else []) + Expiries(s.queue[1..]);
    } else if a.PollStep_? {
      SendKeepsPending(s);
    } else if !a.WakeStep? && s'.queue != s.queue {
      var n: Timer :| s'.queue == s.queue + [MsgRemove(n)] || s'.queue == s.queue + [MsgPush(n)];
      ExpiriesAppend(s.queue, MsgRemove(n));
      ExpiriesAppend(s.queue, MsgPush(n));
    }
  }

  lemma FollowKeepsInStep(x: Traced, a: Step)
    requires Lives(x.s) && Enabled(x.s, a) && InStep(x)
    ensures InStep(Follow(x, a))
  {
    StepQueue(x.s, a);
    PendingAfter(x.s, Apply(x.s, a), a);
    FlightsInStep(x, a, Pending(Apply(x.s, a)));
  }

  lemma FlightsInStep(x: Traced, a: Step, pending: seq<bool>)
    requires Enabled(x.s, a) && Cons(x.flights) == Pending(x.s)
    requires a.WakeStep? ==> pending == Pending(x.s) + a.ready
    requires a.DeliverStep? && x.s.queue[0].MsgExpire? ==> Pending(x.s) == [x.s.queue[0].con] + pending
    requires !a.WakeStep? && !(a.DeliverStep? && x.s.queue[0].MsgExpire?) ==> pending == Pending(x.s)
    ensures Cons(Traces(x, a).flights) == pending
  {
    if a.DeliverStep? && x.s.queue[0].MsgExpire? {
      assert Cons(x.flights[1..]) == Cons(x.flights)[1..];
    } else if a.WakeStep? {
      assert Cons(x.flights + Woken(x, a.ready)) == Cons(x.flights) + a.ready;
    }
  }

  lemma FollowKeepsFlights(x: Traced, a: Step)
    requires Inv(x.s) && TraceInv(x) && Enabled(x.s, a)
    ensures FlightsOk(Follow(x, a))
  {
    var s', y := Apply(x.s, a), Follow(x, a);
    StepQueue(x.s, a);
    StepGrows(x.s, a);
    forall i | 0 <= i < |y.flights| ensures FlightOk(s', y.flights[i]) {
      if a.WakeStep? && i >= |x.flights| {
        var c := a.ready[i - |x.flights|];
        assert y.flights[i] == Flight(c, ArmedFor(x, c)) && Ready(x.s, c);
        assert ArmedOk(x, c);
      } else {
        var j := if |y.flights| < |x.flights| then i + 1 else i;
        assert y.flights[i] == x.flights[j] && FlightOk(x.s, x.flights[j]);
        SentForStays(x.s, s', a, y.flights[i].con, y.flights[i].due);
      }
    }
  }

  /** What the heap holds was pushed, into its own container. */
  lemma TopWasPushed(s: State, c: bool)
    requires Lives(s) && Con(s, c).heap.Node?
    ensures var t := Con(s, c).heap.data; t.con == c && WasPushed(s, t)
  {
    assert Placed(s, Con(s, c).heap.data);
  }

  lemma FollowKeepsArmed(x: Traced, a: Step, c: bool)
    requires Inv(x.s) && Enabled(x.s, a) && ArmedOk(x, c)
    ensures ArmedOk(Follow(x, a), c)
  {
    var s, s', y := x.s, Apply(x.s, a), Follow(x, a);
    StepQueue(s, a);
    StepGrows(s, a);
    if a.ProgramStep_? && s.task.con == c {
      TopWasPushed(s, c);
      assert Con(s', c) == Program(Con(s, c), s.task.u) && ArmedFor(y, c) == Top(Con(s, c).heap);
      WasPushedStays(s, s', a, Con(s, c).heap.data);
    } else if !(a.PollStep_? && s.stage == 0 && s.events[0] == c) {
      assert ArmedFor(y, c) == ArmedFor(x, c);
      assert Con(s', c).armed == Con(s, c).armed by {
        if !a.ProgramStep_? && !(a.PollStep_? && s.stage == 0) { ArmedStays(s, a, c); }
      }
      if Con(s, c).armed.Some? {
        WasPushedStays(s, s', a, ArmedFor(x, c).value);
      }
    }
  }

  // ------------------------------------------------------------- stale expiries

  /** A first pop whose second has not come: the timer that the expiry was sent for is no longer in
      the heap, since its start has ended. */
  lemma EarlyIsStale(x: Traced)
    requires Inv(x.s) && CurrentOk(x) && x.s.task.Draining? && x.s.task.first
    requires var heap := Con(x.s, x.s.task.con).heap; heap.Node? && x.s.task.now.sec < heap.data.future.sec
    ensures Stale(x.s.log, |x.s.log|, x.s.task.now, x.current)
    ensures Occurs(Con(x.s, x.s.task.con).heap, x.current.value) == 0
  {
    var s, due, heap := x.s, x.current.value, Con(x.s, x.s.task.con).heap;
    OutRanksBySecond();
    NothingOutranksTop(heap, OutRanks);
    assert Occurs(heap, due) == 0;
    assert Placed(s, due) && Settled(s, due);
    assert Ended(s.log, due);
  }

  lemma StaleStays(log: seq<Outcome>, n: nat, log': seq<Outcome>, n': nat, now: Time, due: Option<Timer>)
    requires n <= |log| && log <= log' && n <= n' <= |log'| && Stale(log, n, now, due)
    ensures Stale(log', n', now, due)
  {
    var i :| 0 <= i < n && log[i].t == due.value;
    assert log'[i].t == due.value;
  }

  lemma FollowKeepsOutcomes(x: Traced, a: Step)
    requires Inv(x.s) && Enabled(x.s, a) && OutcomesOk(x) && CurrentOk(x)
    ensures OutcomesOk(Follow(x, a))
  {
    var s, s', y := x.s, Apply(x.s, a), Follow(x, a);
    StepLog(s, a);
    forall m | 0 <= m < |s'.log| ensures OutcomeOk(s'.log, y.sentFor, m) {
      if m < |s.log| {
        assert OutcomeOk(s.log, x.sentFor, m);
        assert s'.log[m] == s.log[m] && y.sentFor[m] == x.sentFor[m];
        if s.log[m].Fired? && Stale(s.log, m, s.log[m].at, x.sentFor[m]) {
          StaleStays(s.log, m, s'.log, m, s.log[m].at, x.sentFor[m]);
        }
      } else if s'.log[m].Fired? && Stale(s.log, |s.log|, s.task.now, x.current) {
        StaleStays(s.log, |s.log|, s'.log, m, s.task.now, x.current);
      }
    }
  }

  /** A step that leaves the message thread where it is. */
  lemma SameTaskKeepsCurrent(x: Traced, a: Step)
    requires Inv(x.s) && Enabled(x.s, a) && CurrentOk(x) && Apply(x.s, a).task == x.s.task
    requires Follow(x, a).current == x.current
    ensures CurrentOk(Follow(x, a))
  {
    var s, s' := x.s, Apply(x.s, a);
    StepQueue(s, a);
    StepGrows(s, a);
    StepLog(s, a);
    if s.task.Draining? && s.task.first {
      SentForStays(s, s', a, s.task.con, x.current);
    } else if s.task.Popped? || s.task.Calling? {
      if Stale(s.log, |s.log|, s.task.now, x.current) {
        StaleStays(s.log, |s.log|, s'.log, |s'.log|, s.task.now, x.current);
      }
    }
  }

  lemma FollowKeepsCurrent(x: Traced, a: Step)
    requires Inv(x.s) && TraceInv(x) && Enabled(x.s, a)
    ensures CurrentOk(Follow(x, a))
  {
    match a
    case DeliverStep => DeliverKeepsCurrent(x);
    case DrainStep => DrainKeepsCurrent(x);
    case ReadStep =>
      assert ReadClient(x.s).log == x.s.log && ReadClient(x.s).task.Calling?;
    case CallStep => CallLog(x.s);
    case ProgramStep_ => assert !ProgramStep(x.s).task.Draining? && !ProgramStep(x.s).task.Popped?;
    case DeleteStep => assert Delete(x.s).task == Idle;
    case _ =>
      ClientKeepsTask(x.s, a);
      SameTaskKeepsCurrent(x, a);
  }

  lemma DeliverKeepsCurrent(x: Traced)
    requires Inv(x.s) && TraceInv(x) && x.s.task == Idle && x.s.queue != []
    ensures CurrentOk(Follow(x, DeliverStep))
  {
    var s, s', y := x.s, Deliver(x.s), Follow(x, DeliverStep);
    DeliverLog(s);
    if s.queue[0].MsgExpire? {
      StepQueue(s, DeliverStep);
      PendingAfter(s, s', DeliverStep);
      assert Cons(x.flights)[0] == s.queue[0].con;
      assert FlightOk(s, x.flights[0]) && y.current == x.flights[0].due;
      StepGrows(s, DeliverStep);
      SentForStays(s, s', DeliverStep, s.queue[0].con, y.current);
    }
  }

  lemma DrainKeepsCurrent(x: Traced)
    requires Inv(x.s) && CurrentOk(x) && x.s.task.Draining?
    ensures CurrentOk(Follow(x, DrainStep))
  {
    var s, s' := x.s, Drain(x.s);
    var heap := Con(s, s.task.con).heap;
    assert s'.log == s.log;
    if heap.Node? && (s.task.first || Due(heap, s.task.now)) {
      assert s'.task == Popped(s.task.con, s.task.now, s.task.first, heap.data);
      if s.task.first && s.task.now.sec < heap.data.future.sec {
        EarlyIsStale(x);
      }
    } else {
      assert !s'.task.Draining? && !s'.task.Popped? && !s'.task.Calling?;
    }
  }

  lemma {:induction false} TraceKeepsInv(trace: seq<Traced>, i: nat)
    requires IsTrace(trace) && i < |trace|
    ensures Inv(trace[i].s) && TraceInv(trace[i])
  {
    if i == 0 {
      InitInv(trace[0].s);
    } else {
      TraceKeepsInv(trace, i - 1);
      assert FollowAt(trace, i - 1);
      FollowsKeepsInv(trace[i - 1], trace[i]);
    }
  }

  lemma FollowsKeepsInv(x: Traced, y: Traced)
    requires Inv(x.s) && TraceInv(x) && Follows(x, y)
    ensures Inv(y.s) && TraceInv(y)
  {
    var a :| Enabled(x.s, a) && y == Follow(x, a);
    StepKeepsInv(x.s, a);
    FollowKeepsInStep(x, a);
    FollowKeepsFlights(x, a);
    FollowKeepsArmed(x, a, false);
    FollowKeepsArmed(x, a, true);
    FollowKeepsCurrent(x, a);
    FollowKeepsOutcomes(x, a);
  }

  // ------------------------------------------------------------------ theorems

  /** The first pop of a drain asks nothing, and so pops a timer whose second has not come exactly
      when that goes for the whole heap. The expiry was sent for a timer whose deadline had come; then
      that one is not in the heap any more, for its start has ended. While it is in the heap the first
      pop is on time like the others. */
  lemma EarlyPopIsFirst(trace: seq<Traced>, i: nat)
    requires IsTrace(trace) && i < |trace| && trace[i].s.task.Draining?
    requires Con(trace[i].s, trace[i].s.task.con).heap.Node?
    ensures var Draining(c, now, first) := trace[i].s.task;
            var heap, due := Con(trace[i].s, c).heap, trace[i].current;
            && (now.sec < heap.data.future.sec ==> (Drain(trace[i].s).task.Popped? <==> first))
            && (now.sec < heap.data.future.sec <==> forall t :: Occurs(heap, t) > 0 ==> now.sec < t.future.sec)
            && (first ==> due.Some? && Nanos(due.value.future) <= Nanos(now))
            && (first && Occurs(heap, due.value) > 0 ==> heap.data.future.sec <= now.sec)
            && (first && now.sec < heap.data.future.sec ==>
                  Occurs(heap, due.value) == 0 && Ended(trace[i].s.log, due.value))
  {
    TraceKeepsInv(trace, i);
    var x := trace[i];
    var heap, now := Con(x.s, x.s.task.con).heap, x.s.task.now;
    DueIsBySecond(heap, now);
    OutRanksBySecond();
    NothingOutranksTop(heap, OutRanks);
    assert Occurs(heap, heap.data) > 0;
    if x.s.task.first && now.sec < heap.data.future.sec {
      EarlyIsStale(x);
    }
  }

  /** There are two ways for a callback to come before its start's second. Either its client stopped
      the timer that was popped and has started this one since; or the expiry was sent for a start that
      had ended by then, and this was the top when it arrived. */
  lemma WhyEarly(trace: seq<Traced>, i: nat, m: nat)
    requires IsTrace(trace) && i < |trace| && m < |trace[i].s.log| && trace[i].s.log[m].Fired?
    requires trace[i].s.log[m].at.sec < trace[i].s.log[m].t.future.sec
    ensures |trace[i].sentFor| == |trace[i].s.log|
    ensures var log, due := trace[i].s.log, trace[i].sentFor[m];
            var Fired(t, popped, at, first) := log[m];
            || (t != popped && exists j :: 0 <= j < m && log[j] == Stopped(popped))
            || (t == popped && first && due.Some? && Nanos(due.value.future) <= Nanos(at)
                && exists j :: 0 <= j < m && log[j].t == due.value)
  {
    TraceKeepsInv(trace, i);
    TraceIsOfRun(trace);
    RunCallbacks(States(trace), i);
    var log := trace[i].s.log;
    assert Attributed(log, m) && OutcomeOk(log, trace[i].sentFor, m);
    assert PoppedDue(log[m].popped, log[m].at, log[m].first);
  }
}
