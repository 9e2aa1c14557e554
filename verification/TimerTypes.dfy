/** The values of gps/utils/LocTimer.cpp: times, timer delegates, how they rank, and the state that
    one container shares with the kernel. */
module TimerTypes {
  import opened Wrappers
  import opened HeapTree

  // ---------------------------------------------------------------------- time

  const BILLION := 1_000_000_000
  const MILLION := 1_000_000
  const TWO31 := 0x8000_0000

  /** struct timespec. */
  datatype Time = Time(sec: int, nsec: int)

  function Nanos(t: Time): int {
    t.sec * BILLION + t.nsec
  }

  /** Normalised, and its seconds fit a signed 32-bit word that is not negative. */
  predicate Normal(t: Time) {
    0 <= t.sec < TWO31 && 0 <= t.nsec < BILLION
  }

  /** What a signed 32-bit word keeps of `x`. */
  function Wrap32(x: int): int {
    (x + TWO31) % (2 * TWO31) - TWO31
  }

  /** The deadline that LocTimer::start works out, in the widths it works in. */
  function Deadline(now: Time, timeOutInMs: nat): Time {
    var sec := Wrap32(now.sec + timeOutInMs / 1000);
    var nsec := Wrap32(now.nsec + (timeOutInMs % 1000) * MILLION);
    if nsec >= BILLION then Time(Wrap32(sec + nsec / BILLION), nsec % BILLION) else Time(sec, nsec)
  }

  /** The deadline is now + ms, normalised, exactly when that moment has a 32-bit second. */
  lemma DeadlineIsExact(now: Time, timeOutInMs: nat)
    requires Normal(now) && timeOutInMs < 0x1_0000_0000
    ensures var due := Nanos(now) + timeOutInMs * MILLION;
            var d := Deadline(now, timeOutInMs);
            Normal(d) && Nanos(d) == due <==> due < TWO31 * BILLION
  {
    var whole := now.sec + timeOutInMs / 1000;
    var part := now.nsec + (timeOutInMs % 1000) * MILLION;
    assert timeOutInMs == 1000 * (timeOutInMs / 1000) + timeOutInMs % 1000;
    assert Nanos(now) + timeOutInMs * MILLION == whole * BILLION + part;
    assert 0 <= part < 2 * BILLION;
    assert Wrap32(part) == part;
    var carry := part / BILLION;
    assert part == carry * BILLION + part % BILLION;
    assert carry == 0 || carry == 1;
    if whole + carry < TWO31 {
      assert Wrap32(whole) == whole && Wrap32(whole + carry) == whole + carry;
    }
  }

  // -------------------------------------------------------------------- timers

  type ClientId = nat

  /** What never changes in a LocTimerDelegate: its address, the client that started it (and whose
      lock it shares), the container it went to (true for alarms) and its deadline. */
  datatype TimerData = TimerData(id: nat, owner: ClientId, con: bool, future: Time)

  /** A deadline of zero seconds and zero nanoseconds would be the disarm value. */
  type Timer = t: TimerData | Normal(t.future) && Nanos(t.future) > 0
    witness TimerData(0, 0, false, Time(1, 0))

  /** LocTimerDelegate::ranks on two instants: whole seconds only, subtracted in 32 bits. */
  function Ranks(mine: Time, other: Time): int {
    Wrap32(other.sec - mine.sec)
  }

  predicate OutRanks(a: Timer, b: Timer) {
    Ranks(a.future, b.future) > 0
  }

  /** The subtraction orders two 32-bit seconds the right way exactly when it does not wrap. */
  lemma RanksIsExact(mine: Time, other: Time)
    requires -TWO31 <= mine.sec < TWO31 && -TWO31 <= other.sec < TWO31
    ensures (Ranks(mine, other) > 0 <==> mine.sec < other.sec)
            <==> -TWO31 <= other.sec - mine.sec < TWO31
  {
    var d := other.sec - mine.sec;
    if d >= TWO31 {
      assert Wrap32(d) == d - 2 * TWO31;
    } else if d < -TWO31 {
      assert Wrap32(d) == d + 2 * TWO31;
    } else {
      assert Wrap32(d) == d;
    }
  }

  /** For timers it never wraps, so ranking is by the second. */
  lemma OutRanksBySecond()
    ensures forall a: Timer, b: Timer :: OutRanks(a, b) <==> a.future.sec < b.future.sec
    ensures RankOrder<Timer>(OutRanks)
  {
    forall a: Timer, b: Timer ensures OutRanks(a, b) <==> a.future.sec < b.future.sec {
      RanksIsExact(a.future, b.future);
    }
  }

  /** The deadline on top is less than one second later than any other in the heap. */
  lemma TopWithinASecond(t: Tree<Timer>, x: Timer)
    requires Ordered(t, OutRanks) && Occurs(t, x) > 0
    ensures t.Node? && Nanos(t.data.future) < Nanos(x.future) + BILLION
  {
    OutRanksBySecond();
    NothingOutranksTop(t, OutRanks);
  }

  // ----------------------------------------------------------------- container

  /** A LocTimerContainer: its heap, whether its fd is in the epoll set, and what its timerfd is
      armed at. */
  datatype Container = Container(heap: Tree<Timer>, polled: bool, armed: Option<Time>)

  function Top(t: Tree<Timer>): Option<Timer> {
    if t.Leaf? then None else Some(t.data)
  }

  /** timerfd_settime: the value zero disarms. */
  function SetTime(c: Container, at: Time): Container {
    c.(armed := if at == Time(0, 0) then None else Some(at))
  }

  /** What updateSoonestTime decides to do. */
  datatype Update = Keep | Disarm | ArmAt(at: Time)

  function Soonest(priorTop: Option<Timer>, curTop: Option<Timer>): Update {
    if curTop == priorTop then Keep
    else if curTop.None? then Disarm
    else if priorTop.None? || OutRanks(curTop.value, priorTop.value) then ArmAt(curTop.value.future)
    else Keep
  }

  /** The epoll half of the update, which comes first. */
  function Watch(c: Container, u: Update): Container {
    if u.Keep? then c else c.(polled := u.ArmAt?)
  }

  /** The timerfd half of the update. */
  function Program(c: Container, u: Update): Container {
    match u
    case Keep => c
    case Disarm => SetTime(c, Time(0, 0))
    case ArmAt(at) => SetTime(c, at)
  }

  /** Whether the drain goes on: the test of popIfOutRanks. */
  predicate Due(t: Tree<Timer>, now: Time) {
    t.Node? && !(Ranks(now, t.data.future) > 0)
  }

  /** What the drain tests is the second: a timer that is due is less than one second early. */
  lemma DueIsBySecond(t: Tree<Timer>, now: Time)
    requires t.Node? && Normal(now)
    ensures Due(t, now) <==> t.data.future.sec <= now.sec
    ensures Due(t, now) ==> Nanos(t.data.future) < Nanos(now) + BILLION
  {
    RanksIsExact(now, t.data.future);
  }
}
