/** camera/QCamera2/HAL/QCameraMem.cpp, QCameraGrallocMemory: preview buffers that go back and forth
    between the camera and the native window. */
module Gralloc {

  /** A buffer_handle_t*; NULL is 0. */
  type Handle = nat

  /** The native window. Each buffer of its is with it (`held`), with the camera, or, when a
      cancel_buffer failed, with nobody (`lost`). It gives out only what it holds; which buffer, and
      whether a cancel_buffer fails, is up to it. `works` says whether a call succeeds. */
  class Window {
    var all: set<Handle>
    var held: set<Handle>
    var lost: set<Handle>

    ghost predicate Valid()
      reads this
    {
      held <= all && lost <= all && held !! lost && 0 !in all
    }

    constructor ()
      ensures Valid() && all == {}
    {
      all, held, lost := {}, {}, {};
    }

    /** `buffers` are the window's new ones. */
    method SetBufferCount(count: nat, buffers: set<Handle>, works: bool)
      requires Valid() && |buffers| == count && 0 !in buffers
      modifies this
      ensures Valid()
      ensures if works then all == buffers == held && lost == {}
              else all == old(all) && held == old(held) && lost == old(lost)
    {
      if works {
        all, held, lost := buffers, buffers, {};
      }
    }

    method EnqueueBuffer(h: Handle, works: bool)
      requires Valid() && h in all - held - lost
      modifies this`held
      ensures Valid() && held == if works then old(held) + {h} else old(held)
    {
      if works {
        held := held + {h};
      }
    }

    /** NULL if the call fails or there is no buffer to give out. */
    method DequeueBuffer(works: bool) returns (h: Handle)
      requires Valid()
      modifies this`held
      ensures Valid() && (h == 0 <==> !works || old(held) == {})
      ensures if h == 0 then held == old(held) else h in old(held) && held == old(held) - {h}
    {
      h := 0;
      if works && held != {} {
        h :| h in held;
        held := held - {h};
      }
    }

    method CancelBuffer(h: Handle)
      requires Valid() && h in all - held - lost
      modifies this`held, this`lost
      ensures Valid() && held + lost == old(held + lost) + {h}
      ensures old(held) <= held && old(lost) <= lost
    {
      var ok: bool := *;
      if ok {
        held := held + {h};
      } else {
        lost := lost + {h};
      }
    }
  }

  ghost predicate Distinct(hs: seq<Handle>) {
    forall i, j :: 0 <= i < j < |hs| ==> hs[i] != hs[j]
  }

  ghost function SetOf(hs: seq<Handle>): set<Handle> {
    set h | h in hs
  }

  lemma {:induction false} AsMany(hs: seq<Handle>)
    requires Distinct(hs)
    ensures |SetOf(hs)| == |hs|
  {
    if hs != [] {
      var last := |hs| - 1;
      AsMany(hs[..last]);
      assert SetOf(hs) == SetOf(hs[..last]) + {hs[last]};
    }
  }

  lemma AllOfThem(hs: seq<Handle>, all: set<Handle>)
    requires Distinct(hs) && SetOf(hs) <= all && |hs| == |all|
    ensures SetOf(hs) == all
  {
    AsMany(hs);
    var rest := all - SetOf(hs);
    assert all == SetOf(hs) + rest;
    assert |rest| == 0;
  }

  lemma SomeLeft(hs: seq<Handle>, all: set<Handle>)
    requires Distinct(hs) && |hs| < |all| && SetOf(hs) <= all
    ensures all - SetOf(hs) != {}
  {
    AsMany(hs);
    var rest := all - SetOf(hs);
    assert all == SetOf(hs) + rest;
    assert |rest| > 0;
  }

  lemma SetOfOneMore(hs: seq<Handle>, k: nat)
    requires k < |hs|
    ensures SetOf(hs[..k + 1]) == SetOf(hs[..k]) + {hs[k]}
  {
    assert hs[..k + 1] == hs[..k] + [hs[k]];
  }

  /** How many flags say OWNED. */
  function Owned(flags: seq<bool>): nat {
    if flags == [] then 0 else (if flags[0] then 1 else 0) + Owned(flags[1..])
  }

  lemma {:induction false} OwnedUpdate(flags: seq<bool>, k: nat, flag: bool)
    requires k < |flags|
    ensures Owned(flags[k := flag]) == Owned(flags) - (if flags[k] then 1 else 0) + (if flag then 1 else 0)
  {
    if k > 0 {
      assert flags[k := flag][1..] == flags[1..][k - 1 := flag];
      OwnedUpdate(flags[1..], k - 1, flag);
    }
  }

  lemma {:induction false} OwnedFrom(flags: seq<bool>, min: nat)
    requires min <= |flags| && forall i :: 0 <= i < |flags| ==> (flags[i] <==> i >= min)
    ensures Owned(flags) == |flags| - min
  {
    if flags != [] {
      OwnedFrom(flags[1..], if min == 0 then 0 else min - 1);
    }
  }

  /** What the calls that allocate() makes come to: set_buffer_count, the other ones before the loop,
      and in how many rounds of it dequeue_buffer, the opening of the ION device and the ION import
      work. Which one fails first decides. */
  datatype Calls = Calls(counts: bool, others: bool, dequeued: nat, ionOpened: nat, ionImported: nat) {

    /** All of the first `n` rounds work. */
    predicate Last(n: nat) {
      n <= dequeued && n <= ionOpened && n <= ionImported
    }

    /** The round that fails after its dequeue_buffer has worked, or -1. */
    function Stranded(count: nat): (at: int)
      requires !Last(count)
      ensures -1 <= at < count
      ensures at >= 0 <==> ionOpened < dequeued || ionImported < dequeued
    {
      var ion := if ionOpened < ionImported then ionOpened else ionImported;
      if ion < dequeued then ion else -1
    }
  }

  datatype Status = NoError | UnknownError
  datatype Dequeued = InvalidOperation | BadIndex | Index(i: nat)

  class QCameraGrallocMemory {
    const window: Window
    const mBufferHandle: array<Handle>
    const mLocalFlag: array<bool>
    var mBufferCount: nat

    ghost predicate Valid()
      reads this, window
    {
      && window.Valid()
      && mBufferHandle.Length == mLocalFlag.Length && mBufferCount <= mBufferHandle.Length
    }

    /** The buffers in use are the window's, all of them, and a flag says OWNED exactly when the
        window does not have the buffer and it is not lost. */
    ghost predicate Partitioned()
      requires Valid()
      reads this, window, mBufferHandle, mLocalFlag
    {
      && Distinct(mBufferHandle[..mBufferCount])
      && SetOf(mBufferHandle[..mBufferCount]) == window.all
      && (forall i :: 0 <= i < mBufferCount ==> (mLocalFlag[i] <==> mBufferHandle[i] !in window.held + window.lost))
      && (forall i :: mBufferCount <= i < mLocalFlag.Length ==> !mLocalFlag[i])
    }

    constructor (window: Window, frames: nat)
      requires window.Valid()
      ensures Valid() && this.window == window && mBufferCount == 0
      ensures fresh(mBufferHandle) && fresh(mLocalFlag) && mLocalFlag.Length == frames
      ensures forall i :: 0 <= i < frames ==> !mLocalFlag[i]
    {
      this.window, mBufferCount := window, 0;
      mBufferHandle := new Handle[frames](_ => 0);
      mLocalFlag := new bool[frames](_ => false);
    }

    /** `enqueues` and `dequeues` say whether the two calls to the window work. */
    method DisplayBuffer(index: nat, enqueues: bool, dequeues: bool) returns (r: Dequeued)
      requires Valid() && Partitioned() && index < mLocalFlag.Length
      modifies mLocalFlag, window`held
      ensures Valid() && Partitioned()
      ensures r == InvalidOperation <==> !old(mLocalFlag[index])
      ensures r.Index? <==> old(mLocalFlag[index]) && dequeues && (enqueues || old(window.held) != {})
      ensures r == InvalidOperation ==> mLocalFlag[..] == old(mLocalFlag[..]) && window.held == old(window.held)
      ensures r != InvalidOperation ==>
                var sent := if enqueues then old(mLocalFlag[..])[index := false] else old(mLocalFlag[..]);
                var held := if enqueues then old(window.held) + {mBufferHandle[index]} else old(window.held);
                && mLocalFlag[..] == (if r.Index? && r.i < |sent| then sent[r.i := true] else sent)
                && window.held == (if r.Index? && r.i < |sent| then held - {mBufferHandle[r.i]} else held)
      ensures r.Index? ==>
                r.i < mBufferCount && (old(mLocalFlag[r.i]) ==> enqueues && r.i == index)
      ensures Owned(mLocalFlag[..]) == Owned(old(mLocalFlag[..]))
                                       - (if old(mLocalFlag[index]) && enqueues then 1 else 0)
                                       + (if r.Index? then 1 else 0)
    {
      if !mLocalFlag[index] {
        return InvalidOperation;
      }
      Send(index, enqueues);
      r := Accept(dequeues);
    }

    /** The first half: an owned buffer goes to the window. */
    method Send(index: nat, enqueues: bool)
      requires Valid() && Partitioned() && index < mLocalFlag.Length && mLocalFlag[index]
      modifies mLocalFlag, window`held
      ensures Valid() && Partitioned()
      ensures mLocalFlag[..] == if enqueues then old(mLocalFlag[..])[index := false] else old(mLocalFlag[..])
      ensures window.held == if enqueues then old(window.held) + {mBufferHandle[index]} else old(window.held)
      ensures Owned(mLocalFlag[..]) == Owned(old(mLocalFlag[..])) - (if enqueues then 1 else 0)
    {
      assert mBufferHandle[index] in SetOf(mBufferHandle[..mBufferCount]);
      window.EnqueueBuffer(mBufferHandle[index], enqueues);
      if enqueues {
        OwnedUpdate(mLocalFlag[..], index, false);
        mLocalFlag[index] := false;
      }
    }

    /** The second half: a buffer comes back, and its flag is found by its handle. */
    method Accept(dequeues: bool) returns (r: Dequeued)
      requires Valid() && Partitioned()
      modifies mLocalFlag, window`held
      ensures Valid() && Partitioned() && r != InvalidOperation
      ensures r.Index? <==> dequeues && old(window.held) != {}
      ensures r.Index? ==>
                && r.i < mBufferCount && !old(mLocalFlag[r.i])
                && window.held == old(window.held) - {mBufferHandle[r.i]}
                && mLocalFlag[..] == old(mLocalFlag[..])[r.i := true]
      ensures !r.Index? ==> mLocalFlag[..] == old(mLocalFlag[..]) && window.held == old(window.held)
      ensures Owned(mLocalFlag[..]) == Owned(old(mLocalFlag[..])) + (if r.Index? then 1 else 0)
    {
      var handle := window.DequeueBuffer(dequeues);
      if handle == 0 {
        return BadIndex;
      }
      assert handle in SetOf(mBufferHandle[..mBufferCount]);
      var i := 0;
      while i < mBufferCount
        invariant 0 <= i <= mBufferCount
        invariant forall k :: 0 <= k < i ==> mBufferHandle[k] != handle
      {
        if mBufferHandle[i] == handle {
          OwnedUpdate(mLocalFlag[..], i, true);
          mLocalFlag[i] := true;
          assert forall k :: 0 <= k < mBufferCount && k != i ==> mBufferHandle[..mBufferCount][k] != handle;
          return Index(i);
        }
        i := i + 1;
      }
      assert false;
      return BadIndex;
    }

    /** Slots below `n` have distinct buffers of the window; those flagged are the camera's. */
    ghost predicate Cancellable(hs: seq<Handle>, from: nat, n: nat)
      requires Valid()
      reads this, window, mLocalFlag
    {
      && n <= mLocalFlag.Length && n == |hs| && from <= n
      && Distinct(hs) && SetOf(hs) <= window.all
      && (forall i :: 0 <= i < from ==> hs[i] in window.held + window.lost)
      && (forall i :: from <= i < n ==> (mLocalFlag[i] <==> hs[i] !in window.held + window.lost))
    }

    method CancelIfOwned(i: nat, ghost hs: seq<Handle>)
      requires Valid() && Cancellable(hs, i, |hs|) && i < |hs| && mBufferHandle[i] == hs[i]
      modifies mLocalFlag, window`held, window`lost
      ensures Valid() && Cancellable(hs, i + 1, |hs|)
      ensures mLocalFlag[..] == old(mLocalFlag[..])[i := false]
      ensures window.held + window.lost == old(window.held + window.lost) + {hs[i]}
    {
      assert hs[i] in SetOf(hs);
      if mLocalFlag[i] {
        window.CancelBuffer(mBufferHandle[i]);
      }
      mLocalFlag[i] := false;
    }

    /** The clean-up of allocate(): the first `n` buffers go back. */
    method CancelFirst(n: nat)
      requires Valid() && n <= mBufferHandle.Length && Cancellable(mBufferHandle[..n], 0, n)
      requires forall i :: 0 <= i < n ==> mLocalFlag[i]
      modifies mBufferHandle, mLocalFlag, window`held, window`lost
      ensures Valid() && window.held + window.lost == old(window.held + window.lost) + old(SetOf(mBufferHandle[..n]))
      ensures forall i :: 0 <= i < n ==> !mLocalFlag[i] && mBufferHandle[i] == 0
      ensures forall i :: n <= i < mLocalFlag.Length ==>
                mLocalFlag[i] == old(mLocalFlag[i]) && mBufferHandle[i] == old(mBufferHandle[i])
    {
      ghost var hs := mBufferHandle[..n];
      var i := 0;
      while i < n
        invariant 0 <= i <= n && Valid() && Cancellable(hs, i, n)
        invariant window.held + window.lost == old(window.held + window.lost) + SetOf(hs[..i])
        invariant forall k :: 0 <= k < i ==> !mLocalFlag[k] && mBufferHandle[k] == 0
        invariant forall k :: i <= k < n ==> mBufferHandle[k] == hs[k]
        invariant forall k :: n <= k < mLocalFlag.Length ==>
                    mLocalFlag[k] == old(mLocalFlag[k]) && mBufferHandle[k] == old(mBufferHandle[k])
      {
        SetOfOneMore(hs, i);
        CancelIfOwned(i, hs);
        mBufferHandle[i] := 0;
        i := i + 1;
      }
      assert hs[..n] == hs;
    }

    method Deallocate()
      requires Valid() && Partitioned()
      modifies this, mLocalFlag, window`held, window`lost
      ensures Valid() && mBufferCount == 0 && forall i :: 0 <= i < mLocalFlag.Length ==> !mLocalFlag[i]
      ensures window.held + window.lost == window.all
    {
      ghost var hs := mBufferHandle[..mBufferCount];
      var cnt := 0;
      while cnt < mBufferCount
        invariant 0 <= cnt <= mBufferCount == |hs| && Valid() && Cancellable(hs, cnt, |hs|)
        invariant forall i :: 0 <= i < cnt || mBufferCount <= i < mLocalFlag.Length ==> !mLocalFlag[i]
      {
        CancelIfOwned(cnt, hs);
        cnt := cnt + 1;
      }
      mBufferCount := 0;
    }

    /** What the loop of allocate() has done after `cnt` rounds. */
    ghost predicate Loaded(cnt: nat)
      requires Valid()
      reads this, window, mBufferHandle, mLocalFlag
    {
      && cnt <= mBufferHandle.Length && window.lost == {}
      && Distinct(mBufferHandle[..cnt]) && SetOf(mBufferHandle[..cnt]) <= window.all
      && window.held == window.all - SetOf(mBufferHandle[..cnt])
      && (forall i :: 0 <= i < cnt ==> mLocalFlag[i])
      && (forall i :: cnt <= i < mLocalFlag.Length ==> !mLocalFlag[i])
    }

    /** One round's dequeue_buffer. The window has a buffer left for it. */
    method DequeueOne(cnt: nat, works: bool) returns (ok: bool)
      requires Valid() && Loaded(cnt) && cnt < mBufferHandle.Length && cnt < |window.all|
      modifies mBufferHandle, mLocalFlag, window`held
      ensures Valid() && ok == works && Loaded(if ok then cnt + 1 else cnt)
    {
      ghost var hs := mBufferHandle[..cnt];
      SomeLeft(hs, window.all);
      var handle := window.DequeueBuffer(works);
      if handle == 0 {
        mLocalFlag[cnt] := false;
        return false;
      }
      mBufferHandle[cnt] := handle;
      mLocalFlag[cnt] := true;
      assert mBufferHandle[..cnt + 1] == hs + [handle];
      SetOfOneMore(mBufferHandle[..cnt + 1], cnt);
      assert mBufferHandle[..cnt + 1][..cnt] == hs;
      return true;
    }

    /** Nothing is with the camera but the buffer of slot `at`, if that is a slot. */
    ghost predicate GivenBack(at: int)
      requires Valid()
      reads this, window, mBufferHandle, mLocalFlag
    {
      && (forall i :: 0 <= i < mLocalFlag.Length ==> (mLocalFlag[i] <==> i == at))
      && window.all - window.held - window.lost
         == if 0 <= at < mBufferHandle.Length then {mBufferHandle[at]} else {}
    }

    /** The ION device is opened and the buffer imported, or what came before is given back. */
    method ImportOne(cnt: nat, opens: bool, imports: bool) returns (ok: bool)
      requires Valid() && cnt < mBufferHandle.Length && Loaded(cnt + 1)
      modifies mBufferHandle, mLocalFlag, window`held, window`lost
      ensures Valid() && ok == (opens && imports)
      ensures if ok then Loaded(cnt + 1) else GivenBack(cnt)
    {
      ok := opens && imports;
      if !ok {
        ghost var hs := mBufferHandle[..cnt + 1];
        SetOfOneMore(hs, cnt);
        assert hs[..cnt] == mBufferHandle[..cnt];
        assert forall i :: 0 <= i < cnt ==> hs[i] in SetOf(hs);
        CancelFirst(cnt);
        assert hs[cnt] in SetOf(hs);
      }
    }

    method DequeueAll(count: nat, calls: Calls) returns (rc: Status)
      requires Valid() && Loaded(0) && count <= mBufferHandle.Length && |window.all| == count
      modifies mBufferHandle, mLocalFlag, window`held, window`lost
      ensures Valid() && (rc == NoError <==> calls.Last(count))
      ensures if rc == NoError then Loaded(count) else GivenBack(calls.Stranded(count))
    {
      var cnt := 0;
      while cnt < count
        invariant 0 <= cnt <= count && Valid() && Loaded(cnt) && window.all == old(window.all) && calls.Last(cnt)
      {
        var ok := DequeueOne(cnt, cnt < calls.dequeued);
        if !ok {
          CancelFirst(cnt);
          return UnknownError;
        }
        ok := ImportOne(cnt, cnt < calls.ionOpened, cnt < calls.ionImported);
        if !ok {
          return UnknownError;
        }
        cnt := cnt + 1;
      }
      return NoError;
    }

    /** On failure everything goes back to the window but the buffer of the failing round, if that is
        one whose dequeue_buffer worked: it is neither used nor given back. */
    method Allocate(count: nat, minUndequeued: nat, buffers: set<Handle>, calls: Calls) returns (rc: Status)
      requires Valid() && mBufferCount == 0 && GivenBack(-1)
      requires minUndequeued <= count <= mBufferHandle.Length && |buffers| == count && 0 !in buffers
      modifies this, mBufferHandle, mLocalFlag, window
      ensures Valid() && mBufferCount == if rc == NoError then count else 0
      ensures rc == NoError <==>
                && calls.counts && calls.others
                && count <= calls.dequeued && count <= calls.ionOpened && count <= calls.ionImported
      ensures rc == UnknownError ==>
                var round := if calls.ionOpened < calls.ionImported then calls.ionOpened else calls.ionImported;
                GivenBack(if calls.counts && calls.others && round < calls.dequeued then round else -1)
      ensures calls.counts ==> window.all == buffers
      ensures rc == NoError ==> Partitioned() && Owned(mLocalFlag[..count]) == count - minUndequeued
      ensures rc == NoError ==> forall i :: 0 <= i < count ==> (mLocalFlag[i] <==> i >= minUndequeued)
    {
      var ok := SetUp(count, buffers, calls);
      if !ok {
        return UnknownError;
      }
      rc := DequeueAll(count, calls);
      if rc == NoError {
        mBufferCount := count;
        AllOfThem(mBufferHandle[..count], window.all);
        GiveBack(minUndequeued);
        OwnedFrom(mLocalFlag[..count], minUndequeued);
      }
    }

    /** The calls to the window that come before the loop. */
    method SetUp(count: nat, buffers: set<Handle>, calls: Calls) returns (ok: bool)
      requires Valid() && GivenBack(-1) && |buffers| == count && 0 !in buffers
      modifies window
      ensures Valid() && ok == (calls.counts && calls.others)
      ensures if ok then Loaded(0) else GivenBack(-1)
      ensures calls.counts ==> window.all == buffers
    {
      window.SetBufferCount(count, buffers, calls.counts);
      return calls.counts && calls.others;
    }

    /** min_undequeued_buffer buffers go back to the window. */
    method GiveBack(minUndequeued: nat)
      requires Valid() && Partitioned() && minUndequeued <= mBufferCount
      requires forall i :: 0 <= i < mBufferCount ==> mLocalFlag[i]
      modifies mLocalFlag, window`held, window`lost
      ensures Valid() && Partitioned()
      ensures forall i :: 0 <= i < mBufferCount ==> (mLocalFlag[i] <==> i >= minUndequeued)
    {
      ghost var hs := mBufferHandle[..mBufferCount];
      var i := 0;
      while i < minUndequeued
        invariant 0 <= i <= minUndequeued && Valid() && Cancellable(hs, i, |hs|)
        invariant forall k :: 0 <= k < mBufferCount ==> (mLocalFlag[k] <==> k >= i)
        invariant forall k :: mBufferCount <= k < mLocalFlag.Length ==> !mLocalFlag[k]
      {
        CancelIfOwned(i, hs);
        i := i + 1;
      }
    }
  }

  /** Two buffers, and an ION import that fails in the second round: one buffer is left with the camera,
      flagged as owned, while the object says that it has none. */
  method StrandsOne() returns (memory: QCameraGrallocMemory, rc: Status)
    ensures fresh(memory) && memory.Valid() && memory.mLocalFlag.Length == 2
    ensures rc == UnknownError && memory.mBufferCount == 0
    ensures memory.mLocalFlag[..] == [false, true]
    ensures memory.window.all == {1, 2}
    ensures memory.window.all - memory.window.held - memory.window.lost == {memory.mBufferHandle[1]}
  {
    var window := new Window();
    memory := new QCameraGrallocMemory(window, 2);
    rc := memory.Allocate(2, 0, {1, 2}, Calls(true, true, 2, 2, 1));
  }
}
