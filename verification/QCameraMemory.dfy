/** camera/QCamera2/HAL/QCameraMem.cpp as it is written: lists and arrays changed in place, loop by
    loop. MemoryPool and MemoryRuns say what the loops amount to. */
module QCameraMemories {
  import opened Wrappers
  import opened MemoryPool
  import MemoryRuns

  class IonDevice {
    var state: Ion

    constructor (room: nat)
      ensures state == Ion({}, 1, room, false)
    {
      state := Ion({}, 1, room, false);
    }

    method AllocOneBuffer(want: Want) returns (made: Option<MemInfo>)
      modifies this
      ensures made == Taken(Direct(old(state)), want)
      ensures Direct(state) == AfterTake(Direct(old(state)), want)
    {
      if state.room == 0 {
        return None;
      }
      made := Some(Made(state, want));
      state := AfterMake(state);
    }

    method DeallocOneBuffer(info: MemInfo) returns (left: MemInfo)
      modifies this
      ensures state == AfterFree(old(state), info)
      ensures left == Left(Direct(old(state)), info)
      ensures left == info.(handle := 0, size := 0) && AfterFree(state, left) == state
    {
      state := AfterFree(state, info);
      return info.(handle := 0, size := 0);
    }
  }

  class QCameraMemoryPool {
    const ion: IonDevice
    var mPools: seq<seq<MemInfo>>

    constructor (ion: IonDevice, streamTypes: nat)
      ensures this.ion == ion && mPools == MemoryRuns.Empty(streamTypes)
    {
      this.ion, mPools := ion, seq(streamTypes, _ => []);
    }

    ghost function SourceAt(streamType: nat): Source
      requires streamType < |mPools|
      reads this, ion
    {
      Pooled(ion.state, mPools[streamType])
    }

    method FindBufferLocked(want: Want, streamType: nat) returns (memInfo: Option<MemInfo>)
      requires streamType < |mPools|
      modifies this
      ensures var list := old(mPools[streamType]);
              var k := FirstFit(list, want);
              if k == |list| then memInfo == None && mPools == old(mPools)
              else memInfo == Some(list[k]) && mPools == old(mPools)[streamType := list[..k] + list[k + 1..]]
      ensures match memInfo
              case Some(found) =>
                && found in old(mPools[streamType])
                && found.size >= want.size && found.heapId == want.heapId && found.cached == want.cached
              case None =>
                forall info :: info in old(mPools[streamType]) ==>
                  info.size < want.size || info.heapId != want.heapId || info.cached != want.cached
    {
      var list := mPools[streamType];
      var it := 0;
      while it < |list|
        invariant 0 <= it <= |list| && mPools == old(mPools)
        invariant forall i :: 0 <= i < it ==> !Fits(list[i], want)
      {
        if Fits(list[it], want) {
          mPools := mPools[streamType := list[..it] + list[it + 1..]];
          return Some(list[it]);
        }
        it := it + 1;
      }
      return None;
    }

    method AllocateBuffer(want: Want, streamType: nat) returns (memInfo: Option<MemInfo>)
      requires streamType < |mPools|
      modifies this, ion
      ensures |mPools| == |old(mPools)| && mPools == old(mPools)[streamType := mPools[streamType]]
      ensures memInfo == Taken(old(SourceAt(streamType)), want)
      ensures SourceAt(streamType) == AfterTake(old(SourceAt(streamType)), want)
      ensures (exists info :: info in old(mPools[streamType])
                && info.size >= want.size && info.heapId == want.heapId && info.cached == want.cached) ==>
                memInfo.Some? && memInfo.value in old(mPools[streamType]) && ion.state == old(ion.state)
      ensures memInfo == None ==> old(ion.state).room == 0
    {
      memInfo := FindBufferLocked(want, streamType);
      if memInfo == None {
        memInfo := ion.AllocOneBuffer(want);
      }
    }

    method ReleaseBuffer(memInfo: MemInfo, streamType: nat)
      requires streamType < |mPools|
      modifies this
      ensures mPools == old(mPools)[streamType := old(mPools[streamType]) + [memInfo]]
    {
      mPools := mPools[streamType := mPools[streamType] + [memInfo]];
    }

    method Clear()
      modifies this, ion
      ensures forall objects :: MemoryRuns.System(ion.state, mPools, objects)
                             == MemoryRuns.Cleared(MemoryRuns.System(old(ion.state), old(mPools), objects))
    {
      ghost var pools := mPools;
      ghost var end := MemoryRuns.Freed(ion.state, MemoryRuns.Flat(pools));
      var i := 0;
      while i < |mPools|
        invariant 0 <= i <= |mPools| == |pools|
        invariant forall k :: 0 <= k < i ==> mPools[k] == []
        invariant mPools[i..] == pools[i..]
        invariant MemoryRuns.Freed(ion.state, MemoryRuns.Flat(pools[i..])) == end
      {
        var list := mPools[i];
        ghost var rest := MemoryRuns.Flat(pools[i + 1..]);
        assert pools[i..][0] == list && pools[i..][1..] == pools[i + 1..];
        var it := 0;
        while it < |list|
          modifies ion
          invariant 0 <= it <= |list|
          invariant MemoryRuns.Freed(ion.state, list[it..] + rest) == end
        {
          assert (list[it..] + rest)[1..] == list[it + 1..] + rest;
          var left := ion.DeallocOneBuffer(list[it]);
          it := it + 1;
        }
        assert list[it..] + rest == rest;
        mPools := mPools[i := []];
        i := i + 1;
      }
      assert mPools == MemoryRuns.Empty(|pools|);
    }
  }

  class QCameraMemory {
    const ion: IonDevice
    const pool: QCameraMemoryPool?
    const streamType: nat
    const heapId: nat
    const cached: bool
    const mMemInfo: array<MemInfo>
    var mBufferCount: nat

    ghost function Footprint(): set<object> {
      if pool == null then {mMemInfo, ion} else {mMemInfo, ion, pool}
    }

    ghost predicate Valid()
      reads this, pool
    {
      && (pool != null ==> pool.ion == ion && streamType < |pool.mPools|)
      && mBufferCount <= mMemInfo.Length
    }

    /** The pool's lists of the other stream types are as they were. */
    twostate predicate OnlyOwnList()
      reads this, pool
    {
      pool != null ==>
        && |pool.mPools| == |old(pool.mPools)| && old(streamType < |pool.mPools|)
        && pool.mPools == old(pool.mPools)[streamType := pool.mPools[streamType]]
    }

    ghost function State(): Holding
      requires Valid()
      reads this, pool, ion, mMemInfo
    {
      Holding(if pool == null then Direct(ion.state) else Pooled(ion.state, pool.mPools[streamType]), mMemInfo[..])
    }

    constructor (ion: IonDevice, pool: QCameraMemoryPool?, streamType: nat, heapId: nat, cached: bool, frames: nat)
      requires pool != null ==> pool.ion == ion && streamType < |pool.mPools|
      ensures Valid() && mBufferCount == 0 && fresh(mMemInfo) && mMemInfo.Length == frames
      ensures this.ion == ion && this.pool == pool && this.streamType == streamType
      ensures this.heapId == heapId && this.cached == cached
    {
      this.ion, this.pool, this.streamType := ion, pool, streamType;
      this.heapId, this.cached, mBufferCount := heapId, cached, 0;
      mMemInfo := new MemInfo[frames](_ => MemInfo(0, 0, 0, false));
    }

    /** One slot gives its buffer back. */
    method Release(j: nat)
      requires Valid() && j < mMemInfo.Length
      modifies Footprint()
      ensures Valid() && OnlyOwnList() && mBufferCount == old(mBufferCount)
      ensures State() == PutSlot(old(State()), j)
    {
      if pool == null {
        var left := ion.DeallocOneBuffer(mMemInfo[j]);
        mMemInfo[j] := left;
      } else {
        pool.ReleaseBuffer(mMemInfo[j], streamType);
      }
    }

    method Take(i: nat, want: Want) returns (ok: bool)
      requires Valid() && i < mMemInfo.Length
      modifies Footprint()
      ensures Valid() && OnlyOwnList() && mBufferCount == old(mBufferCount)
      ensures var h := old(State());
              match Taken(h.src, want)
              case Some(info) => ok && State() == Holding(AfterTake(h.src, want), h.slots[i := info])
              case None => !ok && State() == h
    {
      var memInfo;
      if pool == null {
        memInfo := ion.AllocOneBuffer(want);
      } else {
        memInfo := pool.AllocateBuffer(want, streamType);
      }
      if memInfo == None {
        return false;
      }
      mMemInfo[i] := memInfo.value;
      return true;
    }

    method Alloc(count: int, size: nat) returns (rc: MemoryRuns.Status)
      requires Valid()
      modifies Footprint()
      ensures Valid() && OnlyOwnList() && mBufferCount == old(mBufferCount)
      ensures if count < 0 || mBufferCount + count > mMemInfo.Length then
                rc == MemoryRuns.BadIndex && State() == old(State())
              else
                var r := Filled(old(State()), mBufferCount, mBufferCount + count, Want(size, heapId, cached));
                rc == (if r.ok then MemoryRuns.NoError else MemoryRuns.NoMemory) && State() == r.holding
    {
      if 0 > count {
        return MemoryRuns.BadIndex;
      }
      var newBufCnt := mBufferCount + count;
      if newBufCnt > mMemInfo.Length {
        return MemoryRuns.BadIndex;
      }
      var want := Want(size, heapId, cached);
      ghost var end := Filled(State(), mBufferCount, newBufCnt, want);
      var i := mBufferCount;
      while i < newBufCnt
        invariant 0 <= i <= newBufCnt && Valid() && OnlyOwnList() && mBufferCount == old(mBufferCount)
        invariant Filled(State(), i, newBufCnt, want) == end
      {
        var ok := Take(i, want);
        if !ok {
          RollBack(i);
          return MemoryRuns.NoMemory;
        }
        i := i + 1;
      }
      return MemoryRuns.NoError;
    }

    method RollBack(i: nat)
      requires Valid() && i <= mMemInfo.Length
      modifies Footprint()
      ensures Valid() && OnlyOwnList() && mBufferCount == old(mBufferCount)
      ensures State() == RolledBack(old(State()), i)
    {
      var j := i;
      while j > 0
        invariant 0 <= j <= i && Valid() && OnlyOwnList() && mBufferCount == old(mBufferCount)
        invariant RolledBack(State(), j) == RolledBack(old(State()), i)
      {
        j := j - 1;
        Release(j);
      }
    }

    method Dealloc()
      requires Valid()
      modifies Footprint()
      ensures Valid() && OnlyOwnList() && mBufferCount == old(mBufferCount)
      ensures State() == Released(old(State()), 0, mBufferCount)
    {
      var i := 0;
      while i < mBufferCount
        invariant 0 <= i <= mBufferCount && Valid() && OnlyOwnList() && mBufferCount == old(mBufferCount)
        invariant Released(State(), i, mBufferCount) == Released(old(State()), 0, mBufferCount)
      {
        Release(i);
        i := i + 1;
      }
    }

    /** This object, its pool and the device, as a system of one. */
    ghost function Alone(): MemoryRuns.System
      reads this, pool, ion, mMemInfo
    {
      MemoryRuns.System(ion.state, if pool == null then [] else pool.mPools,
        [MemoryRuns.Object(mMemInfo[..], mBufferCount, heapId, cached, pool != null, streamType)])
    }

    lemma AloneIsState()
      requires Valid()
      ensures MemoryRuns.WellFormed(Alone())
      ensures var s := Alone();
              MemoryPool.Holding(MemoryRuns.SourceOf(s, s.objects[0]), s.objects[0].slots) == State()
    {
    }

    lemma AllocatedAsAsked(count: nat, size: nat)
      requires Valid() && mBufferCount + count <= mMemInfo.Length
      ensures var r := Filled(State(), mBufferCount, mBufferCount + count, Want(size, heapId, cached));
              && (!r.ok ==> r.holding.src.ion.room == 0)
              && (r.ok && size <= 0xFFFF_F000 ==>
                    forall k :: mBufferCount <= k < mBufferCount + count ==>
                      && r.holding.slots[k].size >= size
                      && r.holding.slots[k].heapId == heapId
                      && r.holding.slots[k].cached == cached)
    {
      var want, end := Want(size, heapId, cached), mBufferCount + count;
      FailsForRoom(State(), mBufferCount, end, want);
      if size <= 0xFFFF_F000 && Filled(State(), mBufferCount, end, want).ok {
        FillFits(State(), mBufferCount, end, want);
      }
    }

    /** allocate() of QCameraStreamMemory and QCameraHeapMemory. */
    method Allocate(count: nat, size: nat) returns (rc: MemoryRuns.Status)
      requires Valid()
      modifies this, Footprint()
      ensures Valid()
      ensures rc == MemoryRuns.AllocStatus(old(Alone()), old(Alone()).objects[0], count, size)
      ensures Alone() == MemoryRuns.Allocated(old(Alone()), 0, count, size, false)
      ensures rc == MemoryRuns.BadIndex <==> old(mBufferCount) + count > mMemInfo.Length
      ensures rc == MemoryRuns.NoMemory ==> ion.state.room == 0
      ensures mBufferCount == if rc == MemoryRuns.NoError then count else old(mBufferCount)
      ensures rc == MemoryRuns.NoError && size <= 0xFFFF_F000 ==>
                forall k :: old(mBufferCount) <= k < old(mBufferCount) + count ==>
                  mMemInfo[k].size >= size && mMemInfo[k].heapId == heapId && mMemInfo[k].cached == cached
    {
      AloneIsState();
      if mBufferCount + count <= mMemInfo.Length {
        AllocatedAsAsked(count, size);
      }
      rc := Alloc(count, size);
      if rc == MemoryRuns.NoError {
        mBufferCount := count;
      }
    }

    method AllocateMore(count: nat, size: nat) returns (rc: MemoryRuns.Status)
      requires Valid()
      modifies this, Footprint()
      ensures Valid()
      ensures rc == MemoryRuns.AllocStatus(old(Alone()), old(Alone()).objects[0], count, size)
      ensures Alone() == MemoryRuns.Allocated(old(Alone()), 0, count, size, true)
      ensures rc == MemoryRuns.BadIndex <==> old(mBufferCount) + count > mMemInfo.Length
      ensures rc == MemoryRuns.NoMemory ==> ion.state.room == 0
      ensures mBufferCount == if rc == MemoryRuns.NoError then old(mBufferCount) + count else old(mBufferCount)
      ensures rc == MemoryRuns.NoError && size <= 0xFFFF_F000 ==>
                forall k :: old(mBufferCount) <= k < old(mBufferCount) + count ==>
                  mMemInfo[k].size >= size && mMemInfo[k].heapId == heapId && mMemInfo[k].cached == cached
    {
      AloneIsState();
      if mBufferCount + count <= mMemInfo.Length {
        AllocatedAsAsked(count, size);
      }
      rc := Alloc(count, size);
      if rc == MemoryRuns.NoError {
        mBufferCount := mBufferCount + count;
      }
    }

    method Deallocate()
      requires Valid()
      modifies this, Footprint()
      ensures Valid() && Alone() == MemoryRuns.Deallocated(old(Alone()), 0)
    {
      Dealloc();
      mBufferCount := 0;
    }
  }
}
