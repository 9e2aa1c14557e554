/** camera/QCamera2/HAL/QCameraMem.cpp: ION buffers, held by memory objects or kept for reuse in the
    lists of a pool. This is the specification; the code that changes arrays and lists in place is
    in QCameraMemories. */
module MemoryPool {
  import opened Wrappers
  import opened Counting

  /** QCameraMemInfo; handle 0 is none. */
  datatype MemInfo = MemInfo(handle: nat, size: nat, heapId: nat, cached: bool)

  datatype Want = Want(size: nat, heapId: nat, cached: bool)

  /** The kernel's side: the buffers that exist, the next new handle, how many more buffers there is
      memory for, and whether something that does not exist was ever freed. */
  datatype Ion = Ion(live: set<nat>, next: nat, room: nat, fault: bool)

  /** Where a memory object gets buffers: straight from ION, or from its stream type's list first. */
  datatype Source = Direct(ion: Ion) | Pooled(ion: Ion, list: seq<MemInfo>)

  /** The mask is 32 bits wide, and so is what is left of the sum. */
  function PageAligned(size: nat): nat {
    (size + 4095) % 0x1_0000_0000 / 4096 * 4096
  }

  /** A new buffer is as large as asked, up to a page less than 4 GB, and no further. */
  lemma AlignedIsEnough(size: nat)
    ensures PageAligned(size) % 4096 == 0
    ensures PageAligned(size) >= size <==> size <= 0xFFFF_F000
    ensures size <= 0xFFFF_F000 ==> PageAligned(size) < size + 4096
  {
  }

  predicate Fits(info: MemInfo, want: Want) {
    info.size >= want.size && info.heapId == want.heapId && info.cached == want.cached
  }

  /** findBufferLocked(): the position of the first buffer that fits, or the length. */
  function FirstFit(list: seq<MemInfo>, want: Want): (k: nat)
    ensures k <= |list| && (k < |list| ==> Fits(list[k], want))
    ensures forall i :: 0 <= i < k ==> !Fits(list[i], want)
  {
    if list == [] || Fits(list[0], want) then 0 else 1 + FirstFit(list[1..], want)
  }

  /** allocOneBuffer(). */
  function Made(ion: Ion, want: Want): MemInfo {
    MemInfo(ion.next, PageAligned(want.size), want.heapId, want.cached)
  }

  function AfterMake(ion: Ion): Ion
    requires ion.room > 0
  {
    ion.(live := ion.live + {ion.next}, next := ion.next + 1, room := ion.room - 1)
  }

  /** deallocOneBuffer(). */
  function AfterFree(ion: Ion, info: MemInfo): Ion {
    if info.handle == 0 then ion
    else ion.(live := ion.live - {info.handle}, fault := ion.fault || info.handle !in ion.live)
  }

  /** allocateBuffer(), or allocOneBuffer() for an object without a pool. */
  function Taken(src: Source, want: Want): Option<MemInfo> {
    if src.Pooled? && FirstFit(src.list, want) < |src.list| then Some(src.list[FirstFit(src.list, want)])
    else if src.ion.room > 0 then Some(Made(src.ion, want))
    else None
  }

  function AfterTake(src: Source, want: Want): Source {
    if src.Pooled? && FirstFit(src.list, want) < |src.list| then
      var k := FirstFit(src.list, want); src.(list := src.list[..k] + src.list[k + 1..])
    else if src.ion.room > 0 then src.(ion := AfterMake(src.ion))
    else src
  }

  /** releaseBuffer(), or deallocOneBuffer(). */
  function AfterPut(src: Source, info: MemInfo): Source {
    match src
    case Direct(ion) => Direct(AfterFree(ion, info))
    case Pooled(ion, list) => Pooled(ion, list + [info])
  }

  /** What a slot says when its buffer was given back: only deallocOneBuffer() clears it. */
  function Left(src: Source, info: MemInfo): MemInfo {
    if src.Direct? then info.(handle := 0, size := 0) else info
  }

  datatype Holding = Holding(src: Source, slots: seq<MemInfo>)

  /** Slot `j` gives its buffer back. */
  function PutSlot(h: Holding, j: nat): (r: Holding)
    requires j < |h.slots|
    ensures |r.slots| == |h.slots|
  {
    Holding(AfterPut(h.src, h.slots[j]), h.slots[j := Left(h.src, h.slots[j])])
  }

  /** dealloc(): slots `i` to `n`, upwards. */
  function Released(h: Holding, i: nat, n: nat): (r: Holding)
    requires i <= n <= |h.slots|
    ensures |r.slots| == |h.slots|
    decreases n - i
  {
    if i == n then h else Released(PutSlot(h, i), i + 1, n)
  }

  /** alloc() giving up: slots below `j`, downwards. */
  function RolledBack(h: Holding, j: nat): (r: Holding)
    requires j <= |h.slots|
    ensures |r.slots| == |h.slots|
    decreases j
  {
    if j == 0 then h else RolledBack(PutSlot(h, j - 1), j - 1)
  }

  datatype Filling = Filling(ok: bool, holding: Holding)

  /** The loop of alloc(), from slot `i`. */
  function Filled(h: Holding, i: nat, end: nat, want: Want): (r: Filling)
    requires i <= end <= |h.slots|
    ensures |r.holding.slots| == |h.slots|
    decreases end - i
  {
    if i == end then Filling(true, h)
    else match Taken(h.src, want)
      case Some(info) => Filled(Holding(AfterTake(h.src, want), h.slots[i := info]), i + 1, end, want)
      case None => Filling(false, RolledBack(h, i))
  }

  // ---------------------------------------------------------------- one place for every buffer

  function HandleOf(info: MemInfo): nat {
    info.handle
  }

  lemma CountSplit(infos: seq<MemInfo>, k: nat, handle: nat)
    requires k < |infos|
    ensures Count(infos, HandleOf, handle)
         == Count(infos[..k] + infos[k + 1..], HandleOf, handle) + Count([infos[k]], HandleOf, handle)
  {
    assert infos == infos[..k] + ([infos[k]] + infos[k + 1..]);
    CountAppend(infos[..k], [infos[k]] + infos[k + 1..], HandleOf, handle);
    CountAppend([infos[k]], infos[k + 1..], HandleOf, handle);
    CountAppend(infos[..k], infos[k + 1..], HandleOf, handle);
  }

  function Listed(src: Source): seq<MemInfo> {
    if src.Pooled? then src.list else []
  }

  predicate Exists(ion: Ion, handle: nat) {
    handle in ion.live
  }

  /** The books balance for one handle: it is in one place if it exists and in none otherwise. `held`
      is how often it is held apart from the list of `src`. */
  predicate Balanced(src: Source, handle: nat, held: nat) {
    Count(Listed(src), HandleOf, handle) + held == if Exists(src.ion, handle) then 1 else 0
  }

  ghost predicate Sound(ion: Ion) {
    !ion.fault && ion.next > 0 && forall h: nat :: Exists(ion, h) ==> 0 < h < ion.next
  }

  lemma TakeBalances(src: Source, want: Want, handle: nat, held: nat)
    requires Sound(src.ion) && Balanced(src, handle, held)
    ensures Sound(AfterTake(src, want).ion) && src.ion.live <= AfterTake(src, want).ion.live
    ensures match Taken(src, want)
            case Some(info) => Balanced(AfterTake(src, want), handle, held + Count([info], HandleOf, handle))
            case None => AfterTake(src, want) == src
  {
    var t := AfterTake(src, want);
    if src.Pooled? && FirstFit(src.list, want) < |src.list| {
      CountSplit(src.list, FirstFit(src.list, want), handle);
    } else if src.ion.room > 0 {
      assert Count(Listed(t), HandleOf, handle) == Count(Listed(src), HandleOf, handle);
      assert Count([Made(src.ion, want)], HandleOf, handle) == if handle == src.ion.next then 1 else 0;
      assert !Exists(src.ion, src.ion.next);
      assert forall h: nat :: Exists(t.ion, h) <==> Exists(src.ion, h) || h == src.ion.next;
    }
  }

  lemma PutBalances(src: Source, info: MemInfo, handle: nat, held: nat)
    requires Sound(src.ion) && Exists(src.ion, info.handle)
    requires Balanced(src, handle, held + Count([info], HandleOf, handle))
    ensures Sound(AfterPut(src, info).ion)
    ensures Balanced(AfterPut(src, info), handle, held)
  {
    assert Count([info], HandleOf, handle) == if info.handle == handle then 1 else 0;
    if src.Pooled? {
      CountAppend(src.list, [info], HandleOf, handle);
    } else {
      assert Exists(AfterPut(src, info).ion, handle) <==> Exists(src.ion, handle) && handle != info.handle;
      assert forall h: nat :: Exists(AfterPut(src, info).ion, h) ==> Exists(src.ion, h);
    }
  }

  /** Every buffer that exists is in one place, in the list of `src` or in `held`; nothing else is in
      either; and nothing was freed twice. */
  ghost predicate Books(src: Source, held: seq<MemInfo>) {
    && Sound(src.ion)
    && (forall h: nat {:trigger Exists(src.ion, h)} {:trigger Count(held, HandleOf, h)} ::
          Balanced(src, h, Count(held, HandleOf, h)))
  }

  lemma {:induction false} HeldExists(src: Source, a: seq<MemInfo>, info: MemInfo, b: seq<MemInfo>)
    requires Books(src, a + [info] + b)
    ensures Exists(src.ion, info.handle)
  {
    CountAppend(a + [info], b, HandleOf, info.handle);
    CountAppend(a, [info], HandleOf, info.handle);
    assert Balanced(src, info.handle, Count(a + [info] + b, HandleOf, info.handle));
  }

  lemma TakeKeepsBooks(src: Source, want: Want, a: seq<MemInfo>, b: seq<MemInfo>)
    requires Books(src, a + b)
    ensures src.ion.live <= AfterTake(src, want).ion.live
    ensures match Taken(src, want)
            case Some(info) => Books(AfterTake(src, want), a + [info] + b)
            case None => AfterTake(src, want) == src
  {
    if Taken(src, want).Some? {
      var info := Taken(src, want).value;
      var t := AfterTake(src, want);
      TakeBalances(src, want, 0, Count(a + b, HandleOf, 0));
      forall h: nat {:trigger Exists(t.ion, h)} ensures Balanced(t, h, Count(a + [info] + b, HandleOf, h)) {
        CountAppend(a, b, HandleOf, h);
        CountAppend(a + [info], b, HandleOf, h);
        CountAppend(a, [info], HandleOf, h);
        TakeBalances(src, want, h, Count(a + b, HandleOf, h));
      }
    }
  }

  lemma PutKeepsBooks(src: Source, a: seq<MemInfo>, info: MemInfo, b: seq<MemInfo>)
    requires Books(src, a + [info] + b)
    ensures Books(AfterPut(src, info), a + b)
    ensures src.Pooled? ==> AfterPut(src, info).ion == src.ion
  {
    HeldExists(src, a, info, b);
    var t := AfterPut(src, info);
    forall h: nat {:trigger Exists(t.ion, h)} ensures Balanced(t, h, Count(a + b, HandleOf, h)) && Sound(t.ion) {
      CountAppend(a, b, HandleOf, h);
      CountAppend(a + [info], b, HandleOf, h);
      CountAppend(a, [info], HandleOf, h);
      assert Balanced(src, h, Count(a + [info] + b, HandleOf, h));
      PutBalances(src, info, h, Count(a + b, HandleOf, h));
    }
  }

  lemma {:induction false} RollBackKeepsBooks(h: Holding, j: nat, rest: seq<MemInfo>)
    requires j <= |h.slots| && Books(h.src, h.slots[..j] + rest)
    ensures Books(RolledBack(h, j).src, rest)
    ensures h.src.Pooled? ==> RolledBack(h, j).src.ion == h.src.ion
    decreases j
  {
    if j == 0 {
      assert h.slots[..0] + rest == rest;
    } else {
      assert h.slots[..j] + rest == h.slots[..j - 1] + [h.slots[j - 1]] + rest;
      PutKeepsBooks(h.src, h.slots[..j - 1], h.slots[j - 1], rest);
      assert PutSlot(h, j - 1).slots[..j - 1] == h.slots[..j - 1];
      RollBackKeepsBooks(PutSlot(h, j - 1), j - 1, rest);
    }
  }

  lemma {:induction false} ReleaseKeepsBooks(h: Holding, i: nat, n: nat, rest: seq<MemInfo>)
    requires i <= n <= |h.slots| && Books(h.src, h.slots[i..n] + rest)
    ensures Books(Released(h, i, n).src, rest)
    ensures h.src.Pooled? ==> Released(h, i, n).src.ion == h.src.ion
    decreases n - i
  {
    if i == n {
      assert h.slots[i..n] + rest == rest;
    } else {
      assert h.slots[i..n] + rest == [] + [h.slots[i]] + (h.slots[i + 1..n] + rest);
      PutKeepsBooks(h.src, [], h.slots[i], h.slots[i + 1..n] + rest);
      assert [] + (h.slots[i + 1..n] + rest) == PutSlot(h, i).slots[i + 1..n] + rest;
      ReleaseKeepsBooks(PutSlot(h, i), i + 1, n, rest);
    }
  }

  /** alloc() from slot `i` on, with `rest` held elsewhere. On success the slots up to `end` hold what
      they should; on failure slots 0 to `i` have given back what they held as well. */
  lemma {:induction false} FillKeepsBooks(h: Holding, i: nat, end: nat, want: Want, rest: seq<MemInfo>)
    requires i <= end <= |h.slots| && Books(h.src, h.slots[..i] + rest)
    ensures var r := Filled(h, i, end, want);
            Books(r.holding.src, (if r.ok then r.holding.slots[..end] else []) + rest)
    ensures h.src.Pooled? || Filled(h, i, end, want).ok ==> h.src.ion.live <= Filled(h, i, end, want).holding.src.ion.live
    decreases end - i
  {
    if i < end {
      TakeKeepsBooks(h.src, want, h.slots[..i], rest);
      match Taken(h.src, want) {
        case Some(info) =>
          var next := Holding(AfterTake(h.src, want), h.slots[i := info]);
          assert next.slots[..i + 1] == h.slots[..i] + [info];
          FillKeepsBooks(next, i + 1, end, want, rest);
        case None =>
          RollBackKeepsBooks(h, i, rest);
          assert [] + rest == rest;
      }
    }
  }

  /** What alloc() was asked for is what the new slots get; the old ones are not touched. */
  lemma {:induction false} FillFits(h: Holding, i: nat, end: nat, want: Want)
    requires i <= end <= |h.slots| && want.size <= 0xFFFF_F000 && Filled(h, i, end, want).ok
    ensures var slots := Filled(h, i, end, want).holding.slots;
            && slots[..i] == h.slots[..i] && slots[end..] == h.slots[end..]
            && forall k :: i <= k < end ==> Fits(slots[k], want)
    decreases end - i
  {
    if i < end {
      AlignedIsEnough(want.size);
      var info := Taken(h.src, want).value;
      var next := Holding(AfterTake(h.src, want), h.slots[i := info]);
      FillFits(next, i + 1, end, want);
      var slots := Filled(next, i + 1, end, want).holding.slots;
      assert slots[i] == slots[..i + 1][i] == info;
      assert slots[..i] == slots[..i + 1][..i] == h.slots[..i];
    }
  }

  /** How many buffers of the list may be reused. */
  function Reusable(list: seq<MemInfo>, want: Want): nat {
    if list == [] then 0 else (if Fits(list[0], want) then 1 else 0) + Reusable(list[1..], want)
  }

  /** How many buffers there are to be had: what may be reused, and what there is memory for. */
  function Supply(src: Source, want: Want): nat {
    src.ion.room + if src.Pooled? then Reusable(src.list, want) else 0
  }

  lemma {:induction false} FirstFitIsReused(list: seq<MemInfo>, want: Want)
    ensures var k := FirstFit(list, want);
            if k == |list| then Reusable(list, want) == 0
            else Reusable(list, want) == Reusable(list[..k] + list[k + 1..], want) + 1
  {
    if list != [] {
      var k := FirstFit(list, want);
      if k > 0 {
        FirstFitIsReused(list[1..], want);
        if k < |list| {
          assert (list[..k] + list[k + 1..])[1..] == list[1..][..k - 1] + list[1..][k..];
        }
      } else {
        assert list[..0] + list[1..] == list[1..];
      }
    }
  }

  lemma TakeUsesSupply(src: Source, want: Want)
    ensures Taken(src, want).Some? <==> Supply(src, want) > 0
    ensures Taken(src, want).Some? ==> Supply(AfterTake(src, want), want) == Supply(src, want) - 1
  {
    if src.Pooled? {
      FirstFitIsReused(src.list, want);
    }
  }

  /** The allocation succeeds exactly when there are that many buffers to be had before it. */
  lemma {:induction false} FillSucceeds(h: Holding, i: nat, end: nat, want: Want)
    requires i <= end <= |h.slots|
    ensures Filled(h, i, end, want).ok <==> end - i <= Supply(h.src, want)
    decreases end - i
  {
    if i < end {
      TakeUsesSupply(h.src, want);
      if Taken(h.src, want).Some? {
        FillSucceeds(Holding(AfterTake(h.src, want), h.slots[i := Taken(h.src, want).value]), i + 1, end, want);
      }
    }
  }

  /** It fails only when there is no memory for a new buffer. */
  lemma {:induction false} FailsForRoom(h: Holding, i: nat, end: nat, want: Want)
    requires i <= end <= |h.slots|
    ensures !Filled(h, i, end, want).ok ==> Filled(h, i, end, want).holding.src.ion.room == 0
    decreases end - i
  {
    if i < end {
      if Taken(h.src, want).Some? {
        FailsForRoom(Holding(AfterTake(h.src, want), h.slots[i := Taken(h.src, want).value]), i + 1, end, want);
      } else {
        RollBackKeepsRoom(h, i);
      }
    }
  }

  lemma {:induction false} RollBackKeepsRoom(h: Holding, j: nat)
    requires j <= |h.slots|
    ensures RolledBack(h, j).src.ion.room == h.src.ion.room
    decreases j
  {
    if j > 0 {
      RollBackKeepsRoom(PutSlot(h, j - 1), j - 1);
    }
  }
}
