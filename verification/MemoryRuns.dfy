/** Any number of memory objects over one pool and one ION device: what allocate(), allocateMore(),
    deallocate() and clear() do to the whole, in any order. */
module MemoryRuns {
  import opened Wrappers
  import opened Counting
  import opened MemoryPool

  /** A QCameraMemory; `slots` is mMemInfo, whose length is MM_CAMERA_MAX_NUM_FRAMES, and `count`
      mBufferCount. */
  datatype Object = Object(
    slots: seq<MemInfo>, count: nat, heapId: nat, cached: bool, pooled: bool, stream: nat)

  datatype System = System(ion: Ion, pools: seq<seq<MemInfo>>, objects: seq<Object>)

  datatype Status = NoError | BadIndex | NoMemory

  predicate WellFormed(s: System) {
    forall o :: 0 <= o < |s.objects| ==> Formed(s, s.objects[o])
  }

  predicate Formed(s: System, obj: Object) {
    obj.count <= |obj.slots| && (obj.pooled ==> obj.stream < |s.pools|)
  }

  function SourceOf(s: System, obj: Object): Source
    requires Formed(s, obj)
  {
    if obj.pooled then Pooled(s.ion, s.pools[obj.stream]) else Direct(s.ion)
  }

  /** Object `o` is `obj` now, and its source `src`. */
  function Put(s: System, o: nat, obj: Object, src: Source): System
    requires o < |s.objects| && Formed(s, obj)
  {
    System(src.ion, if obj.pooled then s.pools[obj.stream := Listed(src)] else s.pools, s.objects[o := obj])
  }

  function Fill(s: System, obj: Object, count: nat, size: nat): Filling
    requires Formed(s, obj) && obj.count + count <= |obj.slots|
  {
    Filled(Holding(SourceOf(s, obj), obj.slots), obj.count, obj.count + count, Want(size, obj.heapId, obj.cached))
  }

  function AllocStatus(s: System, obj: Object, count: nat, size: nat): Status
    requires Formed(s, obj)
  {
    if obj.count + count > |obj.slots| then BadIndex
    else if Fill(s, obj, count, size).ok then NoError
    else NoMemory
  }

  /** allocate(), which sets mBufferCount to `count`, and allocateMore(), which adds it. */
  function Allocated(s: System, o: nat, count: nat, size: nat, more: bool): System
    requires o < |s.objects| && WellFormed(s)
  {
    var obj := s.objects[o];
    match AllocStatus(s, obj, count, size)
    case BadIndex => s
    case NoMemory =>
      var r := Fill(s, obj, count, size).holding;
      Put(s, o, obj.(slots := r.slots), r.src)
    case NoError =>
      var r := Fill(s, obj, count, size).holding;
      Put(s, o, obj.(slots := r.slots, count := if more then obj.count + count else count), r.src)
  }

  function Deallocated(s: System, o: nat): System
    requires o < |s.objects| && WellFormed(s)
  {
    var obj := s.objects[o];
    var r := Released(Holding(SourceOf(s, obj), obj.slots), 0, obj.count);
    Put(s, o, obj.(slots := r.slots, count := 0), r.src)
  }

  function Cleared(s: System): System {
    System(Freed(s.ion, Flat(s.pools)), Empty(|s.pools|), s.objects)
  }

  function Freed(ion: Ion, infos: seq<MemInfo>): Ion
    decreases |infos|
  {
    if infos == [] then ion else Freed(AfterFree(ion, infos[0]), infos[1..])
  }

  function Empty(n: nat): seq<seq<MemInfo>> {
    seq(n, _ => [])
  }

  function Flat(lists: seq<seq<MemInfo>>): seq<MemInfo> {
    if lists == [] then [] else lists[0] + Flat(lists[1..])
  }

  /** What each object holds. */
  function Held(objects: seq<Object>): (held: seq<seq<MemInfo>>)
    requires forall obj :: obj in objects ==> obj.count <= |obj.slots|
    ensures |held| == |objects| && forall o :: 0 <= o < |held| ==> held[o] == objects[o].slots[..objects[o].count]
  {
    seq(|objects|, o requires 0 <= o < |objects| => objects[o].slots[..objects[o].count])
  }

  /** Every buffer that exists is in one place: one list of the pool, once, or one slot in use of one
      object; nothing else is in any of them; and nothing was freed that did not exist. */
  ghost predicate Conserved(s: System) {
    && WellFormed(s)
    && Sound(s.ion)
    && forall h: nat {:trigger Exists(s.ion, h)} {:trigger Count(Flat(s.pools), HandleOf, h)} ::
         Count(Flat(s.pools), HandleOf, h) + Count(Flat(Held(s.objects)), HandleOf, h) == if Exists(s.ion, h) then 1 else 0
  }

  lemma {:induction false} FlatUpdate(lists: seq<seq<MemInfo>>, k: nat, list: seq<MemInfo>, h: nat)
    requires k < |lists|
    ensures Count(Flat(lists[k := list]), HandleOf, h) + Count(lists[k], HandleOf, h)
         == Count(Flat(lists), HandleOf, h) + Count(list, HandleOf, h)
  {
    CountAppend(lists[0], Flat(lists[1..]), HandleOf, h);
    if k == 0 {
      assert lists[k := list][1..] == lists[1..];
      CountAppend(list, Flat(lists[1..]), HandleOf, h);
    } else {
      assert lists[k := list][1..] == lists[1..][k - 1 := list];
      CountAppend(lists[0], Flat(lists[1..][k - 1 := list]), HandleOf, h);
      FlatUpdate(lists[1..], k - 1, list, h);
    }
  }

  /** All that is held apart from the list that object `o` uses and its own slots. */
  function Rest(s: System, o: nat): seq<MemInfo>
    requires o < |s.objects| && WellFormed(s)
  {
    (if s.objects[o].pooled then Flat(s.pools[s.objects[o].stream := []]) else Flat(s.pools))
    + Flat(Held(s.objects)[o := []])
  }

  /** The system's books are those of any one object's source. */
  lemma BooksOfOne(s: System, o: nat)
    requires o < |s.objects| && WellFormed(s)
    ensures Conserved(s)
       <==> Books(SourceOf(s, s.objects[o]), s.objects[o].slots[..s.objects[o].count] + Rest(s, o))
  {
    var obj := s.objects[o];
    var src := SourceOf(s, obj);
    var held := obj.slots[..obj.count] + Rest(s, o);
    forall h: nat
      ensures Count(Flat(s.pools), HandleOf, h) + Count(Flat(Held(s.objects)), HandleOf, h)
           == Count(Listed(src), HandleOf, h) + Count(held, HandleOf, h)
    {
      CountsOfOne(s, o, h);
    }
    if Books(src, held) {
      forall h: nat ensures Balanced(src, h, Count(held, HandleOf, h)) {
        assert Exists(src.ion, h) || !Exists(src.ion, h);
      }
    }
    if Conserved(s) {
      forall h: nat {:trigger Exists(src.ion, h)} ensures Balanced(src, h, Count(held, HandleOf, h)) {
        assert Exists(s.ion, h) || !Exists(s.ion, h);
      }
    }
  }

  lemma CountsOfOne(s: System, o: nat, h: nat)
    requires o < |s.objects| && WellFormed(s)
    ensures Count(Flat(s.pools), HandleOf, h) + Count(Flat(Held(s.objects)), HandleOf, h)
         == Count(Listed(SourceOf(s, s.objects[o])), HandleOf, h)
            + Count(s.objects[o].slots[..s.objects[o].count] + Rest(s, o), HandleOf, h)
  {
    var obj := s.objects[o];
    var lists := if obj.pooled then Flat(s.pools[obj.stream := []]) else Flat(s.pools);
    CountAppend(obj.slots[..obj.count], Rest(s, o), HandleOf, h);
    CountAppend(lists, Flat(Held(s.objects)[o := []]), HandleOf, h);
    FlatUpdate(Held(s.objects), o, [], h);
    if obj.pooled {
      FlatUpdate(s.pools, obj.stream, [], h);
    }
  }

  lemma PutKeepsRest(s: System, o: nat, obj: Object, src: Source)
    requires o < |s.objects| && WellFormed(s) && Formed(s, obj)
    requires obj.pooled == s.objects[o].pooled && obj.stream == s.objects[o].stream && src.Pooled? == obj.pooled
    ensures WellFormed(Put(s, o, obj, src)) && SourceOf(Put(s, o, obj, src), obj) == src
    ensures Rest(Put(s, o, obj, src), o) == Rest(s, o)
  {
    var t := Put(s, o, obj, src);
    assert forall i :: 0 <= i < |t.objects| ==> Formed(t, t.objects[i]) by {
      assert forall i :: 0 <= i < |s.objects| ==> Formed(s, s.objects[i]);
    }
    assert Held(t.objects)[o := []] == Held(s.objects)[o := []];
    if obj.pooled {
      assert t.pools[obj.stream := []] == s.pools[obj.stream := []];
    }
  }

  lemma OneCountOnly(src: Source, held: seq<MemInfo>, other: seq<MemInfo>, h: nat)
    requires Books(src, held) && Count(held, HandleOf, h) != Count(other, HandleOf, h)
    ensures !Books(src, other)
  {
    assert Balanced(src, h, Count(held, HandleOf, h)) && !Balanced(src, h, Count(other, HandleOf, h));
  }

  /** What the call finds before it starts: room in the slots, and as many buffers to be had. */
  predicate Fitting(obj: Object, count: nat) {
    obj.count + count <= |obj.slots|
  }

  predicate Supplied(s: System, obj: Object, count: nat, size: nat)
    requires Formed(s, obj)
  {
    count <= Supply(SourceOf(s, obj), Want(size, obj.heapId, obj.cached))
  }

  lemma StatusIsKnown(s: System, obj: Object, count: nat, size: nat)
    requires Formed(s, obj)
    ensures AllocStatus(s, obj, count, size)
         == if !Fitting(obj, count) then BadIndex
            else if Supplied(s, obj, count, size) then NoError
            else NoMemory
  {
    if Fitting(obj, count) {
      FillSucceeds(Holding(SourceOf(s, obj), obj.slots), obj.count, obj.count + count, Want(size, obj.heapId, obj.cached));
    }
  }

  /** allocate() and allocateMore() conserve the buffers exactly when the object is empty before, or has
      no slots for so many, or it is allocateMore() and there are that many to be had. Otherwise the
      slots that were in use are given back and kept (failure), or dropped (allocate). */
  lemma AllocateConserves(s: System, o: nat, count: nat, size: nat, more: bool)
    requires Conserved(s) && o < |s.objects|
    ensures Conserved(Allocated(s, o, count, size, more))
       <==> var obj := s.objects[o];
            obj.count == 0 || !Fitting(obj, count) || (more && Supplied(s, obj, count, size))
  {
    StatusIsKnown(s, s.objects[o], count, size);
    AllocateConservesBy(s, o, count, size, more);
  }

  lemma AllocateConservesBy(s: System, o: nat, count: nat, size: nat, more: bool)
    requires Conserved(s) && o < |s.objects|
    ensures Conserved(Allocated(s, o, count, size, more))
       <==> var obj := s.objects[o]; var status := AllocStatus(s, obj, count, size);
            obj.count == 0 || status == BadIndex || (more && status == NoError)
  {
    var obj := s.objects[o];
    var t := Allocated(s, o, count, size, more);
    if AllocStatus(s, obj, count, size) != BadIndex {
      var r := Fill(s, obj, count, size);
      var end := obj.count + count;
      BooksOfOne(s, o);
      FillKeepsBooks(Holding(SourceOf(s, obj), obj.slots), obj.count, end, Want(size, obj.heapId, obj.cached), Rest(s, o));
      FilledKind(Holding(SourceOf(s, obj), obj.slots), obj.count, end, Want(size, obj.heapId, obj.cached));
      PutKeepsRest(s, o, t.objects[o], r.holding.src);
      BooksOfOne(t, o);
      SlotsDecide(r.holding.src, r.holding.slots, if r.ok then end else 0, t.objects[o].count, Rest(s, o));
    }
  }

  lemma SlotsDecide(src: Source, slots: seq<MemInfo>, n: nat, m: nat, rest: seq<MemInfo>)
    requires n <= |slots| && m <= |slots| && Books(src, (if n == 0 then [] else slots[..n]) + rest)
    ensures Books(src, slots[..m] + rest) <==> n == m
  {
    var low, high := if n < m then n else m, if n < m then m else n;
    assert n == 0 ==> slots[..n] == [];
    if n != m {
      var h := slots[low].handle;
      assert slots[..high] == slots[..low] + slots[low..high];
      CountAppend(slots[..low], slots[low..high], HandleOf, h);
      CountAppend(slots[..low], rest, HandleOf, h);
      CountAppend(slots[..high], rest, HandleOf, h);
      OneCountOnly(src, slots[..n] + rest, slots[..m] + rest, h);
    }
  }

  lemma {:induction false} FilledKind(h: Holding, i: nat, end: nat, want: Want)
    requires i <= end <= |h.slots|
    ensures Filled(h, i, end, want).holding.src.Pooled? == h.src.Pooled?
    decreases end - i
  {
    if i < end && Taken(h.src, want).Some? {
      FilledKind(Holding(AfterTake(h.src, want), h.slots[i := Taken(h.src, want).value]), i + 1, end, want);
    } else if i < end {
      RolledBackKind(h, i);
    }
  }

  lemma {:induction false} RolledBackKind(h: Holding, j: nat)
    requires j <= |h.slots|
    ensures RolledBack(h, j).src.Pooled? == h.src.Pooled?
    decreases j
  {
    if j > 0 {
      RolledBackKind(PutSlot(h, j - 1), j - 1);
    }
  }

  lemma {:induction false} ReleasedKind(h: Holding, i: nat, n: nat)
    requires i <= n <= |h.slots|
    ensures Released(h, i, n).src.Pooled? == h.src.Pooled?
    decreases n - i
  {
    if i < n {
      ReleasedKind(PutSlot(h, i), i + 1, n);
    }
  }

  /** A failed allocation into an empty object loses nothing: what existed still does, in one place,
      and without a pool nothing new exists either. */
  lemma FailureLosesNothing(s: System, o: nat, count: nat, size: nat, more: bool)
    requires Conserved(s) && o < |s.objects| && s.objects[o].count == 0
    requires AllocStatus(s, s.objects[o], count, size) == NoMemory
    ensures var t := Allocated(s, o, count, size, more);
            && Conserved(t) && s.ion.live <= t.ion.live
            && (!s.objects[o].pooled ==> t.ion.live == s.ion.live && t.pools == s.pools)
            && t.objects[o].count == 0 && Held(t.objects) == Held(s.objects)
  {
    var obj := s.objects[o];
    var t := Allocated(s, o, count, size, more);
    AllocateConserves(s, o, count, size, more);
    var h, want := Holding(SourceOf(s, obj), obj.slots), Want(size, obj.heapId, obj.cached);
    BooksOfOne(s, o);
    FillKeepsBooks(h, 0, count, want, Rest(s, o));
    FilledKind(h, 0, count, want);
    if !obj.pooled {
      SameLive(h.src, Filled(h, 0, count, want).holding.src, Rest(s, o));
    }
  }

  lemma SameLive(a: Source, b: Source, held: seq<MemInfo>)
    requires a.Direct? && b.Direct? && Books(a, [] + held) && Books(b, [] + held)
    ensures a.ion.live == b.ion.live
  {
    forall h: nat ensures h in a.ion.live <==> h in b.ion.live {
      assert Exists(a.ion, h) == (h in a.ion.live) && Exists(b.ion, h) == (h in b.ion.live);
      assert Balanced(a, h, Count([] + held, HandleOf, h));
      assert Balanced(b, h, Count([] + held, HandleOf, h));
    }
  }

  /** The buffers that an allocation brings, old or new, have the heap and the caching asked for and
      are large enough; those the object had stay where they are. */
  lemma AllocatedFits(s: System, o: nat, count: nat, size: nat, more: bool)
    requires o < |s.objects| && WellFormed(s) && size <= 0xFFFF_F000
    requires AllocStatus(s, s.objects[o], count, size) == NoError
    ensures var obj, now := s.objects[o], Allocated(s, o, count, size, more).objects[o];
            && now.slots[..obj.count] == obj.slots[..obj.count]
            && forall k :: obj.count <= k < obj.count + count ==>
                 && now.slots[k].size >= size
                 && now.slots[k].heapId == obj.heapId
                 && now.slots[k].cached == obj.cached
  {
    var obj := s.objects[o];
    FillFits(Holding(SourceOf(s, obj), obj.slots), obj.count, obj.count + count, Want(size, obj.heapId, obj.cached));
  }

  /** deallocate() empties the object and conserves; with a pool, nothing stops existing. */
  lemma DeallocateConserves(s: System, o: nat)
    requires Conserved(s) && o < |s.objects|
    ensures var t := Deallocated(s, o);
            Conserved(t) && t.objects[o].count == 0 && (s.objects[o].pooled ==> t.ion == s.ion)
  {
    var obj := s.objects[o];
    var t := Deallocated(s, o);
    var h := Holding(SourceOf(s, obj), obj.slots);
    BooksOfOne(s, o);
    assert obj.slots[0..obj.count] == obj.slots[..obj.count];
    ReleaseKeepsBooks(h, 0, obj.count, Rest(s, o));
    ReleasedKind(h, 0, obj.count);
    PutKeepsRest(s, o, t.objects[o], Released(h, 0, obj.count).src);
    BooksOfOne(t, o);
    assert t.objects[o].slots[..0] + Rest(s, o) == Rest(s, o);
  }

  lemma {:induction false} FlatEmpty(n: nat)
    ensures Flat(Empty(n)) == []
  {
    if n > 0 {
      assert Empty(n)[1..] == Empty(n - 1);
      FlatEmpty(n - 1);
    }
  }

  lemma {:induction false} FreeKeepsBooks(ion: Ion, infos: seq<MemInfo>, rest: seq<MemInfo>)
    requires Books(Direct(ion), infos + rest)
    ensures Books(Direct(Freed(ion, infos)), rest)
    decreases |infos|
  {
    if infos == [] {
      assert infos + rest == rest;
    } else {
      assert infos + rest == [] + [infos[0]] + (infos[1..] + rest);
      PutKeepsBooks(Direct(ion), [], infos[0], infos[1..] + rest);
      assert [] + (infos[1..] + rest) == infos[1..] + rest;
      FreeKeepsBooks(AfterFree(ion, infos[0]), infos[1..], rest);
    }
  }

  /** clear() leaves just what the objects hold. */
  lemma ClearConserves(s: System)
    requires Conserved(s)
    ensures Conserved(Cleared(s)) && Flat(Cleared(s).pools) == []
    ensures forall h: nat :: Exists(Cleared(s).ion, h) <==> Count(Flat(Held(s.objects)), HandleOf, h) == 1
  {
    var t := Cleared(s);
    var all, held := Flat(s.pools), Flat(Held(s.objects));
    var src := Direct(s.ion);
    forall h: nat {:trigger Exists(src.ion, h)} ensures Balanced(src, h, Count(all + held, HandleOf, h)) {
      CountAppend(all, held, HandleOf, h);
      assert Exists(s.ion, h) || !Exists(s.ion, h);
    }
    FreeKeepsBooks(s.ion, all, held);
    FlatEmpty(|s.pools|);
    forall h: nat
      ensures Count(held, HandleOf, h) == if Exists(t.ion, h) then 1 else 0
    {
      assert Balanced(Direct(t.ion), h, Count(held, HandleOf, h));
    }
    assert forall o :: 0 <= o < |s.objects| ==> Formed(s, s.objects[o]);
  }

  /** `Room`: the kernel's memory changes. */
  datatype Step =
    | Allocate(o: nat, count: nat, size: nat)
    | AllocateMore(o: nat, count: nat, size: nat)
    | Deallocate(o: nat)
    | Clear
    | Room(n: nat)

  ghost predicate Enabled(s: System, step: Step) {
    WellFormed(s) &&
    match step
    case Allocate(o, _, _) => o < |s.objects|
    case AllocateMore(o, _, _) => o < |s.objects|
    case Deallocate(o) => o < |s.objects|
    case _ => true
  }

  /** allocate() is called on empty objects; and one in use is given more only when there are that many
      buffers to be had. What has no slots for so many is refused at once. */
  ghost predicate Guarded(s: System, step: Step)
    requires Enabled(s, step)
  {
    match step
    case Allocate(o, count, _) => s.objects[o].count == 0 || !Fitting(s.objects[o], count)
    case AllocateMore(o, count, size) =>
      s.objects[o].count == 0 || !Fitting(s.objects[o], count) || Supplied(s, s.objects[o], count, size)
    case _ => true
  }

  ghost function Apply(s: System, step: Step): System
    requires Enabled(s, step)
  {
    match step
    case Allocate(o, count, size) => Allocated(s, o, count, size, false)
    case AllocateMore(o, count, size) => Allocated(s, o, count, size, true)
    case Deallocate(o) => Deallocated(s, o)
    case Clear => Cleared(s)
    case Room(n) => s.(ion := s.ion.(room := n))
  }

  lemma StepConserves(s: System, step: Step)
    requires Enabled(s, step) && Conserved(s)
    ensures Conserved(Apply(s, step)) <==> Guarded(s, step)
  {
    match step {
      case Allocate(o, count, size) => AllocateConserves(s, o, count, size, false);
      case AllocateMore(o, count, size) => AllocateConserves(s, o, count, size, true);
      case Deallocate(o) => DeallocateConserves(s, o);
      case Clear => ClearConserves(s);
      case Room(n) =>
        var t := Apply(s, step);
        forall h: nat {:trigger Exists(t.ion, h)} {:trigger Count(Flat(t.pools), HandleOf, h)}
          ensures Count(Flat(t.pools), HandleOf, h) + Count(Flat(Held(t.objects)), HandleOf, h)
               == if Exists(t.ion, h) then 1 else 0
        {
          assert Exists(s.ion, h) || !Exists(s.ion, h);
        }
        assert forall h: nat :: Exists(t.ion, h) ==> Exists(s.ion, h);
        assert forall o :: 0 <= o < |s.objects| ==> Formed(s, s.objects[o]);
    }
  }

  ghost predicate TakesStep(run: seq<System>, steps: seq<Step>, i: int)
    requires 0 <= i < |steps| < |run|
  {
    Enabled(run[i], steps[i]) && run[i + 1] == Apply(run[i], steps[i])
  }

  /** Every run from empty objects and an empty pool. */
  ghost predicate IsRun(run: seq<System>, steps: seq<Step>) {
    && |run| == |steps| + 1
    && WellFormed(run[0])
    && run[0].ion.live == {} && run[0].ion.next > 0 && !run[0].ion.fault
    && Flat(run[0].pools) == []
    && Flat(Held(run[0].objects)) == []
    && forall i :: 0 <= i < |steps| ==> TakesStep(run, steps, i)
  }

  ghost predicate GuardedAt(run: seq<System>, steps: seq<Step>, i: int)
    requires 0 <= i < |steps| < |run| && TakesStep(run, steps, i)
  {
    Guarded(run[i], steps[i])
  }

  /** In every run, up to any point: each buffer is in one place and none was freed twice at any time,
      if and only if each step was guarded. */
  lemma {:induction false} RunConserves(run: seq<System>, steps: seq<Step>, k: nat)
    requires IsRun(run, steps) && k < |run|
    ensures (forall i :: 0 <= i <= k ==> Conserved(run[i])) <==> (forall i :: 0 <= i < k ==> GuardedAt(run, steps, i))
  {
    if k == 0 {
      assert Conserved(run[0]);
    } else {
      RunConserves(run, steps, k - 1);
      assert TakesStep(run, steps, k - 1);
      if Conserved(run[k - 1]) {
        StepConserves(run[k - 1], steps[k - 1]);
        assert Conserved(run[k]) <==> GuardedAt(run, steps, k - 1);
      }
    }
  }
}
