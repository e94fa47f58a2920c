/**
 Which descriptors of a heap are allocated, and the effect of `allocateDescriptors` and
 `releaseDescriptors` (src/d3d12/d3d12-descriptor-heap.cpp) on that, as functions. Runs of
 allocations, releases and growth keep the live ranges apart and the bitmap exact.
 */
module DescriptorRanges {
  import opened Wrappers
  import opened Subresources
  import opened Words

  // D3D12_MAX_SHADER_VISIBLE_DESCRIPTOR_HEAP_SIZE_TIER_1 and
  // D3D12_MAX_SHADER_VISIBLE_SAMPLER_HEAP_SIZE
  const MAX_VIEW_HEAP_SIZE: uint32 := 1000000
  const MAX_SAMPLER_HEAP_SIZE: uint32 := 2048

  datatype HeapType = CbvSrvUav | Sampler | RenderTarget | DepthStencil

  datatype HeapKind = HeapKind(heapType: HeapType, shaderVisible: bool) {
    function MaxSize(): uint32 {
      if heapType.CbvSrvUav? then MAX_VIEW_HEAP_SIZE else MAX_SAMPLER_HEAP_SIZE
    }
  }

  // ---------- Growth ----------

  // The size that Grow chooses, or nothing when the heap may not be that large.
  function GrownSize(kind: HeapKind, minRequiredSize: uint32): Option<uint32> {
    var newSize := RoundUp(minRequiredSize);
    if kind.shaderVisible then
      var capped := if newSize < kind.MaxSize() then newSize else kind.MaxSize();
      if capped < minRequiredSize then None else Some(capped)
    else Some(newSize)
  }

  // A request above 2^31 has no power of two to round up to; only the limit on
  // shader-visible heaps catches it.
  predicate CanRound(kind: HeapKind, size: uint32) {
    kind.shaderVisible || size <= 0x8000_0000
  }

  lemma GrownSizeIsEnough(kind: HeapKind, minRequiredSize: uint32)
    requires 1 <= minRequiredSize
    ensures var size := GrownSize(kind, minRequiredSize);
            && (size == None <==> kind.shaderVisible && kind.MaxSize() < minRequiredSize)
            && (size.Some? ==> (minRequiredSize <= size.value <==> CanRound(kind, minRequiredSize)))
            && (size.Some? && CanRound(kind, minRequiredSize) ==>
                  (IsPowerOf2(size.value) || (kind.shaderVisible && size.value == kind.MaxSize())) && size.value / 2 < minRequiredSize)
  {
    if minRequiredSize <= 0x8000_0000 {
      RoundUpIsLeast(minRequiredSize);
    } else {
      RoundUpWraps(minRequiredSize);
    }
  }

  // A render target heap asked to hold one descriptor more than 2^31 gets none.
  lemma UnroundableExample()
    ensures GrownSize(HeapKind(RenderTarget, false), 0x8000_0001) == Some(0)
  {
    RoundUpWraps(0x8000_0001);
  }

  // ---------- The bitmap ----------

  predicate IsFree(bits: seq<bool>, base: nat, count: nat) {
    base + count <= |bits| && forall i :: base <= i < base + count ==> !bits[i]
  }

  // The leftmost free range at or after `start`.
  function FirstFit(bits: seq<bool>, start: nat, count: nat): Option<nat>
    decreases |bits| - start
  {
    if |bits| < start + count || |bits| <= start then None
    else if IsFree(bits, start, count) then Some(start)
    else FirstFit(bits, start + 1, count)
  }

  lemma {:induction false} FirstFitIsLeftmost(bits: seq<bool>, start: nat, count: nat, base: nat)
    requires 0 < count && start <= base && IsFree(bits, base, count)
    requires forall b :: start <= b < base ==> !IsFree(bits, b, count)
    ensures FirstFit(bits, start, count) == Some(base)
    decreases base - start
  {
    if start < base {
      FirstFitIsLeftmost(bits, start + 1, count, base);
    }
  }

  lemma {:induction false} FirstFitMeans(bits: seq<bool>, start: nat, count: nat)
    requires 0 < count
    ensures var fit := FirstFit(bits, start, count);
            && (fit == None ==> forall b :: start <= b ==> !IsFree(bits, b, count))
            && (fit.Some? ==> start <= fit.value && IsFree(bits, fit.value, count)
                              && forall b :: start <= b < fit.value ==> !IsFree(bits, b, count))
    decreases |bits| - start
  {
    if start + count <= |bits| && !IsFree(bits, start, count) {
      FirstFitMeans(bits, start + 1, count);
    }
  }

  function Repeat(value: bool, count: nat): (r: seq<bool>)
    ensures |r| == count && forall i :: 0 <= i < count ==> r[i] == value
  {
    seq(count, _ => value)
  }

  function Marked(bits: seq<bool>, base: nat, count: nat, value: bool): (r: seq<bool>)
    requires base + count <= |bits|
    ensures |r| == |bits|
    ensures forall i :: 0 <= i < |bits| ==> r[i] == if base <= i < base + count then value else bits[i]
  {
    bits[..base] + Repeat(value, count) + bits[base + count..]
  }

  function Grown(bits: seq<bool>, size: nat): (r: seq<bool>)
    requires |bits| <= size
    ensures |r| == size
    ensures forall i :: 0 <= i < size ==> r[i] == (i < |bits| && bits[i])
  {
    bits + Repeat(false, size - |bits|)
  }

  function Population(bits: seq<bool>): (n: nat)
    ensures n <= |bits|
  {
    if bits == [] then 0
    else Population(bits[..|bits| - 1]) + if bits[|bits| - 1] then 1 else 0
  }

  lemma {:induction false} PopulationOfConcat(a: seq<bool>, b: seq<bool>)
    ensures Population(a + b) == Population(a) + Population(b)
  {
    if b == [] {
      assert a + b == a;
    } else {
      assert (a + b)[..|a + b| - 1] == a + b[..|b| - 1];
      PopulationOfConcat(a, b[..|b| - 1]);
    }
  }

  lemma {:induction false} PopulationOfEqual(bits: seq<bool>, value: bool)
    requires forall i :: 0 <= i < |bits| ==> bits[i] == value
    ensures Population(bits) == if value then |bits| else 0
  {
    if bits != [] {
      PopulationOfEqual(bits[..|bits| - 1], value);
    }
  }

  lemma {:induction false} PopulationUpdated(bits: seq<bool>, i: nat, value: bool)
    requires i < |bits| && bits[i] == !value
    ensures Population(bits[i := value]) + (if value then 0 else 1) == Population(bits) + (if value then 1 else 0)
  {
    var n := |bits| - 1;
    var updated := bits[i := value];
    if i == n {
      assert updated[..n] == bits[..n];
    } else {
      assert updated[..n] == bits[..n][i := value];
      PopulationUpdated(bits[..n], i, value);
    }
  }

  lemma {:induction false} PopulationChanged(bits: seq<bool>, after: seq<bool>, base: nat, count: nat, value: bool)
    requires base + count <= |bits| == |after|
    requires forall i :: base <= i < base + count ==> bits[i] == !value
    requires forall i :: 0 <= i < |bits| ==> after[i] == if base <= i < base + count then value else bits[i]
    ensures Population(after) + (if value then 0 else count) == Population(bits) + (if value then count else 0)
    decreases count
  {
    if count == 0 {
      assert after == bits;
    } else {
      var last := base + count - 1;
      var shorter := after[last := !value];
      PopulationChanged(bits, shorter, base, count - 1, value);
      PopulationUpdated(after, last, !value);
    }
  }

  lemma PopulationMarked(bits: seq<bool>, base: nat, count: nat, value: bool)
    requires base + count <= |bits|
    requires forall i :: base <= i < base + count ==> bits[i] == !value
    ensures Population(Marked(bits, base, count, value)) + (if value then 0 else count)
            == Population(bits) + (if value then count else 0)
  {
    PopulationChanged(bits, Marked(bits, base, count, value), base, count, value);
  }

  lemma PopulationGrown(bits: seq<bool>, size: nat)
    requires |bits| <= size
    ensures Population(Grown(bits, size)) == Population(bits)
  {
    PopulationOfConcat(bits, Repeat(false, size - |bits|));
    PopulationOfEqual(Repeat(false, size - |bits|), false);
  }

  // ---------- Allocation and release ----------

  datatype Allocator = Allocator(bits: seq<bool>, searchStart: nat, numAllocated: uint32)

  // What allocateDescriptors demands of its callers: a nonempty range, and sizes that do
  // not wrap.
  predicate CanAllocate(kind: HeapKind, a: Allocator, count: nat) {
    && 0 < count
    && |a.bits| + count < UINT32_RANGE
    && CanRound(kind, |a.bits| + count)
  }

  datatype Allocation = Allocation(allocator: Allocator, base: Option<nat>)

  function Take(a: Allocator, base: nat, count: nat): Allocation
    requires base + count <= |a.bits|
  {
    Allocation(Allocator(Marked(a.bits, base, count, true), base + count, Wrap(a.numAllocated + count)), Some(base))
  }

  function Allocate(kind: HeapKind, a: Allocator, count: nat): (r: Allocation)
    requires CanAllocate(kind, a, count)
    ensures r.base.Some? ==> r.base.value <= |a.bits| && r.base.value + count <= |r.allocator.bits|
  {
    FirstFitMeans(a.bits, a.searchStart, count);
    match FirstFit(a.bits, a.searchStart, count)
    case Some(base) => Take(a, base, count)
    case None =>
      GrownSizeIsEnough(kind, |a.bits| + count);
      match GrownSize(kind, |a.bits| + count)
      case None => Allocation(a, None)
      case Some(size) => Take(a.(bits := Grown(a.bits, size)), |a.bits|, count)
  }

  function Release(a: Allocator, base: nat, count: nat): Allocator
    requires base + count <= |a.bits|
  {
    if count == 0 then a
    else Allocator(Marked(a.bits, base, count, false), if base < a.searchStart then base else a.searchStart,
                   Wrap(a.numAllocated - count))
  }

  // ---------- Runs ----------

  datatype Range = Range(base: nat, count: nat) {
    predicate Has(i: int) {
      base <= i < base + count
    }
  }

  // The allocator and the ranges that were handed out and not returned.
  datatype World = World(allocator: Allocator, live: set<Range>)

  ghost predicate Apart(live: set<Range>) {
    forall r, s, i :: r in live && s in live && r.Has(i) && s.Has(i) ==> r == s
  }

  ghost predicate InBounds(live: set<Range>, size: nat) {
    forall r :: r in live ==> 0 < r.count && r.base + r.count <= size
  }

  ghost predicate IsUnion(bits: seq<bool>, live: set<Range>) {
    forall i :: 0 <= i < |bits| ==> (bits[i] <==> exists r :: r in live && r.Has(i))
  }

  ghost predicate Inv(w: World) {
    && |w.allocator.bits| < UINT32_RANGE
    && w.allocator.searchStart <= |w.allocator.bits|
    && w.allocator.numAllocated == Population(w.allocator.bits)
    && Apart(w.live) && InBounds(w.live, |w.allocator.bits|) && IsUnion(w.allocator.bits, w.live)
  }

  datatype Event = AllocateRange(count: nat) | ReleaseRange(range: Range)

  predicate Legal(kind: HeapKind, w: World, e: Event) {
    match e
    case AllocateRange(count) => CanAllocate(kind, w.allocator, count)
    case ReleaseRange(range) => range in w.live && range.base + range.count <= |w.allocator.bits|
  }

  function AfterAllocate(w: World, count: nat, r: Allocation): World {
    World(r.allocator, if r.base == None then w.live else w.live + {Range(r.base.value, count)})
  }

  function Step(kind: HeapKind, w: World, e: Event): World
    requires Legal(kind, w, e)
  {
    match e
    case AllocateRange(count) =>
      AfterAllocate(w, count, Allocate(kind, w.allocator, count))
    case ReleaseRange(range) => World(Release(w.allocator, range.base, range.count), w.live - {range})
  }

  lemma TakeKeepsApart(w: World, r: Range)
    requires Inv(w) && IsFree(w.allocator.bits, r.base, r.count)
    ensures Apart(w.live + {r})
  {
    forall i | r.Has(i) ensures !exists s :: s in w.live && s.Has(i) {
      assert !w.allocator.bits[i];
    }
  }

  lemma TakeKeepsUnion(w: World, r: Range)
    requires Inv(w) && r.base + r.count <= |w.allocator.bits|
    ensures IsUnion(Marked(w.allocator.bits, r.base, r.count, true), w.live + {r})
  {
  }

  lemma TakeKeeps(w: World, base: nat, count: nat)
    requires Inv(w) && 0 < count && IsFree(w.allocator.bits, base, count)
    ensures Inv(World(Take(w.allocator, base, count).allocator, w.live + {Range(base, count)}))
  {
    PopulationMarked(w.allocator.bits, base, count, true);
    TakeKeepsApart(w, Range(base, count));
    TakeKeepsUnion(w, Range(base, count));
  }

  lemma GrownKeeps(w: World, size: nat)
    requires Inv(w) && |w.allocator.bits| <= size < UINT32_RANGE
    ensures Inv(w.(allocator := w.allocator.(bits := Grown(w.allocator.bits, size))))
  {
    PopulationGrown(w.allocator.bits, size);
  }

  lemma ReleaseKeeps(w: World, r: Range)
    requires Inv(w) && r in w.live && r.base + r.count <= |w.allocator.bits|
    ensures Inv(World(Release(w.allocator, r.base, r.count), w.live - {r}))
  {
    var bits := w.allocator.bits;
    var marked := Marked(bits, r.base, r.count, false);
    var live := w.live - {r};
    forall i | r.Has(i) ensures bits[i] {
    }
    PopulationMarked(bits, r.base, r.count, false);
    forall i | 0 <= i < |bits| ensures marked[i] <==> exists s :: s in live && s.Has(i) {
      if r.Has(i) {
        assert forall s :: s in w.live && s.Has(i) ==> s == r;
      } else if bits[i] {
        var s :| s in w.live && s.Has(i);
        assert s in live;
      }
    }
  }

  lemma GrowthKeeps(kind: HeapKind, w: World, count: nat, size: uint32)
    requires Inv(w) && CanAllocate(kind, w.allocator, count)
    requires GrownSize(kind, |w.allocator.bits| + count) == Some(size)
    ensures |w.allocator.bits| + count <= size
    ensures var grown := w.allocator.(bits := Grown(w.allocator.bits, size));
            Inv(World(Take(grown, |w.allocator.bits|, count).allocator, w.live + {Range(|w.allocator.bits|, count)}))
  {
    GrownSizeIsEnough(kind, |w.allocator.bits| + count);
    GrownKeeps(w, size);
    TakeKeeps(w.(allocator := w.allocator.(bits := Grown(w.allocator.bits, size))), |w.allocator.bits|, count);
  }

  lemma FitKeeps(kind: HeapKind, w: World, count: nat, base: nat)
    requires Inv(w) && CanAllocate(kind, w.allocator, count)
    requires FirstFit(w.allocator.bits, w.allocator.searchStart, count) == Some(base)
    ensures Inv(AfterAllocate(w, count, Allocate(kind, w.allocator, count)))
  {
    FirstFitMeans(w.allocator.bits, w.allocator.searchStart, count);
    TakeKeeps(w, base, count);
  }

  lemma FullKeeps(kind: HeapKind, w: World, count: nat)
    requires Inv(w) && CanAllocate(kind, w.allocator, count)
    requires FirstFit(w.allocator.bits, w.allocator.searchStart, count) == None
    ensures Inv(AfterAllocate(w, count, Allocate(kind, w.allocator, count)))
  {
    var a := w.allocator;
    AllocateFull(kind, a, count);
    match GrownSize(kind, |a.bits| + count)
    case None => assert AfterAllocate(w, count, Allocation(a, None)) == w;
    case Some(size) => GrowthKeeps(kind, w, count, size);
  }

  lemma AllocateFull(kind: HeapKind, a: Allocator, count: nat)
    requires CanAllocate(kind, a, count) && FirstFit(a.bits, a.searchStart, count) == None
    ensures var size := GrownSize(kind, |a.bits| + count);
            if size == None then Allocate(kind, a, count) == Allocation(a, None)
            else |a.bits| + count <= size.value
                 && Allocate(kind, a, count) == Take(a.(bits := Grown(a.bits, size.value)), |a.bits|, count)
  {
    GrownSizeIsEnough(kind, |a.bits| + count);
  }

  lemma AllocateKeeps(kind: HeapKind, w: World, count: nat)
    requires Inv(w) && CanAllocate(kind, w.allocator, count)
    ensures Inv(AfterAllocate(w, count, Allocate(kind, w.allocator, count)))
  {
    var a := w.allocator;
    match FirstFit(a.bits, a.searchStart, count)
    case Some(base) => FitKeeps(kind, w, count, base);
    case None => FullKeeps(kind, w, count);
  }

  lemma StepKeeps(kind: HeapKind, w: World, e: Event)
    requires Inv(w) && Legal(kind, w, e)
    ensures Inv(Step(kind, w, e))
  {
    match e
    case AllocateRange(count) => AllocateKeeps(kind, w, count);
    case ReleaseRange(range) => ReleaseKeeps(w, range);
  }

  predicate LegalRun(kind: HeapKind, w: World, run: seq<Event>)
    decreases |run|
  {
    run != [] ==> Legal(kind, w, run[0]) && LegalRun(kind, Step(kind, w, run[0]), run[1..])
  }

  function Run(kind: HeapKind, w: World, run: seq<Event>): World
    requires LegalRun(kind, w, run)
    decreases |run|
  {
    if run == [] then w else Run(kind, Step(kind, w, run[0]), run[1..])
  }

  // A heap right after it was created.
  function NewWorld(size: nat): World {
    World(Allocator(Repeat(false, size), 0, 0), {})
  }

  lemma {:induction false} RunKeepsFrom(kind: HeapKind, w: World, run: seq<Event>)
    requires Inv(w) && LegalRun(kind, w, run)
    ensures Inv(Run(kind, w, run))
    decreases |run|
  {
    if run != [] {
      StepKeeps(kind, w, run[0]);
      RunKeepsFrom(kind, Step(kind, w, run[0]), run[1..]);
    }
  }

  // In every run the live ranges are in bounds and pairwise disjoint, the bitmap is their
  // union and the counter its population.
  lemma RunKeepsInvariant(kind: HeapKind, size: uint32, run: seq<Event>)
    requires LegalRun(kind, NewWorld(size), run)
    ensures Inv(Run(kind, NewWorld(size), run))
  {
    PopulationOfEqual(NewWorld(size).allocator.bits, false);
    RunKeepsFrom(kind, NewWorld(size), run);
  }

  // ---------- The search hint ----------

  // Nothing below the hint is free.
  predicate HintIsTight(a: Allocator) {
    a.searchStart <= |a.bits| && forall i :: 0 <= i < a.searchStart ==> a.bits[i]
  }

  // The heap has no room at or after the hint and may not grow.
  predicate IsRefused(kind: HeapKind, a: Allocator, count: nat)
    requires CanAllocate(kind, a, count)
  {
    FirstFit(a.bits, a.searchStart, count) == None && GrownSize(kind, |a.bits| + count) == None
  }

  lemma TakeKeepsTightIff(a: Allocator, base: nat, count: nat)
    requires HintIsTight(a) && a.searchStart <= base && base + count <= |a.bits|
    ensures HintIsTight(Take(a, base, count).allocator) <==> forall i :: a.searchStart <= i < base ==> a.bits[i]
  {
    var r := Take(a, base, count).allocator;
    forall i | 0 <= i < base ensures r.bits[i] == a.bits[i] {
    }
  }

  lemma FitKeepsTightIff(a: Allocator, base: nat, count: nat)
    requires HintIsTight(a) && 0 < count && FirstFit(a.bits, a.searchStart, count) == Some(base) && base + count <= |a.bits|
    ensures HintIsTight(Take(a, base, count).allocator) <==> FirstFit(a.bits, a.searchStart, 1) == Some(base)
  {
    FirstFitMeans(a.bits, a.searchStart, count);
    FirstFreeMeans(a.bits, a.searchStart);
    TakeKeepsTightIff(a, base, count);
    assert !a.bits[base];
  }

  lemma GrowthKeepsTightIff(a: Allocator, size: nat, count: nat)
    requires HintIsTight(a) && |a.bits| + count <= size
    ensures HintIsTight(Take(a.(bits := Grown(a.bits, size)), |a.bits|, count).allocator) <==> FirstFit(a.bits, a.searchStart, 1) == None
  {
    FirstFreeMeans(a.bits, a.searchStart);
    var grown := a.(bits := Grown(a.bits, size));
    TakeKeepsTightIff(grown, |a.bits|, count);
    assert forall i :: 0 <= i < |a.bits| ==> grown.bits[i] == a.bits[i];
  }

  // The allocation is refused, or the range is found where a single descriptor would be.
  predicate StaysTight(kind: HeapKind, a: Allocator, count: nat)
    requires CanAllocate(kind, a, count)
  {
    IsRefused(kind, a, count) || FirstFit(a.bits, a.searchStart, count) == FirstFit(a.bits, a.searchStart, 1)
  }

  // A range allocation keeps the hint tight exactly when it is refused, or the range is
  // found where a single descriptor would be.
  lemma AllocateKeepsTightIff(kind: HeapKind, a: Allocator, count: nat)
    requires HintIsTight(a) && CanAllocate(kind, a, count)
    ensures HintIsTight(Allocate(kind, a, count).allocator) <==> StaysTight(kind, a, count)
  {
    FirstFitMeans(a.bits, a.searchStart, count);
    match FirstFit(a.bits, a.searchStart, count)
    case Some(base) => FitKeepsTightIff(a, base, count);
    case None =>
      GrownSizeIsEnough(kind, |a.bits| + count);
      var size := GrownSize(kind, |a.bits| + count);
      if size.Some? {
        GrowthKeepsTightIff(a, size.value, count);
      }
  }

  lemma FirstFreeMeans(bits: seq<bool>, start: nat)
    ensures var fit := FirstFit(bits, start, 1);
            && (fit == None <==> forall i :: start <= i < |bits| ==> bits[i])
            && (fit.Some? ==> start <= fit.value < |bits| && !bits[fit.value] && forall i :: start <= i < fit.value ==> bits[i])
  {
    FirstFitMeans(bits, start, 1);
    var fit := FirstFit(bits, start, 1);
    if fit.Some? {
      assert !bits[fit.value];
    }
    forall i | start <= i < |bits| && (fit.Some? ==> i < fit.value) ensures bits[i] {
      assert !IsFree(bits, i, 1);
    }
  }

  // Releasing a range of any size leaves nothing free below the hint.
  lemma ReleaseKeepsTight(a: Allocator, base: nat, count: nat)
    requires HintIsTight(a) && base + count <= |a.bits|
    ensures HintIsTight(Release(a, base, count))
  {
  }

  // A released range can be had again, at its place or before it.
  lemma ReleasedFitsAgain(a: Allocator, base: nat, count: nat)
    requires 0 < count && base + count <= |a.bits|
    ensures var r := Release(a, base, count);
            var fit := FirstFit(r.bits, r.searchStart, count);
            fit.Some? && fit.value <= base
  {
    var r := Release(a, base, count);
    FirstFitMeans(r.bits, r.searchStart, count);
    assert IsFree(r.bits, base, count);
  }

  lemma StepKeepsTight(kind: HeapKind, w: World, e: Event)
    requires HintIsTight(w.allocator) && Legal(kind, w, e)
    requires e.AllocateRange? ==> StaysTight(kind, w.allocator, e.count)
    ensures HintIsTight(Step(kind, w, e).allocator)
  {
    match e
    case AllocateRange(count) => AllocateKeepsTightIff(kind, w.allocator, count);
    case ReleaseRange(range) => ReleaseKeepsTight(w.allocator, range.base, range.count);
  }

  // Every range allocation of the run meets the condition when it is made.
  predicate KeepsTight(kind: HeapKind, w: World, run: seq<Event>)
    requires LegalRun(kind, w, run)
    decreases |run|
  {
    run != [] ==>
      && (run[0].AllocateRange? ==> StaysTight(kind, w.allocator, run[0].count))
      && KeepsTight(kind, Step(kind, w, run[0]), run[1..])
  }

  // As long as that is so, no free descriptor is below the hint, whatever is released.
  lemma {:induction false} RunKeepsTight(kind: HeapKind, w: World, run: seq<Event>)
    requires HintIsTight(w.allocator) && LegalRun(kind, w, run) && KeepsTight(kind, w, run)
    ensures HintIsTight(Run(kind, w, run).allocator)
    decreases |run|
  {
    if run != [] {
      StepKeepsTight(kind, w, run[0]);
      RunKeepsTight(kind, Step(kind, w, run[0]), run[1..]);
    }
  }

  // The limits on shader-visible heaps.
  lemma VisibleLimits(minRequiredSize: uint32)
    requires 1 <= minRequiredSize
    ensures GrownSize(HeapKind(CbvSrvUav, true), minRequiredSize) == None <==> 1_000_000 < minRequiredSize
    ensures GrownSize(HeapKind(Sampler, true), minRequiredSize) == None <==> 2_048 < minRequiredSize
  {
    GrownSizeIsEnough(HeapKind(CbvSrvUav, true), minRequiredSize);
    GrownSizeIsEnough(HeapKind(Sampler, true), minRequiredSize);
  }

  predicate IsSingle(e: Event) {
    match e
    case AllocateRange(count) => count == 1
    case ReleaseRange(range) => range.count == 1
  }

  lemma {:induction false} SingleRunIsTight(kind: HeapKind, w: World, run: seq<Event>)
    requires HintIsTight(w.allocator) && LegalRun(kind, w, run) && forall k :: 0 <= k < |run| ==> IsSingle(run[k])
    ensures HintIsTight(Run(kind, w, run).allocator)
    decreases |run|
  {
    if run != [] {
      if run[0].AllocateRange? {
        AllocateKeepsTightIff(kind, w.allocator, 1);
      }
      SingleRunIsTight(kind, Step(kind, w, run[0]), run[1..]);
    }
  }

  // As long as descriptors are allocated and released one by one, the heap grows only
  // when every descriptor is in use.
  lemma SingleRunGrowsOnlyWhenFull(kind: HeapKind, size: uint32, run: seq<Event>)
    requires LegalRun(kind, NewWorld(size), run) && forall k :: 0 <= k < |run| ==> IsSingle(run[k])
    ensures var a := Run(kind, NewWorld(size), run).allocator;
            FirstFit(a.bits, a.searchStart, 1) == None <==> a.numAllocated == |a.bits|
  {
    SingleRunIsTight(kind, NewWorld(size), run);
    RunKeepsInvariant(kind, size, run);
    var a := Run(kind, NewWorld(size), run).allocator;
    FirstFreeMeans(a.bits, a.searchStart);
    FullIff(a.bits);
  }

  lemma {:induction false} FullIff(bits: seq<bool>)
    ensures Population(bits) == |bits| <==> forall i :: 0 <= i < |bits| ==> bits[i]
  {
    if bits != [] {
      var init := bits[..|bits| - 1];
      FullIff(init);
      assert forall i :: 0 <= i < |init| ==> init[i] == bits[i];
    }
  }

  // With ranges it can grow earlier: a pair does not fit before the descriptor in use, and
  // the hint then hides the free one in front of it.
  lemma RangesHideFreeDescriptors()
    ensures var a := Allocator([false, true, false, false], 0, 1);
            var kind := HeapKind(RenderTarget, false);
            var r := Allocate(kind, a, 2);
            r.base == Some(2) && !r.allocator.bits[0] && Allocate(kind, r.allocator, 1).base == Some(4)
  {
    var bits := [false, true, false, false];
    assert !IsFree(bits, 0, 2) && !IsFree(bits, 1, 2) by {
      assert bits[1];
    }
    FirstFitIsLeftmost(bits, 0, 2, 2);
    var after := Marked(bits, 2, 2, true);
    assert FirstFit(after, 4, 1) == None;
    GrownSizeIsEnough(HeapKind(RenderTarget, false), 5);
  }
}
