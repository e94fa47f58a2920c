/**
 `StaticDescriptorHeap` (src/d3d12/d3d12-backend.h, src/d3d12/d3d12-descriptor-heap.cpp):
 a CPU heap, possibly with a shader-visible copy, and its range allocator. The methods are
 proved against the functions of `DescriptorRanges`.
 */
module DescriptorHeaps {
  import opened Wrappers
  import opened Subresources
  import opened Words
  import opened DescriptorRanges

  const INVALID_DESCRIPTOR_INDEX: uint32 := UINT32_RANGE - 1

  // What a descriptor holds; a new heap has no descriptors yet.
  datatype Descriptor = Uninitialized | View(id: nat)

  // The loop that looks for `count` free descriptors in a row.
  method FindFree(bits: seq<bool>, searchStart: nat, count: nat) returns (found: bool, foundIndex: nat)
    requires 0 < count && searchStart <= |bits|
    ensures FirstFit(bits, searchStart, count) == if found then Some(foundIndex) else None
    ensures found ==> IsFree(bits, foundIndex, count)
  {
    foundIndex := 0;
    var freeCount := 0;
    found := false;
    var index := searchStart;
    while index < |bits| && !found
      invariant searchStart <= index <= |bits|
      invariant !found ==> freeCount < count && freeCount <= index - searchStart
      invariant !found ==> forall i :: index - freeCount <= i < index ==> !bits[i]
      invariant !found ==> index == searchStart + freeCount || (searchStart < index - freeCount && bits[index - freeCount - 1])
      invariant !found ==> forall b :: searchStart <= b < index - freeCount ==> !IsFree(bits, b, count)
      invariant found ==> searchStart <= foundIndex && IsFree(bits, foundIndex, count)
      invariant found ==> forall b :: searchStart <= b < foundIndex ==> !IsFree(bits, b, count)
      decreases |bits| - index, !found
    {
      if bits[index] {
        forall b | index - freeCount <= b <= index ensures !IsFree(bits, b, count) {
          BlockedBy(bits, b, count, index);
        }
        freeCount := 0;
      } else {
        freeCount := freeCount + 1;
      }
      if count <= freeCount {
        foundIndex := index + 1 - count;
        found := true;
      } else {
        index := index + 1;
      }
    }
    if found {
      FirstFitIsLeftmost(bits, searchStart, count, foundIndex);
    } else {
      NoFit(bits, searchStart, count);
    }
  }

  lemma BlockedBy(bits: seq<bool>, b: nat, count: nat, index: nat)
    requires b <= index < |bits| && bits[index] && index < b + count
    ensures !IsFree(bits, b, count)
  {
  }

  lemma {:induction false} NoFit(bits: seq<bool>, start: nat, count: nat)
    requires 0 < count && forall b :: start <= b && b + count <= |bits| ==> !IsFree(bits, b, count)
    ensures FirstFit(bits, start, count) == None
    decreases |bits| - start
  {
    if start + count <= |bits| {
      NoFit(bits, start + 1, count);
    }
  }

  // The loops that set or clear a range of the bitmap.
  method MarkRange(bits: seq<bool>, base: nat, count: nat, value: bool) returns (r: seq<bool>)
    requires base + count <= |bits|
    ensures r == Marked(bits, base, count, value)
  {
    r := bits;
    for index := base to base + count
      invariant |r| == |bits|
      invariant forall i :: 0 <= i < |bits| ==> r[i] == if base <= i < index then value else bits[i]
    {
      r := r[index := value];
    }
  }

  class StaticDescriptorHeap {
    var heap: Option<seq<Descriptor>>
    var shaderVisibleHeap: Option<seq<Descriptor>>
    var heapType: HeapType
    var numDescriptors: uint32
    var allocatedDescriptors: seq<bool>
    var searchStart: uint32
    var numAllocatedDescriptors: uint32

    constructor ()
      ensures heap == None && shaderVisibleHeap == None
      ensures numDescriptors == 0 && allocatedDescriptors == [] && searchStart == 0 && numAllocatedDescriptors == 0
    {
      heap, shaderVisibleHeap, heapType := None, None, CbvSrvUav;
      numDescriptors, allocatedDescriptors, searchStart, numAllocatedDescriptors := 0, [], 0, 0;
    }

    // The resources were created; the bitmap and both heaps have one element per descriptor.
    ghost predicate Valid()
      reads this
    {
      && heap.Some? && |heap.value| == numDescriptors == |allocatedDescriptors|
      && (shaderVisibleHeap.Some? ==> |shaderVisibleHeap.value| == numDescriptors)
      && searchStart <= numDescriptors
    }

    function Kind(): HeapKind
      reads this
    {
      HeapKind(heapType, shaderVisibleHeap.Some?)
    }

    ghost function Contents(): Allocator
      reads this
    {
      Allocator(allocatedDescriptors, searchStart, numAllocatedDescriptors)
    }

    // Replaces both heaps; what was marked as allocated stays marked.
    method AllocateResources(heapType: HeapType, numDescriptors: uint32, shaderVisible: bool)
      requires |allocatedDescriptors| <= numDescriptors
      modifies `heap, `shaderVisibleHeap, `heapType, `numDescriptors, `allocatedDescriptors
      ensures Kind() == HeapKind(heapType, shaderVisible)
      ensures heap.Some? && |heap.value| == numDescriptors
      ensures shaderVisibleHeap.Some? ==> |shaderVisibleHeap.value| == numDescriptors
      ensures this.numDescriptors == numDescriptors
      ensures allocatedDescriptors == Grown(old(allocatedDescriptors), numDescriptors)
    {
      heap := Some(seq(numDescriptors, _ => Uninitialized));
      shaderVisibleHeap := if shaderVisible then Some(seq(numDescriptors, _ => Uninitialized)) else None;
      this.numDescriptors, this.heapType := numDescriptors, heapType;
      allocatedDescriptors := Grown(allocatedDescriptors, numDescriptors);
    }

    // Fails exactly when a shader-visible heap would exceed its limit, and then changes
    // nothing. The old CPU heap is the source of both copies.
    method Grow(minRequiredSize: uint32) returns (ok: bool)
      requires Valid() && numDescriptors < minRequiredSize && CanRound(Kind(), minRequiredSize)
      modifies `heap, `shaderVisibleHeap, `heapType, `numDescriptors, `allocatedDescriptors
      ensures Valid() && Kind() == old(Kind())
      ensures ok <==> GrownSize(old(Kind()), minRequiredSize).Some?
      ensures !ok ==> unchanged(this)
      ensures ok ==> numDescriptors == GrownSize(old(Kind()), minRequiredSize).value && minRequiredSize <= numDescriptors
      ensures ok ==> allocatedDescriptors == Grown(old(allocatedDescriptors), numDescriptors)
      ensures ok ==> old(heap.value) <= heap.value
      ensures ok && shaderVisibleHeap.Some? ==> old(heap.value) <= shaderVisibleHeap.value
    {
      GrownSizeIsEnough(Kind(), minRequiredSize);
      var oldSize := numDescriptors;
      var newSize := NextPowerOf2(minRequiredSize);
      var isShaderVisible := shaderVisibleHeap.Some?;
      if isShaderVisible {
        var maxSize := Kind().MaxSize();
        newSize := if newSize < maxSize then newSize else maxSize;
        if newSize < minRequiredSize {
          return false;
        }
      }
      var oldHeap := heap.value;
      AllocateResources(heapType, newSize, isShaderVisible);
      heap := Some(oldHeap[..oldSize] + heap.value[oldSize..]);
      if shaderVisibleHeap.Some? {
        shaderVisibleHeap := Some(oldHeap[..oldSize] + shaderVisibleHeap.value[oldSize..]);
      }
      return true;
    }

    method AllocateDescriptors(count: uint32) returns (index: uint32)
      requires Valid() && CanAllocate(Kind(), Contents(), count)
      modifies this
      ensures Valid() && Kind() == old(Kind())
      ensures var r := Allocate(old(Kind()), old(Contents()), count);
              Contents() == r.allocator && index == if r.base.Some? then r.base.value else INVALID_DESCRIPTOR_INDEX
      ensures old(heap.value) <= heap.value
      ensures numDescriptors == old(numDescriptors) ==> heap == old(heap) && shaderVisibleHeap == old(shaderVisibleHeap)
      ensures numDescriptors != old(numDescriptors) && shaderVisibleHeap.Some? ==> old(heap.value) <= shaderVisibleHeap.value
    {
      var found, foundIndex := FindFree(allocatedDescriptors, searchStart, count);
      if !found {
        foundIndex := numDescriptors;
        var ok := Grow(numDescriptors + count);
        if !ok {
          return INVALID_DESCRIPTOR_INDEX;
        }
      }
      Occupy(foundIndex, count);
      return foundIndex;
    }

    // Marks the range that was found.
    method Occupy(foundIndex: uint32, count: uint32)
      requires Valid() && foundIndex + count <= numDescriptors
      modifies `allocatedDescriptors, `numAllocatedDescriptors, `searchStart
      ensures Valid() && Contents() == Take(old(Contents()), foundIndex, count).allocator
    {
      allocatedDescriptors := MarkRange(allocatedDescriptors, foundIndex, count, true);
      numAllocatedDescriptors := Wrap(numAllocatedDescriptors + count);
      searchStart := foundIndex + count;
    }

    method AllocateDescriptor() returns (index: uint32)
      requires Valid() && CanAllocate(Kind(), Contents(), 1)
      modifies this
      ensures Valid() && Kind() == old(Kind())
      ensures var r := Allocate(old(Kind()), old(Contents()), 1);
              Contents() == r.allocator && index == if r.base.Some? then r.base.value else INVALID_DESCRIPTOR_INDEX
      ensures old(heap.value) <= heap.value
    {
      index := AllocateDescriptors(1);
    }

    method ReleaseDescriptors(baseIndex: uint32, count: uint32)
      requires Valid() && baseIndex + count <= numDescriptors
      modifies `allocatedDescriptors, `searchStart, `numAllocatedDescriptors
      ensures Valid() && Contents() == Release(old(Contents()), baseIndex, count)
    {
      if count == 0 {
        return;
      }
      allocatedDescriptors := MarkRange(allocatedDescriptors, baseIndex, count, false);
      numAllocatedDescriptors := Wrap(numAllocatedDescriptors - count);
      if baseIndex < searchStart {
        searchStart := baseIndex;
      }
    }

    method ReleaseDescriptor(index: uint32)
      requires Valid() && index < numDescriptors
      modifies `allocatedDescriptors, `searchStart, `numAllocatedDescriptors
      ensures Valid() && Contents() == Release(old(Contents()), index, 1)
    {
      ReleaseDescriptors(index, 1);
    }

    method CopyToShaderVisibleHeap(index: uint32, count: uint32)
      requires Valid() && shaderVisibleHeap.Some? && index + count <= numDescriptors
      modifies `shaderVisibleHeap
      ensures Valid() && shaderVisibleHeap.Some?
      ensures forall i :: 0 <= i < numDescriptors ==>
                shaderVisibleHeap.value[i] == if index <= i < index + count then heap.value[i] else old(shaderVisibleHeap.value[i])
    {
      var visible := shaderVisibleHeap.value;
      shaderVisibleHeap := Some(visible[..index] + heap.value[index..index + count] + visible[index + count..]);
    }
  }
}
