/**
 `BitSetAllocator` (src/common/utils.cpp): hands out the indices of a fixed set, scanning
 it as a ring from the index after the last one handed out or the least one released.
 */
module BitSets {
  import opened Wrappers

  datatype BitSet = BitSet(taken: seq<bool>, next: nat) {
    predicate Valid() {
      next < |taken| || (next == 0 && taken == [])
    }
  }

  // The i-th index of the ring.
  function RingIndex(b: BitSet, i: nat): (index: nat)
    requires b.Valid() && i < |b.taken|
    ensures index < |b.taken|
    ensures index == if b.next + i < |b.taken| then b.next + i else b.next + i - |b.taken|
  {
    ModuloOnce(b.next + i, |b.taken|);
    (b.next + i) % |b.taken|
  }

  lemma ModuloOnce(x: nat, n: nat)
    requires x < 2 * n
    ensures x % n == if x < n then x else x - n
  {
  }

  // The first free index of the ring from its i-th on.
  function FirstFree(b: BitSet, i: nat): (first: Option<nat>)
    requires b.Valid()
    ensures first.Some? ==> first.value < |b.taken| && !b.taken[first.value]
    decreases |b.taken| - i
  {
    if |b.taken| <= i then None
    else if !b.taken[RingIndex(b, i)] then Some(RingIndex(b, i))
    else FirstFree(b, i + 1)
  }

  datatype Outcome = Outcome(bitSet: BitSet, index: Option<nat>)

  function TakeNext(b: BitSet): (r: Outcome)
    requires b.Valid()
  {
    match FirstFree(b, 0)
    case None => Outcome(b, None)
    case Some(index) =>
      Outcome(BitSet(b.taken[index := true], (index + 1) % |b.taken|), Some(index))
  }

  function GiveBack(b: BitSet, index: int): BitSet {
    if 0 <= index < |b.taken| then BitSet(b.taken[index := false], if index < b.next then index else b.next) else b
  }

  lemma RingReaches(b: BitSet, index: nat) returns (i: nat)
    requires b.Valid() && index < |b.taken|
    ensures i < |b.taken| && RingIndex(b, i) == index
  {
    i := if b.next <= index then index - b.next else index + |b.taken| - b.next;
  }

  lemma {:induction false} NoneFree(b: BitSet, i: nat)
    requires b.Valid() && FirstFree(b, i) == None
    ensures forall k :: i <= k < |b.taken| ==> b.taken[RingIndex(b, k)]
    decreases |b.taken| - i
  {
    if i < |b.taken| {
      NoneFree(b, i + 1);
    }
  }

  // Allocation fails exactly when everything is taken; otherwise it takes one free index.
  lemma TakeNextIsExact(b: BitSet)
    requires b.Valid()
    ensures var r := TakeNext(b);
            && r.bitSet.Valid() && |r.bitSet.taken| == |b.taken|
            && (r.index == None <==> forall k :: 0 <= k < |b.taken| ==> b.taken[k])
            && (r.index == None ==> r.bitSet == b)
            && (r.index.Some? ==> r.index.value < |b.taken| && !b.taken[r.index.value]
                                  && r.bitSet.taken == b.taken[r.index.value := true])
  {
    var first := FirstFree(b, 0);
    if first == None {
      NoneFree(b, 0);
      forall k | 0 <= k < |b.taken| ensures b.taken[k] {
        var i := RingReaches(b, k);
      }
    } else {
      ModuloOnce(first.value + 1, |b.taken|);
    }
  }

  // The index handed out is the first free one from `next` on, as a ring, and the one after
  // it is where the next search starts.
  lemma TakeNextIsFirst(b: BitSet)
    requires b.Valid() && TakeNext(b).index.Some?
    ensures var index := TakeNext(b).index.value;
            if b.next <= index then forall k :: b.next <= k < index ==> b.taken[k]
            else (forall k :: b.next <= k < |b.taken| ==> b.taken[k]) && forall k :: 0 <= k < index ==> b.taken[k]
    ensures var r := TakeNext(b);
            r.bitSet.next == if r.index.value + 1 < |b.taken| then r.index.value + 1 else 0
  {
    var i := FirstFreeAt(b, 0);
    ModuloOnce(TakeNext(b).index.value + 1, |b.taken|);
    forall k | 0 <= k < i ensures b.taken[RingIndex(b, k)] {
    }
    var index := TakeNext(b).index.value;
    forall k | 0 <= k < |b.taken| && (if b.next <= index then b.next <= k < index else b.next <= k || k < index)
      ensures b.taken[k]
    {
      var at := RingReaches(b, k);
    }
  }

  lemma {:induction false} FirstFreeAt(b: BitSet, i: nat) returns (at: nat)
    requires b.Valid() && FirstFree(b, i).Some?
    ensures i <= at < |b.taken| && FirstFree(b, i) == Some(RingIndex(b, at))
    ensures forall k :: i <= k < at ==> b.taken[RingIndex(b, k)]
    decreases |b.taken| - i
  {
    if b.taken[RingIndex(b, i)] {
      at := FirstFreeAt(b, i + 1);
    } else {
      at := i;
    }
  }

  // A returned index, or a free one before it, is handed out next.
  lemma ReturnedIsNext(b: BitSet, index: nat)
    requires b.Valid() && index < |b.taken|
    ensures var next := TakeNext(GiveBack(b, index)).index;
            next.Some? && next.value <= index && (index <= b.next ==> next.value == index)
  {
    var r := GiveBack(b, index);
    FirstIsNoLater(r, 0, index - r.next);
  }

  lemma {:induction false} FirstIsNoLater(b: BitSet, i: nat, k: nat)
    requires b.Valid() && i <= k && b.next + k < |b.taken| && !b.taken[b.next + k]
    ensures var first := FirstFree(b, i); first.Some? && b.next + i <= first.value <= b.next + k
    decreases k - i
  {
    if b.taken[RingIndex(b, i)] {
      FirstIsNoLater(b, i + 1, k);
    }
  }

  // ---------- Runs ----------

  // The indices that were handed out and not returned.
  datatype World = World(bitSet: BitSet, live: set<nat>)

  datatype Event = Take | Return(index: int)

  function Step(w: World, e: Event): World
    requires w.bitSet.Valid()
  {
    match e
    case Take =>
      var r := TakeNext(w.bitSet);
      World(r.bitSet, if r.index == None then w.live else w.live + {r.index.value})
    case Return(index) => World(GiveBack(w.bitSet, index), set k | k in w.live && k != index)
  }

  ghost predicate Inv(w: World) {
    && w.bitSet.Valid()
    && forall k: nat :: k in w.live <==> k < |w.bitSet.taken| && w.bitSet.taken[k]
  }

  lemma StepKeeps(w: World, e: Event)
    requires Inv(w)
    ensures Inv(Step(w, e)) && |Step(w, e).bitSet.taken| == |w.bitSet.taken|
  {
  }

  // Any interleaving keeps the bitmap the set of live indices.
  function Run(w: World, run: seq<Event>): (r: World)
    requires Inv(w)
    ensures Inv(r) && |r.bitSet.taken| == |w.bitSet.taken|
    decreases |run|
  {
    if run == [] then w
    else
      StepKeeps(w, run[0]);
      Run(Step(w, run[0]), run[1..])
  }

  function NewWorld(capacity: nat): (w: World)
    ensures Inv(w) && |w.bitSet.taken| == capacity
  {
    World(BitSet(seq(capacity, _ => false), 0), {})
  }

  // After any interleaving of allocations and releases, the next allocation fails exactly
  // when every index is live, and otherwise hands out one that is not.
  lemma NextIndexIsNotLive(capacity: nat, run: seq<Event>)
    ensures var w := Run(NewWorld(capacity), run);
            var index := TakeNext(w.bitSet).index;
            && (index == None <==> forall k :: 0 <= k < capacity ==> k in w.live)
            && (index.Some? ==> index.value < capacity && index.value !in w.live)
  {
    TakeNextIsExact(Run(NewWorld(capacity), run).bitSet);
  }

  // ---------- The class ----------

  class BitSetAllocator {
    var nextAvailable: int
    var allocatedBits: seq<bool>

    ghost predicate Valid()
      reads this
    {
      // The ring index must not overflow an int.
      && |allocatedBits| <= 0x4000_0000
      && (0 <= nextAvailable < |allocatedBits| || (nextAvailable == 0 && allocatedBits == []))
    }

    ghost function Contents(): (b: BitSet)
      requires Valid()
      reads this
    {
      BitSet(allocatedBits, nextAvailable)
    }

    constructor (capacity: nat)
      requires capacity <= 0x4000_0000
      ensures Valid() && Contents() == NewWorld(capacity).bitSet
    {
      nextAvailable, allocatedBits := 0, seq(capacity, _ => false);
    }

    method Allocate() returns (result: int)
      requires Valid()
      modifies this
      ensures Valid()
      ensures var r := TakeNext(old(Contents()));
              Contents() == r.bitSet && result == if r.index.Some? then r.index.value else -1
    {
      ghost var b := Contents();
      TakeNextIsExact(b);
      result := -1;
      var capacity := |allocatedBits|;
      for i := 0 to capacity
        invariant Valid() && Contents() == b && capacity == |allocatedBits|
        invariant FirstFree(b, 0) == FirstFree(b, i)
        invariant result == -1
      {
        var ii := (nextAvailable + i) % capacity;
        assert ii == RingIndex(b, i);
        if !allocatedBits[ii] {
          result := ii;
          nextAvailable := (ii + 1) % capacity;
          allocatedBits := allocatedBits[ii := true];
          break;
        }
      }
    }

    method Release(index: int)
      requires Valid()
      modifies this
      ensures Valid() && Contents() == GiveBack(old(Contents()), index)
    {
      if 0 <= index < |allocatedBits| {
        allocatedBits := allocatedBits[index := false];
        nextAvailable := if nextAvailable < index then nextAvailable else index;
      }
    }
  }
}
