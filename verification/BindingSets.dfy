/**
 D3D11 binding sets (src/d3d11/d3d11-backend.h, `BindingSet`) and the difference between
 two vectors of them (src/d3d11/d3d11-resource-bindings.cpp).

 The device has a table of slots for every shader stage and kind of resource. Changing
 the bound sets incrementally - keeping what both vectors share, not unbinding what will
 be overwritten - must leave the same tables as binding the new vector on an empty device.
 */
module BindingSets {

  datatype Stage = Vertex | Hull | Domain | Geometry | Pixel | Compute | Amplification | Mesh

  // The stages the graphics functions handle.
  const GRAPHICS_STAGES: set<Stage> := {Vertex, Hull, Domain, Geometry, Pixel}

  datatype Kind = ConstantBuffers | ShaderResources | Samplers | UnorderedAccess {
    // D3D11_COMMONSHADER_*_SLOT_COUNT and D3D11_1_UAV_SLOT_COUNT
    function SlotCount(): nat {
      match this
      case ConstantBuffers => 14
      case ShaderResources => 128
      case Samplers => 16
      case UnorderedAccess => 64
    }
  }

  // A view or object bound to a slot; constant buffers have a range.
  datatype Entry = Null | Bound(view: nat, offset: nat, count: nat)

  // The entries of one kind and the hull of the slots in use; it is empty when high < low.
  datatype Slots = Slots(low: nat, high: nat, entries: seq<Entry>) {
    predicate Valid(kind: Kind) {
      |entries| == kind.SlotCount() && (low <= high ==> high < |entries|)
    }

    predicate Contains(slot: nat) {
      low <= slot <= high
    }

    predicate IsEmpty() {
      high < low
    }

    predicate HullContains(other: Slots) {
      low <= other.low && other.high <= high
    }
  }

  datatype SetFields = SetFields(constantBuffers: Slots, shaderResources: Slots, samplers: Slots, unorderedAccess: Slots) {
    function Of(kind: Kind): Slots {
      match kind
      case ConstantBuffers => constantBuffers
      case ShaderResources => shaderResources
      case Samplers => samplers
      case UnorderedAccess => unorderedAccess
    }

    predicate Valid() {
      forall kind: Kind :: Of(kind).Valid(kind)
    }
  }

  const NO_SLOTS := SetFields(
    Slots(14, 0, seq(14, _ => Null)), Slots(128, 0, seq(128, _ => Null)),
    Slots(16, 0, seq(16, _ => Null)), Slots(64, 0, seq(64, _ => Null)))

  type SetContents = c: SetFields | c.Valid() witness NO_SLOTS

  // A binding set does not change once it is created; sets are compared by identity.
  class BindingSet {
    const contents: SetContents
    const visibility: set<Stage>

    constructor (contents: SetContents, visibility: set<Stage>)
      ensures this.contents == contents && this.visibility == visibility
    {
      this.contents, this.visibility := contents, visibility;
    }

    // Compares slot ranges only, not stage visibility.
    predicate IsSupersetOf(other: BindingSet) {
      && contents.shaderResources.HullContains(other.contents.shaderResources)
      && contents.unorderedAccess.HullContains(other.contents.unorderedAccess)
      && contents.samplers.HullContains(other.contents.samplers)
      && contents.constantBuffers.HullContains(other.contents.constantBuffers)
    }
  }

  datatype Location = Location(stage: Stage, kind: Kind, slot: nat)

  // Binding `s` for `stages` writes this location. Graphics stages have no UAV slots here.
  predicate Writes(s: BindingSet?, stages: set<Stage>, at: Location) {
    && s != null
    && at.stage in s.visibility && at.stage in stages
    && (at.kind == UnorderedAccess ==> at.stage == Compute)
    && s.contents.Of(at.kind).Contains(at.slot)
  }

  predicate AnyWrites(sets: seq<BindingSet?>, stages: set<Stage>, at: Location) {
    exists i :: 0 <= i < |sets| && Writes(sets[i], stages, at)
  }

  // What binding the sets in order leaves at a location.
  function AfterBind(prior: Entry, sets: seq<BindingSet?>, stages: set<Stage>, at: Location): Entry {
    if sets == [] then prior
    else
      var last := sets[|sets| - 1];
      if Writes(last, stages, at) then last.contents.Of(at.kind).entries[at.slot]
      else AfterBind(prior, sets[..|sets| - 1], stages, at)
  }

  // What unbinding the sets leaves at a location.
  function AfterUnbind(prior: Entry, sets: seq<BindingSet?>, stages: set<Stage>, at: Location): Entry {
    if sets == [] then prior
    else if Writes(sets[|sets| - 1], stages, at) then Null
    else AfterUnbind(prior, sets[..|sets| - 1], stages, at)
  }

  // A from-scratch bind.
  function CleanBind(sets: seq<BindingSet?>, stages: set<Stage>, at: Location): Entry {
    AfterBind(Null, sets, stages, at)
  }

  // ---------- The difference ----------

  datatype Difference = Difference(bind: seq<BindingSet?>, unbind: seq<BindingSet?>)

  function IndexOf(sets: seq<BindingSet?>, s: BindingSet?): (k: nat)
    ensures k <= |sets|
    ensures k < |sets| ==> sets[k] == s
    ensures k == |sets| ==> s !in sets
  {
    if sets == [] || sets[0] == s then 0 else 1 + IndexOf(sets[1..], s)
  }

  // One-to-one cancellation of the sets in both vectors, from position i on.
  function CancelFrom(d: Difference, i: nat): Difference
    decreases |d.bind| - i
  {
    if |d.bind| <= i then d
    else
      var j := IndexOf(d.unbind, d.bind[i]);
      if d.bind[i] != null && j < |d.unbind| then
        CancelFrom(Difference(d.bind[i := null], d.unbind[j := null]), i + 1)
      else CancelFrom(d, i + 1)
  }

  // The binding of another set will overwrite all slots of `s`; UAV slots of a compute
  // set are unbound nevertheless.
  predicate OverwrittenBy(b: BindingSet, s: BindingSet, keepUavs: bool) {
    b.IsSupersetOf(s) && (keepUavs ==> s.contents.unorderedAccess.IsEmpty())
  }

  predicate Overwritten(bind: seq<BindingSet?>, s: BindingSet, keepUavs: bool) {
    exists i :: 0 <= i < |bind| && bind[i] != null && OverwrittenBy(bind[i], s, keepUavs)
  }

  function DropOverwritten(d: Difference, keepUavs: bool): (r: Difference)
    ensures r.bind == d.bind && |r.unbind| == |d.unbind|
    ensures forall j :: 0 <= j < |r.unbind| ==>
              r.unbind[j] == if d.unbind[j] != null && Overwritten(d.bind, d.unbind[j], keepUavs) then null else d.unbind[j]
  {
    Difference(d.bind, seq(|d.unbind|, j requires 0 <= j < |d.unbind| =>
      if d.unbind[j] != null && Overwritten(d.bind, d.unbind[j], keepUavs) then null else d.unbind[j]))
  }

  // prepareToBindGraphicsResourceSets
  function GraphicsDifference(newSets: seq<BindingSet?>, oldSets: seq<BindingSet?>, sameMask: bool, updateFramebuffer: bool): Difference {
    var all := Difference(newSets, oldSets);
    if !sameMask then all
    else
      var cancelled := CancelFrom(all, 0);
      if updateFramebuffer then cancelled else DropOverwritten(cancelled, false)
  }

  // bindComputeResourceSets
  function ComputeDifference(newSets: seq<BindingSet?>, oldSets: seq<BindingSet?>): Difference {
    DropOverwritten(CancelFrom(Difference(newSets, oldSets), 0), true)
  }

  // `after` is `before` with some sets replaced by null.
  predicate Thinned(before: seq<BindingSet?>, after: seq<BindingSet?>) {
    |after| == |before| && forall i :: 0 <= i < |before| ==> after[i] == before[i] || after[i] == null
  }

  // Some occurrence of `s` was replaced by null.
  predicate Gone(before: seq<BindingSet?>, after: seq<BindingSet?>, s: BindingSet)
    requires |after| == |before|
  {
    exists i :: 0 <= i < |before| && before[i] == s && after[i] == null
  }

  // What went from the first vector went from the second.
  predicate GoneTogether(before: seq<BindingSet?>, after: seq<BindingSet?>, before': seq<BindingSet?>, after': seq<BindingSet?>)
    requires |after| == |before| && |after'| == |before'|
  {
    forall i :: 0 <= i < |before| && before[i] != null && after[i] == null ==> Gone(before', after', before[i])
  }

  predicate Cancelled(newSets: seq<BindingSet?>, oldSets: seq<BindingSet?>, d: Difference) {
    && Thinned(newSets, d.bind) && Thinned(oldSets, d.unbind)
    && GoneTogether(newSets, d.bind, oldSets, d.unbind)
    && GoneTogether(oldSets, d.unbind, newSets, d.bind)
  }

  lemma PairGoes(before: seq<BindingSet?>, after: seq<BindingSet?>, i: nat,
                 before': seq<BindingSet?>, after': seq<BindingSet?>, j: nat)
    requires Thinned(before, after) && Thinned(before', after') && i < |before| && j < |before'|
    requires after[i] != null && after[i] == after'[j]
    requires GoneTogether(before, after, before', after')
    ensures GoneTogether(before, after[i := null], before', after'[j := null])
  {
  }

  lemma {:induction false} CancelFromCancels(newSets: seq<BindingSet?>, oldSets: seq<BindingSet?>, d: Difference, i: nat)
    requires Cancelled(newSets, oldSets, d)
    ensures Cancelled(newSets, oldSets, CancelFrom(d, i))
    decreases |d.bind| - i
  {
    if i < |d.bind| {
      var j := IndexOf(d.unbind, d.bind[i]);
      if d.bind[i] != null && j < |d.unbind| {
        PairGoes(newSets, d.bind, i, oldSets, d.unbind, j);
        PairGoes(oldSets, d.unbind, j, newSets, d.bind, i);
        CancelFromCancels(newSets, oldSets, Difference(d.bind[i := null], d.unbind[j := null]), i + 1);
      } else {
        CancelFromCancels(newSets, oldSets, d, i + 1);
      }
    }
  }

  // The set occurs more often in the first vector.
  predicate Surplus(a: seq<BindingSet?>, b: seq<BindingSet?>, s: BindingSet) {
    multiset(b)[s] < multiset(a)[s]
  }

  lemma CountsUpdated(sets: seq<BindingSet?>, i: nat, s: BindingSet)
    requires i < |sets|
    ensures multiset(sets[i := null])[s] == multiset(sets)[s] - (if sets[i] == s then 1 else 0)
    ensures s in sets[i := null] ==> s in sets
  {
    if s in sets[i := null] {
      var k :| 0 <= k < |sets| && sets[i := null][k] == s;
      assert sets[k] == s;
    }
  }

  lemma PrefixOneMore(sets: seq<BindingSet?>, i: nat, s: BindingSet?)
    requires i < |sets|
    ensures s in sets[..i + 1] <==> s in sets[..i] || s == sets[i]
  {
    assert sets[..i + 1] == sets[..i] + [sets[i]];
  }

  lemma PairCounts(d: Difference, i: nat, j: nat, s: BindingSet)
    requires i < |d.bind| && j < |d.unbind| && d.bind[i] != null && d.unbind[j] == d.bind[i]
    requires s in d.bind[..i] ==> s !in d.unbind
    ensures var next := Difference(d.bind[i := null], d.unbind[j := null]);
            && multiset(next.bind)[s] + multiset(d.unbind)[s] == multiset(d.bind)[s] + multiset(next.unbind)[s]
            && (s in next.bind[..i + 1] ==> s !in next.unbind)
  {
    var next := Difference(d.bind[i := null], d.unbind[j := null]);
    CountsUpdated(d.bind, i, s);
    CountsUpdated(d.unbind, j, s);
    PrefixOneMore(next.bind, i, s);
    assert next.bind[..i] == d.bind[..i];
  }

  lemma {:induction false} CancelCounts(d: Difference, i: nat, s: BindingSet)
    requires i <= |d.bind| && (s in d.bind[..i] ==> s !in d.unbind)
    ensures var r := CancelFrom(d, i);
            && multiset(r.bind)[s] + multiset(d.unbind)[s] == multiset(d.bind)[s] + multiset(r.unbind)[s]
            && (s in r.bind ==> s !in r.unbind)
    decreases |d.bind| - i
  {
    if i == |d.bind| {
      assert d.bind[..i] == d.bind;
    } else {
      var j := IndexOf(d.unbind, d.bind[i]);
      if d.bind[i] != null && j < |d.unbind| {
        PairCounts(d, i, j, s);
        CancelCounts(Difference(d.bind[i := null], d.unbind[j := null]), i + 1, s);
      } else {
        PrefixOneMore(d.bind, i, s);
        CancelCounts(d, i + 1, s);
      }
    }
  }

  // An occurrence that is left has every later occurrence of the set left as well.
  predicate LastOnesLeft(before: seq<BindingSet?>, after: seq<BindingSet?>)
    requires |after| == |before|
  {
    forall a, b :: 0 <= a < b < |before| && after[a] != null && before[b] == after[a] ==> after[b] == after[a]
  }

  lemma {:induction false} CancelLeavesLast(newSets: seq<BindingSet?>, d: Difference, i: nat)
    requires Thinned(newSets, d.bind) && i <= |d.bind| && d.bind[i..] == newSets[i..]
    requires forall a :: 0 <= a < i && d.bind[a] != null ==> d.bind[a] !in d.unbind
    requires LastOnesLeft(newSets[..i], d.bind[..i])
    ensures var r := CancelFrom(d, i);
            |r.bind| == |newSets| && LastOnesLeft(newSets, r.bind)
    decreases |d.bind| - i
  {
    if i == |d.bind| {
      assert newSets[..i] == newSets && d.bind[..i] == d.bind;
    } else {
      var j := IndexOf(d.unbind, d.bind[i]);
      assert d.bind[i] == d.bind[i..][0] && d.bind[i + 1..] == newSets[i + 1..];
      if d.bind[i] != null && j < |d.unbind| {
        var next := Difference(d.bind[i := null], d.unbind[j := null]);
        assert next.bind[i + 1..] == d.bind[i + 1..];
        LeftOneMore(newSets, next.bind, i);
        CancelLeavesLast(newSets, next, i + 1);
      } else {
        LeftOneMore(newSets, d.bind, i);
        CancelLeavesLast(newSets, d, i + 1);
      }
    }
  }

  lemma LeftOneMore(before: seq<BindingSet?>, after: seq<BindingSet?>, i: nat)
    requires |after| == |before| && i < |before| && LastOnesLeft(before[..i], after[..i])
    requires forall a :: 0 <= a < i && after[a] != null && before[i] == after[a] ==> after[i] == after[a]
    ensures LastOnesLeft(before[..i + 1], after[..i + 1])
  {
    assert before[..i + 1] == before[..i] + [before[i]] && after[..i + 1] == after[..i] + [after[i]];
  }

  // Cancellation is the difference of the vectors as multisets, both ways: what is left to
  // bind is what the new vector has more of, what is left to unbind what the old one has.
  lemma CancelIsDifference(newSets: seq<BindingSet?>, oldSets: seq<BindingSet?>, s: BindingSet)
    ensures var d := CancelFrom(Difference(newSets, oldSets), 0);
            var more, fewer := multiset(newSets)[s], multiset(oldSets)[s];
            && multiset(d.bind)[s] == (if fewer < more then more - fewer else 0)
            && multiset(d.unbind)[s] == (if more < fewer then fewer - more else 0)
  {
    CancelCounts(Difference(newSets, oldSets), 0, s);
  }

  // ---------- Tables ----------

  lemma {:induction false} BindUntouched(prior: Entry, sets: seq<BindingSet?>, stages: set<Stage>, at: Location)
    requires !AnyWrites(sets, stages, at)
    ensures AfterBind(prior, sets, stages, at) == prior
  {
    if sets != [] {
      var init := sets[..|sets| - 1];
      assert forall i :: 0 <= i < |init| ==> init[i] == sets[i];
      BindUntouched(prior, init, stages, at);
    }
  }

  lemma {:induction false} UnbindIs(prior: Entry, sets: seq<BindingSet?>, stages: set<Stage>, at: Location)
    ensures AfterUnbind(prior, sets, stages, at) == if AnyWrites(sets, stages, at) then Null else prior
  {
    if sets != [] {
      var init := sets[..|sets| - 1];
      assert forall i :: 0 <= i < |init| ==> init[i] == sets[i];
      UnbindIs(prior, init, stages, at);
    }
  }

  // A location that some set writes does not remember what was there before.
  lemma {:induction false} BindForgets(a: Entry, b: Entry, sets: seq<BindingSet?>, stages: set<Stage>, at: Location)
    requires AnyWrites(sets, stages, at)
    ensures AfterBind(a, sets, stages, at) == AfterBind(b, sets, stages, at)
  {
    var init := sets[..|sets| - 1];
    if !Writes(sets[|sets| - 1], stages, at) {
      assert forall i :: 0 <= i < |init| ==> init[i] == sets[i];
      BindForgets(a, b, init, stages, at);
    }
  }

  predicate DisjointAt(sets: seq<BindingSet?>, stages: set<Stage>, at: Location) {
    forall i, j :: 0 <= i < j < |sets| && Writes(sets[i], stages, at) ==> !Writes(sets[j], stages, at)
  }

  // No two sets of the vector write the same location.
  ghost predicate PairwiseDisjoint(sets: seq<BindingSet?>, stages: set<Stage>) {
    forall at :: DisjointAt(sets, stages, at)
  }

  // The superset shortcut compares slots only; this says that it does not skip a stage.
  ghost predicate SupersetsVisible(newSets: seq<BindingSet?>, oldSets: seq<BindingSet?>, stages: set<Stage>) {
    forall i, j :: 0 <= i < |newSets| && 0 <= j < |oldSets| && newSets[i] != null && oldSets[j] != null
                   && newSets[i].IsSupersetOf(oldSets[j]) ==>
      oldSets[j].visibility * stages <= newSets[i].visibility
  }

  // ---------- What the difference comes to, in terms of the two vectors ----------

  // Binding what the new vector has more of is expected to overwrite the slots of `s`.
  ghost predicate Replaced(newSets: seq<BindingSet?>, oldSets: seq<BindingSet?>, s: BindingSet, keepUavs: bool) {
    && (keepUavs ==> s.contents.unorderedAccess.IsEmpty())
    && exists t :: t in newSets && Surplus(newSets, oldSets, t) && t.IsSupersetOf(s)
  }

  // A set that the old vector has more of, and that is not thought to be overwritten,
  // writes this location.
  ghost predicate DroppedWrites(newSets: seq<BindingSet?>, oldSets: seq<BindingSet?>, keepUavs: bool, shortcut: bool,
                                stages: set<Stage>, at: Location)
  {
    exists s :: && s in oldSets && Writes(s, stages, at) && Surplus(oldSets, newSets, s)
                && !(shortcut && Replaced(newSets, oldSets, s, keepUavs))
  }

  lemma OverwrittenIff(newSets: seq<BindingSet?>, oldSets: seq<BindingSet?>, d: Difference, s: BindingSet, keepUavs: bool)
    requires d == CancelFrom(Difference(newSets, oldSets), 0)
    ensures Overwritten(d.bind, s, keepUavs) <==> Replaced(newSets, oldSets, s, keepUavs)
  {
    if Overwritten(d.bind, s, keepUavs) {
      var i :| 0 <= i < |d.bind| && d.bind[i] != null && d.bind[i].IsSupersetOf(s);
      CancelIsDifference(newSets, oldSets, d.bind[i]);
      assert d.bind[i] in d.bind;
    }
    if Replaced(newSets, oldSets, s, keepUavs) {
      var t :| t in newSets && Surplus(newSets, oldSets, t) && t.IsSupersetOf(s);
      CancelIsDifference(newSets, oldSets, t);
      assert t in d.bind;
      var i :| 0 <= i < |d.bind| && d.bind[i] == t;
    }
  }

  lemma UnbindWritesIff(newSets: seq<BindingSet?>, oldSets: seq<BindingSet?>, d: Difference, keepUavs: bool, shortcut: bool,
                        stages: set<Stage>, at: Location)
    requires d == CancelFrom(Difference(newSets, oldSets), 0)
    ensures AnyWrites((if shortcut then DropOverwritten(d, keepUavs) else d).unbind, stages, at)
            <==> DroppedWrites(newSets, oldSets, keepUavs, shortcut, stages, at)
  {
    var unbind := (if shortcut then DropOverwritten(d, keepUavs) else d).unbind;
    if AnyWrites(unbind, stages, at) {
      var j :| 0 <= j < |unbind| && Writes(unbind[j], stages, at);
      var s: BindingSet := d.unbind[j];
      CancelIsDifference(newSets, oldSets, s);
      OverwrittenIff(newSets, oldSets, d, s, keepUavs);
      assert s in d.unbind;
      assert multiset(d.unbind)[s] != 0;
      assert multiset(oldSets)[s] != 0;
    }
    if DroppedWrites(newSets, oldSets, keepUavs, shortcut, stages, at) {
      var s :| && s in oldSets && Writes(s, stages, at) && Surplus(oldSets, newSets, s)
               && !(shortcut && Replaced(newSets, oldSets, s, keepUavs));
      CancelIsDifference(newSets, oldSets, s);
      OverwrittenIff(newSets, oldSets, d, s, keepUavs);
      assert multiset(d.unbind)[s] != 0;
      assert s in d.unbind;
      var j :| 0 <= j < |d.unbind| && d.unbind[j] == s;
      assert Writes(unbind[j], stages, at);
    }
  }

  // A stale entry: nothing new writes the location, and every old set that wrote it is
  // thought to be overwritten.
  ghost predicate LeavesStale(newSets: seq<BindingSet?>, oldSets: seq<BindingSet?>, keepUavs: bool, stages: set<Stage>, at: Location) {
    && !AnyWrites(newSets, stages, at)
    && CleanBind(oldSets, stages, at) != Null
    && forall s :: s in oldSets && Writes(s, stages, at) ==> Replaced(newSets, oldSets, s, keepUavs)
  }

  // Where nothing new writes, every old writer is surplus.
  lemma NothingNewWrites(newSets: seq<BindingSet?>, oldSets: seq<BindingSet?>, keepUavs: bool, stages: set<Stage>, at: Location)
    requires !AnyWrites(newSets, stages, at)
    ensures CleanBind(oldSets, stages, at) != Null ==> exists s :: s in oldSets && Writes(s, stages, at)
    ensures DroppedWrites(newSets, oldSets, keepUavs, true, stages, at)
            <==> exists s :: s in oldSets && Writes(s, stages, at) && !Replaced(newSets, oldSets, s, keepUavs)
    ensures DroppedWrites(newSets, oldSets, keepUavs, false, stages, at) <==> exists s :: s in oldSets && Writes(s, stages, at)
  {
    forall s | s in oldSets && Writes(s, stages, at) ensures Surplus(oldSets, newSets, s) {
      assert s !in newSets;
    }
    if !AnyWrites(oldSets, stages, at) {
      BindUntouched(Null, oldSets, stages, at);
    }
  }

  lemma VisibleLeavesNothingStale(newSets: seq<BindingSet?>, oldSets: seq<BindingSet?>, keepUavs: bool, stages: set<Stage>, at: Location)
    requires SupersetsVisible(newSets, oldSets, stages)
    ensures !LeavesStale(newSets, oldSets, keepUavs, stages, at)
  {
    if !AnyWrites(newSets, stages, at) {
      NothingNewWrites(newSets, oldSets, keepUavs, stages, at);
    }
  }

  // ---------- The refinement theorems ----------

  function AfterCompute(newSets: seq<BindingSet?>, oldSets: seq<BindingSet?>, at: Location): Entry {
    var d := ComputeDifference(newSets, oldSets);
    AfterBind(AfterUnbind(CleanBind(oldSets, {Compute}, at), d.unbind, {Compute}, at), newSets, {Compute}, at)
  }

  // For any two vectors, the incremental compute bind leaves the entry of a from-scratch
  // bind exactly where it leaves nothing stale.
  lemma ComputeLeavesStaleIff(newSets: seq<BindingSet?>, oldSets: seq<BindingSet?>, at: Location)
    ensures AfterCompute(newSets, oldSets, at) == CleanBind(newSets, {Compute}, at)
            <==> !LeavesStale(newSets, oldSets, true, {Compute}, at)
  {
    var stages := {Compute};
    var cancelled := CancelFrom(Difference(newSets, oldSets), 0);
    var d := ComputeDifference(newSets, oldSets);
    var before := CleanBind(oldSets, stages, at);
    var between := AfterUnbind(before, d.unbind, stages, at);
    UnbindIs(before, d.unbind, stages, at);
    if AnyWrites(newSets, stages, at) {
      BindForgets(between, Null, newSets, stages, at);
    } else {
      BindUntouched(between, newSets, stages, at);
      BindUntouched(Null, newSets, stages, at);
      UnbindWritesIff(newSets, oldSets, cancelled, true, true, stages, at);
      NothingNewWrites(newSets, oldSets, true, stages, at);
    }
  }

  // The incremental compute bind leaves the tables of a from-scratch bind, whatever the
  // slot ranges of the sets and even with duplicated sets, as long as no set that the
  // compute stage sees is hidden by a superset that it does not see.
  lemma ComputeBindRefinesClean(newSets: seq<BindingSet?>, oldSets: seq<BindingSet?>, at: Location)
    requires SupersetsVisible(newSets, oldSets, {Compute})
    ensures AfterCompute(newSets, oldSets, at) == CleanBind(newSets, {Compute}, at)
  {
    ComputeLeavesStaleIff(newSets, oldSets, at);
    VisibleLeavesNothingStale(newSets, oldSets, true, {Compute}, at);
  }

  // Changing to a pipeline with another stage mask unbinds everything first, so the result
  // is a from-scratch bind for any sets.
  lemma GraphicsBindAcrossMasks(newSets: seq<BindingSet?>, oldSets: seq<BindingSet?>, oldStages: set<Stage>, newStages: set<Stage>,
                                updateFramebuffer: bool, at: Location)
    ensures var d := GraphicsDifference(newSets, oldSets, false, updateFramebuffer);
            var before := CleanBind(oldSets, oldStages, at);
            AfterBind(AfterUnbind(before, d.unbind, oldStages, at), d.bind, newStages, at) == CleanBind(newSets, newStages, at)
  {
    UnbindIs(CleanBind(oldSets, oldStages, at), oldSets, oldStages, at);
    if !AnyWrites(oldSets, oldStages, at) {
      BindUntouched(Null, oldSets, oldStages, at);
    }
  }

  // The incremental graphics change under one stage mask, starting from a clean bind.
  function AfterChange(newSets: seq<BindingSet?>, oldSets: seq<BindingSet?>, stages: set<Stage>,
                       updateFramebuffer: bool, at: Location): Entry
  {
    var d := GraphicsDifference(newSets, oldSets, true, updateFramebuffer);
    AfterBind(AfterUnbind(CleanBind(oldSets, stages, at), d.unbind, stages, at), d.bind, stages, at)
  }

  // The sets that the new vector has more of, at their places.
  function SurplusOnly(newSets: seq<BindingSet?>, oldSets: seq<BindingSet?>): (r: seq<BindingSet?>)
    ensures |r| == |newSets|
    ensures forall i :: 0 <= i < |r| ==> r[i] == if newSets[i] != null && Surplus(newSets, oldSets, newSets[i]) then newSets[i] else null
  {
    seq(|newSets|, i requires 0 <= i < |newSets| =>
      if newSets[i] != null && Surplus(newSets, oldSets, newSets[i]) then newSets[i] else null)
  }

  predicate LastWriter(sets: seq<BindingSet?>, i: nat, stages: set<Stage>, at: Location) {
    && i < |sets| && Writes(sets[i], stages, at)
    && forall k :: i < k < |sets| ==> !Writes(sets[k], stages, at)
  }

  lemma {:induction false} LastWriterDecides(prior: Entry, sets: seq<BindingSet?>, i: nat, stages: set<Stage>, at: Location)
    requires LastWriter(sets, i, stages, at)
    ensures AfterBind(prior, sets, stages, at) == sets[i].contents.Of(at.kind).entries[at.slot]
  {
    if i < |sets| - 1 {
      LastWriterDecides(prior, sets[..|sets| - 1], i, stages, at);
    }
  }

  lemma {:induction false} LastWriterExists(sets: seq<BindingSet?>, stages: set<Stage>, at: Location) returns (i: nat)
    requires AnyWrites(sets, stages, at)
    ensures LastWriter(sets, i, stages, at)
  {
    i := |sets| - 1;
    if !Writes(sets[i], stages, at) {
      var init := sets[..i];
      assert forall k :: 0 <= k < |init| ==> init[k] == sets[k];
      i := LastWriterExists(init, stages, at);
    }
  }

  // What is left to bind is some occurrences of the surplus sets, among them the last.
  lemma LeftIsSurplus(newSets: seq<BindingSet?>, oldSets: seq<BindingSet?>, i: nat)
    requires i < |newSets|
    ensures var left := CancelFrom(Difference(newSets, oldSets), 0).bind;
            && |left| == |newSets|
            && (left[i] != null ==> left[i] == SurplusOnly(newSets, oldSets)[i])
            && (newSets[i] != null && Surplus(newSets, oldSets, newSets[i]) && newSets[i] !in newSets[i + 1..] ==>
                  left[i] == newSets[i])
  {
    var all := Difference(newSets, oldSets);
    var left := CancelFrom(all, 0).bind;
    CancelFromCancels(newSets, oldSets, all, 0);
    CancelLeavesLast(newSets, all, 0);
    if left[i] != null {
      CancelIsDifference(newSets, oldSets, left[i]);
      assert multiset(left)[left[i]] != 0;
    }
    if newSets[i] != null && Surplus(newSets, oldSets, newSets[i]) && newSets[i] !in newSets[i + 1..] {
      CancelIsDifference(newSets, oldSets, newSets[i]);
      assert multiset(left)[newSets[i]] != 0;
      var k :| 0 <= k < |left| && left[k] == newSets[i];
    }
  }

  lemma LeftBindsAsSurplus(newSets: seq<BindingSet?>, oldSets: seq<BindingSet?>, stages: set<Stage>, at: Location)
    ensures var left := CancelFrom(Difference(newSets, oldSets), 0).bind;
            && (AnyWrites(left, stages, at) <==> AnyWrites(SurplusOnly(newSets, oldSets), stages, at))
            && CleanBind(left, stages, at) == CleanBind(SurplusOnly(newSets, oldSets), stages, at)
  {
    var left, surplus := CancelFrom(Difference(newSets, oldSets), 0).bind, SurplusOnly(newSets, oldSets);
    CancelFromCancels(newSets, oldSets, Difference(newSets, oldSets), 0);
    forall k | 0 <= k < |left| ensures left[k] == null || left[k] == surplus[k] {
      LeftIsSurplus(newSets, oldSets, k);
    }
    if AnyWrites(surplus, stages, at) {
      var i := LastWriterExists(surplus, stages, at);
      LeftIsSurplus(newSets, oldSets, i);
      LastWriterDecides(Null, surplus, i, stages, at);
      LastWriterDecides(Null, left, i, stages, at);
    } else {
      BindUntouched(Null, surplus, stages, at);
      BindUntouched(Null, left, stages, at);
    }
  }

  // What binding one set from scratch leaves, in terms of its visibility, the stages and its
  // slot ranges: every stage both of them name, in every table but that of unordered accesses,
  // which only compute has, gets every slot of the range; nothing else is written.
  lemma CleanBindOfOne(s: BindingSet, stages: set<Stage>, stage: Stage, kind: Kind, slot: nat)
    ensures CleanBind([s], stages, Location(stage, kind, slot))
            == if stage in s.visibility && stage in stages && (kind == UnorderedAccess ==> stage == Compute)
                  && s.contents.Of(kind).low <= slot <= s.contents.Of(kind).high
               then s.contents.Of(kind).entries[slot] else Null
  {
    assert [s][..0] == [] && AfterBind(Null, [], stages, Location(stage, kind, slot)) == Null;
  }

  // A set that binds a location, in these terms.
  predicate Shows(s: BindingSet?, stages: set<Stage>, stage: Stage, kind: Kind, slot: nat) {
    && s != null && stage in s.visibility * stages && (kind == UnorderedAccess ==> stage == Compute)
    && s.contents.Of(kind).low <= slot <= s.contents.Of(kind).high
  }

  // Whatever was bound before: the last set of a vector that shows a location has its entry
  // there, and where no set shows it, nothing changes.
  lemma LastShownStays(prior: Entry, sets: seq<BindingSet?>, stages: set<Stage>, stage: Stage, kind: Kind, slot: nat)
    ensures forall k :: 0 <= k < |sets| && Shows(sets[k], stages, stage, kind, slot)
                        && (forall j :: k < j < |sets| ==> !Shows(sets[j], stages, stage, kind, slot)) ==>
              AfterBind(prior, sets, stages, Location(stage, kind, slot)) == sets[k].contents.Of(kind).entries[slot]
    ensures (forall k :: 0 <= k < |sets| ==> !Shows(sets[k], stages, stage, kind, slot)) ==>
              AfterBind(prior, sets, stages, Location(stage, kind, slot)) == prior
  {
    var at := Location(stage, kind, slot);
    forall k | 0 <= k < |sets| ensures Writes(sets[k], stages, at) <==> Shows(sets[k], stages, stage, kind, slot) {
    }
    forall k | 0 <= k < |sets| && Shows(sets[k], stages, stage, kind, slot)
               && (forall j :: k < j < |sets| ==> !Shows(sets[j], stages, stage, kind, slot))
      ensures AfterBind(prior, sets, stages, at) == sets[k].contents.Of(kind).entries[slot]
    {
      LastWriterDecides(prior, sets, k, stages, at);
    }
    if !AnyWrites(sets, stages, at) {
      BindUntouched(prior, sets, stages, at);
    }
  }

  // What the change leaves, for any two vectors: the entry of the last set that the new
  // vector has more of, else nothing where a dropped set wrote, else what was there.
  lemma ChangeLeaves(newSets: seq<BindingSet?>, oldSets: seq<BindingSet?>, stages: set<Stage>, updateFramebuffer: bool, at: Location)
    ensures AfterChange(newSets, oldSets, stages, updateFramebuffer, at)
            == if AnyWrites(SurplusOnly(newSets, oldSets), stages, at) then CleanBind(SurplusOnly(newSets, oldSets), stages, at)
               else if DroppedWrites(newSets, oldSets, false, !updateFramebuffer, stages, at) then Null
               else CleanBind(oldSets, stages, at)
  {
    var cancelled := CancelFrom(Difference(newSets, oldSets), 0);
    var d := GraphicsDifference(newSets, oldSets, true, updateFramebuffer);
    var before := CleanBind(oldSets, stages, at);
    var between := AfterUnbind(before, d.unbind, stages, at);
    UnbindIs(before, d.unbind, stages, at);
    UnbindWritesIff(newSets, oldSets, cancelled, false, !updateFramebuffer, stages, at);
    LeftBindsAsSurplus(newSets, oldSets, stages, at);
    if AnyWrites(d.bind, stages, at) {
      BindForgets(between, Null, d.bind, stages, at);
    } else {
      BindUntouched(between, d.bind, stages, at);
    }
  }

  // For any two vectors: where the last new writer has to be bound, nothing is lost.
  lemma BoundIsNotLost(newSets: seq<BindingSet?>, oldSets: seq<BindingSet?>, i: nat, stages: set<Stage>,
                       updateFramebuffer: bool, at: Location)
    requires LastWriter(newSets, i, stages, at) && Surplus(newSets, oldSets, newSets[i])
    ensures AfterChange(newSets, oldSets, stages, updateFramebuffer, at) == CleanBind(newSets, stages, at)
  {
    ChangeLeaves(newSets, oldSets, stages, updateFramebuffer, at);
    LastWriterDecides(Null, newSets, i, stages, at);
    LastWriterDecides(Null, SurplusOnly(newSets, oldSets), i, stages, at);
  }

  // For any two vectors: where the last new writer stays bound, its entry survives exactly
  // when it is what an earlier surplus set binds over it, or, without one, what dropped
  // sets and the old vector leave there.
  lemma SharedSlotIsLostIff(newSets: seq<BindingSet?>, oldSets: seq<BindingSet?>, kept: nat, stages: set<Stage>,
                            updateFramebuffer: bool, at: Location)
    requires LastWriter(newSets, kept, stages, at) && !Surplus(newSets, oldSets, newSets[kept])
    ensures AfterChange(newSets, oldSets, stages, updateFramebuffer, at) == CleanBind(newSets, stages, at)
            <==> newSets[kept].contents.Of(at.kind).entries[at.slot]
                 == if AnyWrites(SurplusOnly(newSets, oldSets), stages, at) then CleanBind(SurplusOnly(newSets, oldSets), stages, at)
                    else if DroppedWrites(newSets, oldSets, false, !updateFramebuffer, stages, at) then Null
                    else CleanBind(oldSets, stages, at)
  {
    ChangeLeaves(newSets, oldSets, stages, updateFramebuffer, at);
    LastWriterDecides(Null, newSets, kept, stages, at);
  }

  // The sets that write the location have entries there, and this one's differs from all others.
  predicate TellsApart(sets: seq<BindingSet?>, s: BindingSet, stages: set<Stage>, at: Location)
    requires at.slot < at.kind.SlotCount()
  {
    forall other: BindingSet? :: other in sets && Writes(other, stages, at) ==>
      && other.contents.Of(at.kind).entries[at.slot] != Null
      && (other != s ==> other.contents.Of(at.kind).entries[at.slot] != s.contents.Of(at.kind).entries[at.slot])
  }

  // In terms of the vectors alone: where entries tell the sets apart, a kept set's entry
  // survives exactly when no surplus set writes there, no dropped set is unbound there, and
  // the kept set was the last of the old vector to write there.
  lemma SharedSlotSurvivesIff(newSets: seq<BindingSet?>, oldSets: seq<BindingSet?>, kept: nat, stages: set<Stage>,
                              updateFramebuffer: bool, at: Location)
    requires at.slot < at.kind.SlotCount()
    requires LastWriter(newSets, kept, stages, at) && !Surplus(newSets, oldSets, newSets[kept])
    requires TellsApart(newSets + oldSets, newSets[kept], stages, at)
    ensures AfterChange(newSets, oldSets, stages, updateFramebuffer, at) == CleanBind(newSets, stages, at)
            <==> && !AnyWrites(SurplusOnly(newSets, oldSets), stages, at)
                 && !DroppedWrites(newSets, oldSets, false, !updateFramebuffer, stages, at)
                 && exists j: nat :: LastWriter(oldSets, j, stages, at) && oldSets[j] == newSets[kept]
  {
    SharedSlotIsLostIff(newSets, oldSets, kept, stages, updateFramebuffer, at);
    var surplus := SurplusOnly(newSets, oldSets);
    assert newSets[kept] in newSets + oldSets;
    if AnyWrites(surplus, stages, at) {
      var i := LastWriterExists(surplus, stages, at);
      LastWriterDecides(Null, surplus, i, stages, at);
      assert surplus[i] == newSets[i] && newSets[i] in newSets + oldSets;
    }
    if AnyWrites(oldSets, stages, at) {
      var j := LastWriterExists(oldSets, stages, at);
      LastWriterDecides(Null, oldSets, j, stages, at);
      assert oldSets[j] in newSets + oldSets;
      forall j' | LastWriter(oldSets, j', stages, at) ensures j' == j { }
    } else {
      BindUntouched(Null, oldSets, stages, at);
    }
  }

  // For any two vectors: where nothing new writes, what was there stays exactly where every
  // old set that wrote it is thought to be overwritten.
  lemma NothingNewLeavesStaleIff(newSets: seq<BindingSet?>, oldSets: seq<BindingSet?>, stages: set<Stage>,
                                 updateFramebuffer: bool, at: Location)
    requires !AnyWrites(newSets, stages, at)
    ensures AfterChange(newSets, oldSets, stages, updateFramebuffer, at) == CleanBind(newSets, stages, at)
            <==> updateFramebuffer || !LeavesStale(newSets, oldSets, false, stages, at)
  {
    ChangeLeaves(newSets, oldSets, stages, updateFramebuffer, at);
    BindUntouched(Null, newSets, stages, at);
    NothingNewWrites(newSets, oldSets, false, stages, at);
  }

  // Where the sets of each vector are apart, the incremental graphics bind leaves the entry
  // of a from-scratch bind exactly where it leaves nothing stale.
  lemma SupersetLeavesStaleIff(newSets: seq<BindingSet?>, oldSets: seq<BindingSet?>, stages: set<Stage>,
                               updateFramebuffer: bool, at: Location)
    requires DisjointAt(newSets, stages, at) && DisjointAt(oldSets, stages, at)
    ensures AfterChange(newSets, oldSets, stages, updateFramebuffer, at) == CleanBind(newSets, stages, at)
            <==> updateFramebuffer || !LeavesStale(newSets, oldSets, false, stages, at)
  {
    if AnyWrites(newSets, stages, at) {
      var i := LastWriterExists(newSets, stages, at);
      if Surplus(newSets, oldSets, newSets[i]) {
        BoundIsNotLost(newSets, oldSets, i, stages, updateFramebuffer, at);
      } else {
        SharedSlotIsLostIff(newSets, oldSets, i, stages, updateFramebuffer, at);
        KeptAlone(newSets, oldSets, i, stages, updateFramebuffer, at);
      }
    } else {
      NothingNewLeavesStaleIff(newSets, oldSets, stages, updateFramebuffer, at);
    }
  }

  // A kept set apart from the others: it wrote the location before, and nothing else did.
  lemma KeptAlone(newSets: seq<BindingSet?>, oldSets: seq<BindingSet?>, kept: nat, stages: set<Stage>,
                  updateFramebuffer: bool, at: Location)
    requires DisjointAt(newSets, stages, at) && DisjointAt(oldSets, stages, at)
    requires LastWriter(newSets, kept, stages, at) && !Surplus(newSets, oldSets, newSets[kept])
    ensures CleanBind(oldSets, stages, at) == newSets[kept].contents.Of(at.kind).entries[at.slot]
    ensures !AnyWrites(SurplusOnly(newSets, oldSets), stages, at)
    ensures !DroppedWrites(newSets, oldSets, false, !updateFramebuffer, stages, at)
  {
    var s: BindingSet := newSets[kept];
    assert multiset(newSets)[s] != 0;
    assert s in oldSets;
    var j :| 0 <= j < |oldSets| && oldSets[j] == s;
    LastWriterDecides(Null, oldSets, j, stages, at);
    OccursOnce(oldSets, s, stages, at, j);
  }

  lemma OccursOnce(sets: seq<BindingSet?>, s: BindingSet, stages: set<Stage>, at: Location, j: nat)
    requires DisjointAt(sets, stages, at) && j < |sets| && sets[j] == s && Writes(s, stages, at)
    ensures multiset(sets)[s] == 1
  {
    assert sets == sets[..j] + [s] + sets[j + 1..];
    assert s !in sets[..j] && s !in sets[j + 1..];
  }

  // With the stage mask unchanged, the incremental graphics bind leaves the tables of a
  // from-scratch bind when the sets within each vector do not share slots and supersets
  // see the stages of what they replace.
  lemma GraphicsBindRefinesClean(newSets: seq<BindingSet?>, oldSets: seq<BindingSet?>, stages: set<Stage>,
                                 updateFramebuffer: bool, at: Location)
    requires PairwiseDisjoint(newSets, stages) && PairwiseDisjoint(oldSets, stages)
    requires SupersetsVisible(newSets, oldSets, stages)
    ensures AfterChange(newSets, oldSets, stages, updateFramebuffer, at) == CleanBind(newSets, stages, at)
  {
    SupersetLeavesStaleIff(newSets, oldSets, stages, updateFramebuffer, at);
    VisibleLeavesNothingStale(newSets, oldSets, false, stages, at);
  }

  // ---------- Runs ----------

  datatype GraphicsChange = GraphicsChange(sets: seq<BindingSet?>, mask: set<Stage>, updateFramebuffer: bool)

  // The tables after a series of graphics changes that starts on an empty device.
  function AfterGraphicsRun(changes: seq<GraphicsChange>, at: Location): Entry {
    if changes == [] then Null
    else
      var rest, last := changes[..|changes| - 1], changes[|changes| - 1];
      if rest == [] then AfterBind(Null, last.sets, last.mask, at)
      else
        var current := rest[|rest| - 1];
        var d := GraphicsDifference(last.sets, current.sets, current.mask == last.mask, last.updateFramebuffer);
        AfterBind(AfterUnbind(AfterGraphicsRun(rest, at), d.unbind, current.mask, at), d.bind, last.mask, at)
  }

  // However many incremental changes led to it, the last one leaves the tables of a
  // from-scratch bind; only a change under the same mask needs anything of the sets.
  lemma {:induction false} GraphicsRunRefinesClean(changes: seq<GraphicsChange>, at: Location)
    requires changes != []
    requires forall k :: 0 < k < |changes| && changes[k - 1].mask == changes[k].mask ==>
               && PairwiseDisjoint(changes[k - 1].sets, changes[k].mask) && PairwiseDisjoint(changes[k].sets, changes[k].mask)
               && SupersetsVisible(changes[k].sets, changes[k - 1].sets, changes[k].mask)
    ensures AfterGraphicsRun(changes, at) == CleanBind(changes[|changes| - 1].sets, changes[|changes| - 1].mask, at)
  {
    var rest, last := changes[..|changes| - 1], changes[|changes| - 1];
    if rest != [] {
      var current := rest[|rest| - 1];
      GraphicsRunRefinesClean(rest, at);
      if current.mask == last.mask {
        assert changes[|changes| - 2] == current;
        GraphicsBindRefinesClean(last.sets, current.sets, last.mask, last.updateFramebuffer, at);
      } else {
        GraphicsBindAcrossMasks(last.sets, current.sets, current.mask, last.mask, last.updateFramebuffer, at);
      }
    }
  }

  function AfterComputeRun(vectors: seq<seq<BindingSet?>>, at: Location): Entry {
    if vectors == [] then Null
    else
      var rest, last := vectors[..|vectors| - 1], vectors[|vectors| - 1];
      var unbind := if rest == [] then [] else ComputeDifference(last, rest[|rest| - 1]).unbind;
      AfterBind(AfterUnbind(AfterComputeRun(rest, at), unbind, {Compute}, at), last, {Compute}, at)
  }

  lemma {:induction false} ComputeRunRefinesClean(vectors: seq<seq<BindingSet?>>, at: Location)
    requires vectors != []
    requires forall k :: 0 < k < |vectors| ==> SupersetsVisible(vectors[k], vectors[k - 1], {Compute})
    ensures AfterComputeRun(vectors, at) == CleanBind(vectors[|vectors| - 1], {Compute}, at)
  {
    var rest, last := vectors[..|vectors| - 1], vectors[|vectors| - 1];
    if rest != [] {
      ComputeRunRefinesClean(rest, at);
      assert vectors[|vectors| - 2] == rest[|rest| - 1];
      ComputeBindRefinesClean(last, rest[|rest| - 1], at);
    }
  }

  // ---------- Concrete losses ----------

  // A set with one texture, in slot 0.
  const ONE_TEXTURE: SetContents :=
    NO_SLOTS.(shaderResources := Slots(0, 0, NO_SLOTS.shaderResources.entries[0 := Bound(1, 0, 0)]))

  // Two sets with the same slots: the old one is visible to the vertex stage (or to compute),
  // the new one to the pixel stage only. The old texture stays bound.
  lemma StaleEntryExample(newSet: BindingSet, oldSet: BindingSet)
    requires newSet != oldSet && newSet.contents == oldSet.contents == ONE_TEXTURE
    requires newSet.visibility == {Pixel} && oldSet.visibility == {Vertex, Pixel, Compute}
    ensures var at := Location(Vertex, ShaderResources, 0);
            && AfterChange([newSet], [oldSet], {Vertex, Pixel}, false, at) == Bound(1, 0, 0)
            && CleanBind([newSet], {Vertex, Pixel}, at) == Null
    ensures var at := Location(Compute, ShaderResources, 0);
            AfterCompute([newSet], [oldSet], at) == Bound(1, 0, 0) && CleanBind([newSet], {Compute}, at) == Null
  {
    var stages := {Vertex, Pixel};
    var graphics, compute := Location(Vertex, ShaderResources, 0), Location(Compute, ShaderResources, 0);
    LastWriterDecides(Null, [oldSet], 0, stages, graphics);
    LastWriterDecides(Null, [oldSet], 0, {Compute}, compute);
    ReplacedByOne(newSet, oldSet);
    NothingNewLeavesStaleIff([newSet], [oldSet], stages, false, graphics);
    ChangeLeaves([newSet], [oldSet], stages, false, graphics);
    NothingNewWrites([newSet], [oldSet], false, stages, graphics);
    BindUntouched(Null, [newSet], stages, graphics);
    BindUntouched(Null, [newSet], {Compute}, compute);
    ComputeKeeps(newSet, oldSet, compute);
  }

  lemma ReplacedByOne(newSet: BindingSet, oldSet: BindingSet)
    requires newSet != oldSet && newSet.IsSupersetOf(oldSet)
    ensures Surplus([newSet], [oldSet], newSet)
    ensures Replaced([newSet], [oldSet], oldSet, false)
    ensures oldSet.contents.unorderedAccess.IsEmpty() ==> Replaced([newSet], [oldSet], oldSet, true)
  {
    assert newSet in [newSet];
    assert multiset([newSet])[newSet] == 1 && multiset([oldSet])[newSet] == 0;
  }

  lemma ComputeKeeps(newSet: BindingSet, oldSet: BindingSet, at: Location)
    requires newSet != oldSet && newSet.IsSupersetOf(oldSet) && oldSet.contents.unorderedAccess.IsEmpty()
    requires !Writes(newSet, {Compute}, at)
    ensures AfterCompute([newSet], [oldSet], at) == CleanBind([oldSet], {Compute}, at)
  {
    var before := CleanBind([oldSet], {Compute}, at);
    var d := ComputeDifference([newSet], [oldSet]);
    ReplacedByOne(newSet, oldSet);
    UnbindWritesIff([newSet], [oldSet], CancelFrom(Difference([newSet], [oldSet]), 0), true, true, {Compute}, at);
    UnbindIs(before, d.unbind, {Compute}, at);
    BindUntouched(AfterUnbind(before, d.unbind, {Compute}, at), [newSet], {Compute}, at);
  }

  // Two sets share a slot and one of them is dropped: the slot of the one that stays is empty.
  lemma LostSlotExample(kept: BindingSet, dropped: BindingSet)
    requires kept != dropped && kept.contents == dropped.contents == ONE_TEXTURE
    requires kept.visibility == dropped.visibility == {Pixel}
    ensures var at := Location(Pixel, ShaderResources, 0);
            && AfterChange([kept], [kept, dropped], {Pixel}, false, at) == Null
            && CleanBind([kept], {Pixel}, at) == Bound(1, 0, 0)
  {
    var at := Location(Pixel, ShaderResources, 0);
    assert [kept, dropped][1] == dropped;
    assert multiset([kept, dropped]) == multiset{kept, dropped} && multiset([kept]) == multiset{kept};
    ChangeLeaves([kept], [kept, dropped], {Pixel}, false, at);
    LastWriterDecides(Null, [kept], 0, {Pixel}, at);
  }
}
