/**
 The D3D11 command list's binding functions (src/d3d11/d3d11-resource-bindings.cpp) on an
 immediate context that has one table of slots per stage and kind of resource, and the
 creation of binding sets. Each is proved against the tables described in `BindingSets`.
 */
module BindingCommands {
  import opened Wrappers
  import opened BindingSets

  // ---------- Creating a set ----------

  // One element of a set's description: the view, buffer range or sampler it denotes, or
  // no kind at all for a resource type that is not supported here.
  datatype BindingItem = BindingItem(kind: Option<Kind>, slot: nat, entry: Entry)

  // What the items leave in a slot: the last one that names it.
  function LastEntry(items: seq<BindingItem>, kind: Kind, slot: nat): Entry {
    if items == [] then Null
    else
      var last := items[|items| - 1];
      if last.kind == Some(kind) && last.slot == slot then last.entry
      else LastEntry(items[..|items| - 1], kind, slot)
  }

  predicate Uses(items: seq<BindingItem>, kind: Kind, slot: nat) {
    exists k :: 0 <= k < |items| && items[k].kind == Some(kind) && items[k].slot == slot
  }

  function Unsupported(items: seq<BindingItem>): nat {
    if items == [] then 0
    else Unsupported(items[..|items| - 1]) + if items[|items| - 1].kind == None then 1 else 0
  }

  // The slots of one kind hold what the items say, and the hull is the least range with
  // every slot that an item uses.
  ghost predicate Describes(slots: Slots, items: seq<BindingItem>, kind: Kind) {
    && slots.Valid(kind)
    && (forall slot :: 0 <= slot < kind.SlotCount() ==> slots.entries[slot] == LastEntry(items, kind, slot))
    && (forall slot: nat :: Uses(items, kind, slot) ==> slots.Contains(slot))
    && (!slots.IsEmpty() ==> Uses(items, kind, slots.low) && Uses(items, kind, slots.high))
  }

  // Writes one entry and extends the hull.
  function Put(slots: Slots, kind: Kind, slot: nat, entry: Entry): Slots
    requires slots.Valid(kind) && slot < kind.SlotCount()
  {
    Slots(if slot < slots.low then slot else slots.low, if slots.high < slot then slot else slots.high,
          slots.entries[slot := entry])
  }

  // The hull starts empty, as (count, 0), so the first slot becomes both of its ends.
  ghost predicate HullStarted(slots: Slots, kind: Kind) {
    slots.IsEmpty() ==> slots.low == kind.SlotCount() && slots.high == 0
  }

  lemma UsesExtended(items: seq<BindingItem>, item: BindingItem, kind: Kind, slot: nat)
    ensures Uses(items + [item], kind, slot) <==> Uses(items, kind, slot) || (item.kind == Some(kind) && item.slot == slot)
  {
    var longer := items + [item];
    if Uses(items, kind, slot) {
      var k :| 0 <= k < |items| && items[k].kind == Some(kind) && items[k].slot == slot;
      assert longer[k] == items[k];
    }
    assert longer[|items|] == item;
  }

  lemma LastEntryExtended(items: seq<BindingItem>, item: BindingItem, kind: Kind, slot: nat)
    ensures LastEntry(items + [item], kind, slot)
            == if item.kind == Some(kind) && item.slot == slot then item.entry else LastEntry(items, kind, slot)
  {
  }

  lemma PutDescribes(slots: Slots, items: seq<BindingItem>, kind: Kind, item: BindingItem)
    requires Describes(slots, items, kind) && HullStarted(slots, kind)
    requires item.kind == Some(kind) && item.slot < kind.SlotCount()
    ensures Describes(Put(slots, kind, item.slot, item.entry), items + [item], kind)
    ensures HullStarted(Put(slots, kind, item.slot, item.entry), kind)
  {
    var r := Put(slots, kind, item.slot, item.entry);
    forall slot: nat
      ensures Uses(items + [item], kind, slot) <==> Uses(items, kind, slot) || item.slot == slot
    {
      UsesExtended(items, item, kind, slot);
    }
    forall slot | 0 <= slot < kind.SlotCount()
      ensures r.entries[slot] == LastEntry(items + [item], kind, slot)
    {
      LastEntryExtended(items, item, kind, slot);
    }
  }

  lemma OtherKindDescribes(slots: Slots, items: seq<BindingItem>, kind: Kind, item: BindingItem)
    requires Describes(slots, items, kind) && item.kind != Some(kind)
    ensures Describes(slots, items + [item], kind)
  {
    forall slot: nat
      ensures Uses(items + [item], kind, slot) <==> Uses(items, kind, slot)
      ensures LastEntry(items + [item], kind, slot) == LastEntry(items, kind, slot)
    {
      UsesExtended(items, item, kind, slot);
      LastEntryExtended(items, item, kind, slot);
    }
  }

  function With(fields: SetFields, kind: Kind, slots: Slots): SetFields {
    match kind
    case ConstantBuffers => fields.(constantBuffers := slots)
    case ShaderResources => fields.(shaderResources := slots)
    case Samplers => fields.(samplers := slots)
    case UnorderedAccess => fields.(unorderedAccess := slots)
  }

  ghost predicate AllDescribed(fields: SetFields, items: seq<BindingItem>) {
    forall kind: Kind :: Describes(fields.Of(kind), items, kind) && HullStarted(fields.Of(kind), kind)
  }

  lemma WithDescribes(fields: SetFields, items: seq<BindingItem>, item: BindingItem)
    requires AllDescribed(fields, items) && item.kind.Some? && item.slot < item.kind.value.SlotCount()
    ensures var slots := Put(fields.Of(item.kind.value), item.kind.value, item.slot, item.entry);
            AllDescribed(With(fields, item.kind.value, slots), items + [item])
  {
    var changed := item.kind.value;
    var slots := Put(fields.Of(changed), changed, item.slot, item.entry);
    var r := With(fields, changed, slots);
    PutDescribes(fields.Of(changed), items, changed, item);
    forall kind: Kind
      ensures Describes(r.Of(kind), items + [item], kind) && HullStarted(r.Of(kind), kind)
    {
      if kind != changed {
        assert r.Of(kind) == fields.Of(kind);
        OtherKindDescribes(fields.Of(kind), items, kind, item);
      }
    }
  }

  lemma SkipDescribes(fields: SetFields, items: seq<BindingItem>, item: BindingItem)
    requires AllDescribed(fields, items) && item.kind == None
    ensures AllDescribed(fields, items + [item])
  {
    forall kind: Kind ensures Describes(fields.Of(kind), items + [item], kind) {
      OtherKindDescribes(fields.Of(kind), items, kind, item);
    }
  }

  method CreateBindingSet(items: seq<BindingItem>, visibility: set<Stage>) returns (s: BindingSet, errors: nat)
    requires forall k :: 0 <= k < |items| && items[k].kind.Some? ==> items[k].slot < items[k].kind.value.SlotCount()
    ensures s.visibility == visibility && AllDescribed(s.contents, items)
    ensures errors == Unsupported(items)
  {
    var fields: SetFields := NO_SLOTS;
    errors := 0;
    for k := 0 to |items|
      invariant AllDescribed(fields, items[..k])
      invariant errors == Unsupported(items[..k])
    {
      var item := items[k];
      assert items[..k + 1] == items[..k] + [item];
      assert items[..k + 1][..k] == items[..k];
      if item.kind.Some? {
        WithDescribes(fields, items[..k], item);
        var kind := item.kind.value;
        fields := With(fields, kind, Put(fields.Of(kind), kind, item.slot, item.entry));
      } else {
        SkipDescribes(fields, items[..k], item);
        errors := errors + 1;
      }
    }
    assert items[..|items|] == items;
    s := new BindingSet(fields, visibility);
  }

  // The hull covers exactly what the description needs: a superset of hulls overwrites
  // every slot that the other description uses.
  lemma SupersetCoversUses(big: BindingSet, small: BindingSet, items: seq<BindingItem>, kind: Kind, slot: nat)
    requires big.IsSupersetOf(small) && AllDescribed(small.contents, items) && Uses(items, kind, slot)
    ensures big.contents.Of(kind).Contains(slot)
  {
    assert Describes(small.contents.Of(kind), items, kind);
  }

  // ---------- The command list ----------

  class ImmediateContext {
    var tables: Location -> Entry

    constructor ()
      ensures forall at :: tables(at) == Null
    {
      tables := _ => Null;
    }

    // The XSSet... functions: writes `entries` into a stage's table of one kind.
    method SetSlots(stage: Stage, kind: Kind, low: nat, entries: seq<Entry>)
      modifies this
      ensures forall at :: tables(at) == if at.stage == stage && at.kind == kind && low <= at.slot < low + |entries|
                                         then entries[at.slot - low] else old(tables(at))
    {
      var before := tables;
      tables := (at: Location) =>
        if at.stage == stage && at.kind == kind && low <= at.slot < low + |entries| then entries[at.slot - low] else before(at);
    }

    // D3D11_SET_ARRAY with the set's own entries.
    method SetArray(s: BindingSet, stage: Stage, kind: Kind)
      modifies this
      ensures forall at :: tables(at) == if at.stage == stage && at.kind == kind && s.contents.Of(kind).Contains(at.slot)
                                         then s.contents.Of(kind).entries[at.slot] else old(tables(at))
    {
      var slots := s.contents.Of(kind);
      if slots.low <= slots.high {
        SetSlots(stage, kind, slots.low, slots.entries[slots.low..slots.high + 1]);
      }
    }

    // D3D11_SET_ARRAY with null entries.
    method ClearArray(s: BindingSet, stage: Stage, kind: Kind)
      modifies this
      ensures forall at :: tables(at) == if at.stage == stage && at.kind == kind && s.contents.Of(kind).Contains(at.slot)
                                         then Null else old(tables(at))
    {
      var slots := s.contents.Of(kind);
      if slots.low <= slots.high {
        SetSlots(stage, kind, slots.low, seq(slots.high + 1 - slots.low, _ => Null));
      }
    }

    method BindStage(s: BindingSet, stage: Stage)
      modifies this
      ensures forall at :: tables(at) == if at.stage == stage && at.kind != UnorderedAccess && s.contents.Of(at.kind).Contains(at.slot)
                                         then s.contents.Of(at.kind).entries[at.slot] else old(tables(at))
    {
      SetArray(s, stage, ConstantBuffers);
      SetArray(s, stage, ShaderResources);
      SetArray(s, stage, Samplers);
    }

    method UnbindStage(s: BindingSet, stage: Stage)
      modifies this
      ensures forall at :: tables(at) == if at.stage == stage && at.kind != UnorderedAccess && s.contents.Of(at.kind).Contains(at.slot)
                                         then Null else old(tables(at))
    {
      ClearArray(s, stage, ConstantBuffers);
      ClearArray(s, stage, ShaderResources);
      ClearArray(s, stage, Samplers);
    }

    method BindGraphicsSet(s: BindingSet, shaderMask: set<Stage>)
      requires shaderMask <= GRAPHICS_STAGES
      modifies this
      ensures forall at :: tables(at) == if Writes(s, shaderMask, at) then s.contents.Of(at.kind).entries[at.slot] else old(tables(at))
    {
      var stagesToBind := s.visibility * shaderMask;
      if Vertex in stagesToBind {
        BindStage(s, Vertex);
      }
      if Hull in stagesToBind {
        BindStage(s, Hull);
      }
      if Domain in stagesToBind {
        BindStage(s, Domain);
      }
      if Geometry in stagesToBind {
        BindStage(s, Geometry);
      }
      if Pixel in stagesToBind {
        BindStage(s, Pixel);
      }
    }

    method UnbindGraphicsSet(s: BindingSet, shaderMask: set<Stage>)
      requires shaderMask <= GRAPHICS_STAGES
      modifies this
      ensures forall at :: tables(at) == if Writes(s, shaderMask, at) then Null else old(tables(at))
    {
      var stagesToUnbind := s.visibility * shaderMask;
      if Vertex in stagesToUnbind {
        UnbindStage(s, Vertex);
      }
      if Hull in stagesToUnbind {
        UnbindStage(s, Hull);
      }
      if Domain in stagesToUnbind {
        UnbindStage(s, Domain);
      }
      if Geometry in stagesToUnbind {
        UnbindStage(s, Geometry);
      }
      if Pixel in stagesToUnbind {
        UnbindStage(s, Pixel);
      }
    }

    // The graphics unbind after the difference is known.
    method UnbindGraphicsSets(setsToUnbind: seq<BindingSet?>, shaderMask: set<Stage>)
      requires shaderMask <= GRAPHICS_STAGES
      modifies this
      ensures forall at :: tables(at) == AfterUnbind(old(tables(at)), setsToUnbind, shaderMask, at)
    {
      for k := 0 to |setsToUnbind|
        invariant forall at :: tables(at) == AfterUnbind(old(tables(at)), setsToUnbind[..k], shaderMask, at)
      {
        assert setsToUnbind[..k + 1][..k] == setsToUnbind[..k];
        if setsToUnbind[k] != null {
          UnbindGraphicsSet(setsToUnbind[k], shaderMask);
        }
      }
      assert setsToUnbind[..|setsToUnbind|] == setsToUnbind;
    }

    // prepareToBindGraphicsResourceSets
    method PrepareToBindGraphicsResourceSets(resourceSets: seq<BindingSet?>, currentResourceSets: Option<seq<BindingSet?>>,
                                             currentMask: set<Stage>, newMask: set<Stage>, updateFramebuffer: bool)
      returns (outSetsToBind: seq<BindingSet?>)
      requires currentMask <= GRAPHICS_STAGES
      modifies this
      ensures currentResourceSets == None ==> outSetsToBind == resourceSets && tables == old(tables)
      ensures currentResourceSets.Some? ==>
                var d := GraphicsDifference(resourceSets, currentResourceSets.value, currentMask == newMask, updateFramebuffer);
                outSetsToBind == d.bind && forall at :: tables(at) == AfterUnbind(old(tables(at)), d.unbind, currentMask, at)
    {
      outSetsToBind := resourceSets;
      if currentResourceSets.Some? {
        var setsToUnbind := currentResourceSets.value;
        if currentMask == newMask {
          outSetsToBind, setsToUnbind := CancelShared(outSetsToBind, setsToUnbind);
          if !updateFramebuffer {
            setsToUnbind := SkipOverwritten(outSetsToBind, setsToUnbind, false);
          }
        }
        UnbindGraphicsSets(setsToUnbind, currentMask);
      }
    }

    method BindGraphicsResourceSets(setsToBind: seq<BindingSet?>, newMask: set<Stage>)
      requires newMask <= GRAPHICS_STAGES
      modifies this
      ensures forall at :: tables(at) == AfterBind(old(tables(at)), setsToBind, newMask, at)
      ensures setsToBind != [] && setsToBind[|setsToBind| - 1] != null ==>
                var last := setsToBind[|setsToBind| - 1];
                forall stage, kind: Kind, slot: nat ::
                  && stage in last.visibility && stage in newMask && kind != UnorderedAccess
                  && last.contents.Of(kind).low <= slot <= last.contents.Of(kind).high ==>
                    tables(Location(stage, kind, slot)) == last.contents.Of(kind).entries[slot]
    {
      for k := 0 to |setsToBind|
        invariant forall at :: tables(at) == AfterBind(old(tables(at)), setsToBind[..k], newMask, at)
      {
        assert setsToBind[..k + 1][..k] == setsToBind[..k];
        if setsToBind[k] != null {
          BindGraphicsSet(setsToBind[k], newMask);
        }
      }
      assert setsToBind[..|setsToBind|] == setsToBind;
    }

    method UnbindComputeSets(setsToUnbind: seq<BindingSet?>)
      modifies this
      ensures forall at :: tables(at) == AfterUnbind(old(tables(at)), setsToUnbind, {Compute}, at)
    {
      for k := 0 to |setsToUnbind|
        invariant forall at :: tables(at) == AfterUnbind(old(tables(at)), setsToUnbind[..k], {Compute}, at)
      {
        assert setsToUnbind[..k + 1][..k] == setsToUnbind[..k];
        var s := setsToUnbind[k];
        if s != null && Compute in s.visibility {
          UnbindStage(s, Compute);
          ClearArray(s, Compute, UnorderedAccess);
        }
      }
      assert setsToUnbind[..|setsToUnbind|] == setsToUnbind;
    }

    method BindComputeResourceSets(resourceSets: seq<BindingSet?>, currentResourceSets: Option<seq<BindingSet?>>)
      requires null !in resourceSets
      modifies this
      ensures forall at ::
                var unbind := if currentResourceSets.None? then [] else ComputeDifference(resourceSets, currentResourceSets.value).unbind;
                tables(at) == AfterBind(AfterUnbind(old(tables(at)), unbind, {Compute}, at), resourceSets, {Compute}, at)
      ensures resourceSets != [] ==>
                var last := resourceSets[|resourceSets| - 1];
                forall kind: Kind, slot: nat ::
                  Compute in last.visibility && last.contents.Of(kind).low <= slot <= last.contents.Of(kind).high ==>
                    tables(Location(Compute, kind, slot)) == last.contents.Of(kind).entries[slot]
    {
      if currentResourceSets.Some? {
        var setsToBind, setsToUnbind := CancelShared(resourceSets, currentResourceSets.value);
        setsToUnbind := SkipOverwritten(setsToBind, setsToUnbind, true);
        UnbindComputeSets(setsToUnbind);
      }
      ghost var between := tables;
      for k := 0 to |resourceSets|
        invariant forall at :: tables(at) == AfterBind(between(at), resourceSets[..k], {Compute}, at)
      {
        assert resourceSets[..k + 1][..k] == resourceSets[..k];
        var s := resourceSets[k];
        if Compute in s.visibility {
          BindStage(s, Compute);
          SetArray(s, Compute, UnorderedAccess);
        }
      }
      assert resourceSets[..|resourceSets|] == resourceSets;
    }
  }

  // The nested loops that replace the sets in both vectors by null, one to one.
  method CancelShared(bind0: seq<BindingSet?>, unbind0: seq<BindingSet?>) returns (bind: seq<BindingSet?>, unbind: seq<BindingSet?>)
    ensures Difference(bind, unbind) == CancelFrom(Difference(bind0, unbind0), 0)
  {
    bind, unbind := bind0, unbind0;
    for i := 0 to |bind|
      invariant |bind| == |bind0|
      invariant CancelFrom(Difference(bind, unbind), i) == CancelFrom(Difference(bind0, unbind0), 0)
    {
      var j := 0;
      if bind[i] != null {
        while j < |unbind| && bind[i] != unbind[j]
          invariant j <= |unbind|
          invariant forall k :: 0 <= k < j ==> unbind[k] != bind[i]
        {
          j := j + 1;
        }
        FirstIsIndexOf(unbind, bind[i], j);
        if j < |unbind| {
          bind, unbind := bind[i := null], unbind[j := null];
        }
      }
    }
  }

  lemma {:induction false} FirstIsIndexOf(sets: seq<BindingSet?>, s: BindingSet?, j: nat)
    requires j <= |sets| && (forall k :: 0 <= k < j ==> sets[k] != s) && (j < |sets| ==> sets[j] == s)
    ensures IndexOf(sets, s) == j
    decreases |sets|
  {
    if 0 < j {
      FirstIsIndexOf(sets[1..], s, j - 1);
    }
  }

  // The nested loops that skip the unbinding of sets whose slots another set overwrites;
  // the compute version keeps the unbinding of UAV slots.
  method SkipOverwritten(bind: seq<BindingSet?>, unbind0: seq<BindingSet?>, keepUavs: bool) returns (unbind: seq<BindingSet?>)
    ensures unbind == DropOverwritten(Difference(bind, unbind0), keepUavs).unbind
  {
    unbind := unbind0;
    for i := 0 to |bind|
      invariant |unbind| == |unbind0|
      invariant forall j :: 0 <= j < |unbind| ==>
                  unbind[j] == if unbind0[j] != null && Overwritten(bind[..i], unbind0[j], keepUavs) then null else unbind0[j]
    {
      if bind[i] != null {
        ghost var before := unbind;
        for j := 0 to |unbind|
          invariant |unbind| == |unbind0|
          invariant forall k :: 0 <= k < |unbind| ==>
                      unbind[k] == if k < j && before[k] != null && OverwrittenBy(bind[i], before[k], keepUavs) then null else before[k]
        {
          if unbind[j] != null && OverwrittenBy(bind[i], unbind[j], keepUavs) {
            unbind := unbind[j := null];
          }
        }
      }
      forall j | 0 <= j < |unbind| && unbind0[j] != null
        ensures Overwritten(bind[..i + 1], unbind0[j], keepUavs)
                <==> Overwritten(bind[..i], unbind0[j], keepUavs) || (bind[i] != null && OverwrittenBy(bind[i], unbind0[j], keepUavs))
      {
        OverwrittenExtended(bind, i, unbind0[j], keepUavs);
      }
    }
    assert bind[..|bind|] == bind;
  }

  lemma OverwrittenExtended(bind: seq<BindingSet?>, i: nat, s: BindingSet, keepUavs: bool)
    requires i < |bind|
    ensures Overwritten(bind[..i + 1], s, keepUavs)
            <==> Overwritten(bind[..i], s, keepUavs) || (bind[i] != null && OverwrittenBy(bind[i], s, keepUavs))
  {
  }
}
