/**
 Unordered accesses are ordered: whenever unordered access is required, the D3D12 barriers
 of the legacy path of commitBarriers (src/d3d12/d3d12-state-tracking.cpp) separate the uses
 before from the uses after, with a UAV barrier or a transition. The devices of
 `BarrierTranslation` say nothing of UAV barriers, which change no state. The enhanced path
 separates less; `EnhancedSeparatesIff` says what.
 */
module UavOrdering {
  import opened Wrappers
  import opened Resources
  import opened ResourceStates
  import opened Subresources
  import opened TextureStates
  import opened TextureTracking
  import opened BarrierTranslation
  import opened EnhancedBarriers
  import opened StateTracker
  import BufferStates
  import BufferRuns
  import TextureRuns
  import UavBudgetRuns

  // ---------- Textures ----------

  // The barrier separates uses of position k of a texture, which counts planes.
  predicate Separates(b: D3DBarrier, t: Texture, k: nat) {
    match b
    case TextureUav(x) => x == t
    case TextureTransition(x, _, _) => x == t
    case SubresourceTransition(x, j, _, _) => x == t && j == k
    case _ => false
  }

  predicate IsSeparated(barriers: seq<D3DBarrier>, t: Texture, k: nat) {
    exists b :: b in barriers && Separates(b, t, k)
  }

  lemma {:induction false} PlaneTransitionsHave(b: TextureBarrier, planes: nat, plane: nat)
    requires plane < planes
    ensures PlaneTransition(b, plane) in PlaneTransitions(b, planes)
  {
    if plane < planes - 1 {
      PlaneTransitionsHave(b, planes - 1, plane);
    }
  }

  // A self-barrier of the tracker for unordered access becomes one UAV barrier.
  lemma SelfBarrierIsUav(b: TextureBarrier)
    requires b.stateBefore == b.stateAfter && UnorderedAccess in b.stateAfter
    ensures TranslateTexture(b) == [TextureUav(b.texture)]
  {
    ConvertKeepsUav(b.stateAfter);
  }

  // A barrier from or to unordered access separates the uses of everything it concerns,
  // in every plane.
  lemma UavBarrierSeparates(b: TextureBarrier, k: nat)
    requires UnorderedAccess in b.stateBefore || UnorderedAccess in b.stateAfter
    requires var n := b.texture.desc.NumSubresources();
             0 < n && k < b.texture.planeCount * n && BarrierTouches(b, b.texture, SubresourceAt(n, k))
    ensures IsSeparated(TranslateTexture(b), b.texture, k)
  {
    var t := b.texture;
    var n := t.desc.NumSubresources();
    var before, after := Convert(b.stateBefore), Convert(b.stateAfter);
    ConvertKeepsUav(b.stateBefore);
    ConvertKeepsUav(b.stateAfter);
    if before == after {
      assert TextureUav(t) in TranslateTexture(b) && Separates(TextureUav(t), t, k);
    } else if b.entireTexture {
      assert TextureTransition(t, before, after) in TranslateTexture(b) && Separates(TextureTransition(t, before, after), t, k);
    } else {
      var plane := PlaneAt(n, k);
      PlaneBelow(n, t.planeCount, k);
      IndexOfCellAt(n, k);
      PlaneTransitionsHave(b, t.planeCount, plane);
      assert D3DSubresource(b.mipLevel, b.arraySlice, plane, t.desc.mipLevels, t.desc.arraySize) == k;
      assert Separates(PlaneTransition(b, plane), t, k);
    }
  }

  lemma {:induction false} TranslationHas(barriers: seq<TextureBarrier>, b: TextureBarrier, x: D3DBarrier)
    requires b in barriers && x in TranslateTexture(b)
    ensures x in TranslateTextures(barriers)
  {
    if b != barriers[|barriers| - 1] {
      TranslationHas(barriers[..|barriers| - 1], b, x);
    }
  }

  lemma ReachedIsSeparated(barriers: seq<TextureBarrier>, t: Texture, state: States, k: nat)
    requires UnorderedAccess in state && 0 < t.desc.NumSubresources() && k < t.planeCount * t.desc.NumSubresources()
    requires Reaches(barriers, t, SubresourceAt(t.desc.NumSubresources(), k), state)
    ensures IsSeparated(TranslateTextures(barriers), t, k)
  {
    var i := SubresourceAt(t.desc.NumSubresources(), k);
    var b :| b in barriers && BarrierTouches(b, t, i) && b.stateAfter == state;
    UavBarrierSeparates(b, k);
    var x :| x in TranslateTexture(b) && Separates(x, t, k);
    TranslationHas(barriers, b, x);
  }

  lemma {:induction false} SelfBarrierExists(barriers: seq<TextureBarrier>) returns (b: TextureBarrier)
    requires SelfBarriers(barriers) != 0
    ensures b in barriers && IsSelfBarrier(b)
  {
    b := barriers[|barriers| - 1];
    if !IsSelfBarrier(b) {
      b := SelfBarrierExists(barriers[..|barriers| - 1]);
    }
  }

  // Requiring unordered access, with UAV barriers enabled or none placed since they were
  // set: the D3D12 barriers separate the uses of every position of the required range.
  lemma RequirementIsOrdered(t: Texture, record: TextureState, subresources: TextureSubresourceSet, state: States, k: nat)
    requires record.ValidFor(t.desc) && UnorderedAccess in state
    requires record.enableUavBarriers || !record.firstUavBarrierPlaced
    requires var n := t.desc.NumSubresources();
             0 < n && k < t.planeCount * n && Covers(t.desc, subresources, SubresourceAt(n, k))
    ensures IsSeparated(TranslateTextures(RequireState(t, record, subresources, state).barriers), t, k)
  {
    var i, barriers := SubresourceAt(t.desc.NumSubresources(), k), RequireState(t, record, subresources, state).barriers;
    if Denote(t.desc, record)[i] == state {
      SelfBarrierIff(t, record, subresources, state);
      var b := SelfBarrierExists(barriers);
      UavBudgetRuns.RequireStateOwn(t, record, subresources, state);
      RequireBudget(t, record, subresources, state);
      SelfBarrierIsUav(b);
      TranslationHas(barriers, b, TextureUav(t));
      assert Separates(TextureUav(t), t, k);
    } else {
      RequireReaches(t, record, subresources, state, i);
      ReachedIsSeparated(barriers, t, state, k);
    }
  }

  // ---------- The enhanced path ----------

  predicate IsSeparatedEnhanced(barriers: seq<EnhancedTextureBarrier>, t: Texture, k: nat) {
    exists b :: b in barriers && b.texture == t && InRange(t, b.subresources, k)
  }

  lemma EnhancedTouches(barriers: seq<TextureBarrier>, t: Texture, k: nat)
    requires 0 < t.desc.NumSubresources() && k < t.planeCount * t.desc.NumSubresources()
    requires forall b :: b in barriers ==> b.texture == t && IsProper(b)
    ensures IsSeparatedEnhanced(EnhanceTextures(barriers), t, k)
            <==> Touches(barriers, t, SubresourceAt(t.desc.NumSubresources(), k))
  {
    var i := SubresourceAt(t.desc.NumSubresources(), k);
    forall j | 0 <= j < |barriers|
      ensures j < |EnhanceTextures(barriers)| && EnhanceTextures(barriers)[j].texture == t
      ensures InRange(t, EnhanceTextures(barriers)[j].subresources, k) <==> BarrierTouches(barriers[j], t, i)
    {
      EnhanceTexturesAt(barriers, j);
      assert barriers[j] in barriers;
      RangeIsExact(barriers[j], k);
    }
    if barriers != [] {
      EnhanceTexturesAt(barriers, 0);
    }
    if Touches(barriers, t, i) {
      var b :| b in barriers && BarrierTouches(b, t, i);
      var j :| 0 <= j < |barriers| && barriers[j] == b;
      assert EnhanceTextures(barriers)[j] in EnhanceTextures(barriers);
    }
  }

  // Enhanced barriers name subresources, so those of a required range that are used for
  // unordered access already are separated only when the texture is tracked and required
  // as a whole, or for the first of them.
  lemma EnhancedSeparatesIff(t: Texture, record: TextureState, subresources: TextureSubresourceSet, state: States, k: nat)
    requires record.ValidFor(t.desc) && 0 < t.desc.NumSubresources() && k < t.planeCount * t.desc.NumSubresources()
    requires Covers(t.desc, subresources, SubresourceAt(t.desc.NumSubresources(), k))
    ensures InTexture(t, Cells(BoundsOf(t.desc, subresources)))
    ensures var i, states := SubresourceAt(t.desc.NumSubresources(), k), Denote(t.desc, record);
            var q := Request(t, state, record.enableUavBarriers, record.IsCompact());
            var whole := record.IsCompact() && forall j: nat :: j < t.desc.NumSubresources() ==> Covers(t.desc, subresources, j);
            IsSeparatedEnhanced(EnhanceTextures(RequireState(t, record, subresources, state).barriers), t, k)
            <==> || states[i] != state
                 || (UnorderedAccess in state && (record.enableUavBarriers || !record.firstUavBarrierPlaced)
                     && (whole || FirstFound(q, states, Cells(BoundsOf(t.desc, subresources))) == Some(CellAt(t.desc.mipLevels, i))))
  {
    UavBudgetRuns.RequireStateOwn(t, record, subresources, state);
    RequireStateProper(t, record, subresources, state);
    EnhancedTouches(RequireState(t, record, subresources, state).barriers, t, k);
    TouchedIff(t, record, subresources, state, SubresourceAt(t.desc.NumSubresources(), k));
  }

  // The first two of three mip levels, all in unordered access: requiring them again puts a
  // barrier on the first level only.
  lemma EnhancedPartialExample(t: Texture)
    requires t.desc.mipLevels == 3 && t.desc.arraySize == 1 && t.desc.dimension == Texture2D && t.planeCount == 1
    ensures var record := TextureState([], {UnorderedAccess}, true, false, false);
            var barriers := RequireState(t, record, TextureSubresourceSet(0, 2, 0, 1), {UnorderedAccess}).barriers;
            && IsSeparatedEnhanced(EnhanceTextures(barriers), t, 0) && !IsSeparatedEnhanced(EnhanceTextures(barriers), t, 1)
            && IsSeparated(TranslateTextures(barriers), t, 1)
  {
    var record, range := TextureState([], {UnorderedAccess}, true, false, false), TextureSubresourceSet(0, 2, 0, 1);
    assert t.desc.NumSubresources() == 3;
    assert CellAt(3, 0) == Cell(0, 0) && CellAt(3, 1) == Cell(0, 1) && CellAt(3, 2) == Cell(0, 2);
    RangeCoversIff(t.desc, range, 0, 0);
    RangeCoversIff(t.desc, range, 1, 0);
    RangeCoversIff(t.desc, range, 2, 0);
    assert CalcSubresource(2, 0, t.desc) == 2 && !Covers(t.desc, range, 2);
    assert BoundsOf(t.desc, range) == Box(0, 2, 0, 1);
    assert Cells(Box(0, 2, 0, 1))[0] == Cell(0, 0);
    EnhancedSeparatesIff(t, record, range, {UnorderedAccess}, 0);
    EnhancedSeparatesIff(t, record, range, {UnorderedAccess}, 1);
    RequirementIsOrdered(t, record, range, {UnorderedAccess}, 1);
  }

  // ---------- Textures over whole runs ----------

  // Whether UAV barriers are enabled for a texture, from the history of a run.
  function Setting(events: seq<TextureRuns.Event>, t: Texture): bool {
    if events == [] then true
    else
      var rest := Setting(events[..|events| - 1], t);
      match events[|events| - 1]
      case SetUavEvent(x, enabled) => if x == t then enabled else rest
      case SubmitEvent => true
      case _ => rest
  }

  predicate IsSet(k: Tracking, t: Texture, enabled: bool) {
    if t in k.states then k.states[t].enableUavBarriers == enabled else enabled
  }

  lemma RequireKeepsSetting(k: Tracking, x: Texture, ext: TextureExt, subresources: TextureSubresourceSet, state: States,
                            t: Texture, enabled: bool)
    requires k.Valid() && IsSet(k, t, enabled)
    ensures IsSet(k.Require(x, ext, subresources, state), t, enabled)
  {
    RequireBudget(x, k.Lookup(x, ext), subresources, state);
  }

  lemma {:induction false} KeepInitialsKeepSetting(k: Tracking, order: seq<Texture>, exts: TextureExts, t: Texture, enabled: bool)
    requires k.Valid() && IsSet(k, t, enabled) && forall x :: x in order ==> x in k.states && x in exts
    ensures IsSet(k.KeepInitials(order, exts), t, enabled)
  {
    if order != [] {
      var rest, last := order[..|order| - 1], order[|order| - 1];
      KeepInitialsKeepSetting(k, rest, exts, t, enabled);
      RequireKeepsSetting(k.KeepInitials(rest, exts), last, exts[last], ALL_SUBRESOURCES, last.desc.initialState, t, enabled);
    }
  }

  lemma StepSets(w: TextureRuns.World, e: TextureRuns.Event, t: Texture, enabled: bool)
    requires TextureRuns.Typed(w) && TextureRuns.Concerns(w, e) && IsSet(w.tracking, t, enabled)
    ensures IsSet(TextureRuns.Step(w, e).tracking, t,
                  if e.SubmitEvent? then true else if e.SetUavEvent? && e.texture == t then e.enabled else enabled)
  {
    match e
    case RequireEvent(x, subresources, state) => RequireKeepsSetting(w.tracking, x, w.exts[x], subresources, state, t, enabled);
    case PermanentEvent(x, subresources, state) =>
      var resolved := subresources.Resolve(x.desc, false);
      RequireKeepsSetting(w.tracking, x, w.exts[x], resolved, state, t, enabled);
      RequireKeepsSetting(w.tracking.Report(PartialPermanentTransition(x)), x, w.exts[x], resolved, state, t, enabled);
    case CloseEvent(order) => KeepInitialsKeepSetting(w.tracking, order, w.exts, t, enabled);
    case _ =>
  }

  lemma {:induction false} SettingIs(worlds: seq<TextureRuns.World>, events: seq<TextureRuns.Event>, n: nat, t: Texture)
    requires TextureRuns.IsRun(worlds, events) && n < |worlds|
    ensures IsSet(worlds[n].tracking, t, Setting(events[..n], t))
  {
    if n != 0 {
      SettingIs(worlds, events, n - 1, t);
      StepSets(worlds[n - 1], events[n - 1], t, Setting(events[..n - 1], t));
      assert events[..n][..n - 1] == events[..n - 1];
    }
  }

  // In every legal run: unless UAV barriers were disabled, the barriers that a requirement
  // of unordered access adds to those of the next commit separate the uses of its range.
  lemma OrderedInEveryRun(worlds: seq<TextureRuns.World>, events: seq<TextureRuns.Event>, n: nat, t: Texture,
                          subresources: TextureSubresourceSet, state: States, k: nat)
    requires TextureRuns.IsRun(worlds, events) && n < |events| && events[n] == TextureRuns.RequireEvent(t, subresources, state)
    requires UnorderedAccess in state && worlds[n].exts[t].permanentState == UNKNOWN && Setting(events[..n], t)
    requires k < t.planeCount * t.desc.NumSubresources() && 0 < t.desc.NumSubresources()
    requires Covers(t.desc, subresources, SubresourceAt(t.desc.NumSubresources(), k))
    ensures worlds[n].tracking.pending <= worlds[n + 1].tracking.pending
    ensures IsSeparated(TranslateTextures(worlds[n + 1].tracking.pending[|worlds[n].tracking.pending|..]), t, k)
  {
    var tracking := worlds[n].tracking;
    TextureRuns.RunKeepsInvariant(worlds, events, n);
    SettingIs(worlds, events, n, t);
    var record := tracking.Lookup(t, worlds[n].exts[t]);
    RequirementIsOrdered(t, record, subresources, state, k);
    assert worlds[n + 1].tracking.pending[|tracking.pending|..] == RequireState(t, record, subresources, state).barriers;
  }

  // ---------- Buffers ----------

  predicate SeparatesBuffer(b: D3DBarrier, buffer: Buffer) {
    match b
    case BufferUav(x) => x == buffer
    case BufferTransition(x, _, _) => x == buffer
    case _ => false
  }

  predicate IsSeparatedBuffer(barriers: seq<D3DBarrier>, buffer: Buffer) {
    exists b :: b in barriers && SeparatesBuffer(b, buffer)
  }

  // Writing acceleration structures is ordered with reading them and with building from
  // them, and writing micromaps with building from them.
  predicate WritesAndReads(before: States, after: States) {
    || (before == {AccelStructWrite} && (AccelStructRead in after || AccelStructBuildBlas in after))
    || (after == {AccelStructWrite} && (AccelStructRead in before || AccelStructBuildBlas in before))
    || (before == {OpacityMicromapWrite} && AccelStructBuildInput in after)
  }

  predicate UsesAccelStruct(states: States) {
    exists flag :: flag in states && flag in {AccelStructRead, AccelStructWrite, AccelStructBuildBlas, OpacityMicromapWrite}
  }

  lemma AccelStructIff(states: States)
    ensures IsAccelStruct(states) <==> UsesAccelStruct(states)
  {
    ConvertMember(states, D3DRaytracingAccelerationStructure);
    forall flag ensures D3DRaytracingAccelerationStructure in FlagImage(flag)
                        <==> flag in {AccelStructRead, AccelStructWrite, AccelStructBuildBlas, OpacityMicromapWrite} {
    }
  }

  lemma UavImageIff(states: States)
    ensures D3DUnorderedAccess in Convert(states) <==> UnorderedAccess in states || ConvertCoopVecMatrixOutput in states
  {
    ConvertMember(states, D3DUnorderedAccess);
    assert D3DUnorderedAccess in FlagImage(UnorderedAccess) && D3DUnorderedAccess in FlagImage(ConvertCoopVecMatrixOutput);
  }

  // Exactly when one buffer barrier separates uses.
  lemma BufferBarrierSeparatesIff(b: BufferStates.BufferBarrier)
    ensures IsSeparatedBuffer(TranslateBuffer(b), b.buffer)
            <==> || (Convert(b.stateBefore) != Convert(b.stateAfter) && !UsesAccelStruct(b.stateBefore) && !UsesAccelStruct(b.stateAfter))
                 || UnorderedAccess in b.stateAfter || ConvertCoopVecMatrixOutput in b.stateAfter
                 || WritesAndReads(b.stateBefore, b.stateAfter)
    ensures b.stateBefore == b.stateAfter && UnorderedAccess in b.stateAfter ==> TranslateBuffer(b) == [BufferUav(b.buffer)]
  {
    AccelStructIff(b.stateBefore);
    AccelStructIff(b.stateAfter);
    UavImageIff(b.stateAfter);
    var uav, transition := BufferUav(b.buffer), BufferTransition(b.buffer, Convert(b.stateBefore), Convert(b.stateAfter));
    assert SeparatesBuffer(uav, b.buffer) && SeparatesBuffer(transition, b.buffer);
    assert TranslateBuffer(b) in {[], [uav], [transition]};
    assert OrdersAccelStruct(b.stateBefore, b.stateAfter) <==> WritesAndReads(b.stateBefore, b.stateAfter) by {
      PairsMeet(b.stateBefore);
      PairsMeet(b.stateAfter);
    }
  }

  lemma PairsMeet(states: States)
    ensures states * {AccelStructRead, AccelStructBuildBlas} != {} <==> AccelStructRead in states || AccelStructBuildBlas in states
  {
    if AccelStructRead in states {
      assert AccelStructRead in states * {AccelStructRead, AccelStructBuildBlas};
    }
    if AccelStructBuildBlas in states {
      assert AccelStructBuildBlas in states * {AccelStructRead, AccelStructBuildBlas};
    }
  }

  lemma {:induction false} BufferTranslationHas(barriers: seq<BufferStates.BufferBarrier>, b: BufferStates.BufferBarrier, x: D3DBarrier)
    requires b in barriers && x in TranslateBuffer(b)
    ensures x in TranslateBuffers(barriers)
  {
    if b != barriers[|barriers| - 1] {
      BufferTranslationHas(barriers[..|barriers| - 1], b, x);
    }
  }

  // Requiring unordered access of a buffer, in another state or with a UAV barrier due,
  // whatever it is merged with: the barriers of the batch separate its uses.
  lemma BufferRequirementIsOrdered(k: BufferStates.BufferTracking, buffer: Buffer, state: States, committed: States)
    requires BufferStates.Chain(BufferStates.Own(k.pending, buffer), committed, k.Lookup(buffer).state)
    requires !buffer.desc.isVolatile && buffer.desc.cpuAccess == NoAccess && UnorderedAccess in state
    requires k.Lookup(buffer).state != state || k.Lookup(buffer).enableUavBarriers || !k.Lookup(buffer).firstUavBarrierPlaced
    ensures IsSeparatedBuffer(TranslateBuffers(BufferStates.Require(k, buffer, UNKNOWN, state).pending), buffer)
  {
    var r := BufferStates.Require(k, buffer, UNKNOWN, state);
    BufferStates.RequireKeepsChain(k, buffer, UNKNOWN, state, committed);
    BufferStates.PendingAfterRequire(k, buffer, state, committed);
    var first := BufferStates.Own(r.pending, buffer)[0];
    OwnIsPending(r.pending, buffer, first);
    BufferBarrierSeparatesIff(first);
    var x :| x in TranslateBuffer(first) && SeparatesBuffer(x, buffer);
    BufferTranslationHas(r.pending, first, x);
  }

  // Writing an acceleration structure and building from another state of it are merged into
  // one state when no commit comes in between; reading it in the next batch is then not
  // ordered with the write.
  lemma MergedWriteExample(buffer: Buffer)
    requires buffer.desc == BufferDesc(false, NoAccess, {AccelStructRead}, true)
    ensures var written := BufferStates.Require(BufferStates.NOTHING_TRACKED, buffer, UNKNOWN, {AccelStructWrite});
            var merged := BufferStates.Require(written, buffer, UNKNOWN, {AccelStructBuildBlas});
            var read := BufferStates.Require(merged.(pending := []), buffer, UNKNOWN, {AccelStructRead});
            && merged.Lookup(buffer).state == {AccelStructWrite, AccelStructBuildBlas}
            && read.pending != [] && TranslateBuffers(read.pending) == []
  {
    var written := BufferStates.Require(BufferStates.NOTHING_TRACKED, buffer, UNKNOWN, {AccelStructWrite});
    assert written.pending == [BufferStates.BufferBarrier(buffer, {AccelStructRead}, {AccelStructWrite})];
    var merged := BufferStates.Require(written, buffer, UNKNOWN, {AccelStructBuildBlas});
    assert BufferStates.FirstPending(written.pending, buffer) == 0;
    var states := {AccelStructWrite, AccelStructBuildBlas};
    assert merged.Lookup(buffer).state == states;
    var read := BufferStates.Require(merged.(pending := []), buffer, UNKNOWN, {AccelStructRead});
    var b := BufferStates.BufferBarrier(buffer, states, {AccelStructRead});
    assert read.pending == [b] && [b][..0] == [];
    BufferBarrierSeparatesIff(b);
    assert AccelStructBuildBlas in states && AccelStructWrite in states && AccelStructRead in {AccelStructRead};
    assert UsesAccelStruct(states) && UsesAccelStruct({AccelStructRead});
    SeparatesOrNothing(b);
  }

  lemma SeparatesOrNothing(b: BufferStates.BufferBarrier)
    ensures IsSeparatedBuffer(TranslateBuffer(b), b.buffer) <==> TranslateBuffer(b) != []
  {
    if TranslateBuffer(b) != [] {
      assert SeparatesBuffer(TranslateBuffer(b)[0], b.buffer);
    }
  }

  function BufferSetting(events: seq<BufferRuns.Event>, buffer: Buffer): bool {
    if events == [] then true
    else
      var rest := BufferSetting(events[..|events| - 1], buffer);
      match events[|events| - 1]
      case SetUavEvent(x, enabled) => if x == buffer then enabled else rest
      case SubmitEvent => true
      case _ => rest
  }

  lemma {:induction false} KeepBuffersKeepSetting(k: BufferStates.BufferTracking, order: seq<Buffer>, permanents: map<Buffer, States>, buffer: Buffer)
    requires forall b :: b in order ==> b in permanents
    ensures KeepBuffers(k, order, permanents).Lookup(buffer).enableUavBarriers == k.Lookup(buffer).enableUavBarriers
  {
    if order != [] {
      KeepBuffersKeepSetting(k, order[..|order| - 1], permanents, buffer);
    }
  }

  lemma BufferStepSets(w: BufferRuns.World, e: BufferRuns.Event, buffer: Buffer)
    requires BufferRuns.Typed(w) && BufferRuns.Concerns(w, e)
    ensures BufferRuns.Step(w, e).tracking.Lookup(buffer).enableUavBarriers
            == if e.SubmitEvent? then true
               else if e.SetUavEvent? && e.buffer == buffer then e.enabled
               else w.tracking.Lookup(buffer).enableUavBarriers
  {
    if e.CloseEvent? {
      KeepBuffersKeepSetting(w.tracking, e.order, w.permanents, buffer);
    }
  }

  lemma {:induction false} BufferSettingIs(worlds: seq<BufferRuns.World>, events: seq<BufferRuns.Event>, n: nat, buffer: Buffer)
    requires BufferRuns.IsRun(worlds, events) && n < |worlds|
    ensures worlds[n].tracking.Lookup(buffer).enableUavBarriers == BufferSetting(events[..n], buffer)
  {
    if n != 0 {
      BufferSettingIs(worlds, events, n - 1, buffer);
      assert BufferRuns.Follows(worlds, events, n - 1);
      BufferStepSets(worlds[n - 1], events[n - 1], buffer);
      assert events[..n][..n - 1] == events[..n - 1];
    }
  }

  // In every legal run: unless UAV barriers were disabled, the barriers pending after a
  // requirement of unordered access of a buffer separate its uses.
  lemma BufferOrderedInEveryRun(worlds: seq<BufferRuns.World>, events: seq<BufferRuns.Event>, n: nat, buffer: Buffer, state: States)
    requires BufferRuns.IsRun(worlds, events) && n < |events| && events[n] == BufferRuns.Event.RequireEvent(buffer, state)
    requires !buffer.desc.isVolatile && buffer.desc.cpuAccess == NoAccess
    requires buffer in worlds[n].permanents && worlds[n].permanents[buffer] == UNKNOWN
    requires UnorderedAccess in state && BufferSetting(events[..n], buffer)
    ensures IsSeparatedBuffer(TranslateBuffers(worlds[n + 1].tracking.pending), buffer)
  {
    BufferRuns.RunKeepsInvariant(worlds, events, n);
    BufferSettingIs(worlds, events, n, buffer);
    assert BufferRuns.Follows(worlds, events, n);
    assert BufferRuns.Shaped(worlds[n].tracking, buffer, UNKNOWN);
    BufferRequirementIsOrdered(worlds[n].tracking, buffer, state, BufferRuns.Start(worlds[n].tracking, buffer));
  }
}
