/**
 The enhanced-barrier path of `commitBarriers` (src/d3d12/d3d12-state-tracking.cpp): every
 tracker barrier becomes one D3D12 barrier with a range of subresources. The device it
 runs on remembers the last use per mip level, array slice and plane, and of every buffer.
 */
module EnhancedBarriers {
  import opened Wrappers
  import opened Resources
  import opened ResourceStates
  import opened Subresources
  import opened TextureStates
  import opened TextureTracking
  import opened BarrierTranslation
  import opened EnhancedStates
  import BufferStates
  import TextureRuns

  datatype SubresourceRange = SubresourceRange(
    firstMip: nat, numMips: nat, firstSlice: nat, numSlices: nat, numPlanes: nat)
  {
    predicate Has(cell: Cell, plane: nat) {
      && firstMip <= cell.mipLevel < firstMip + numMips
      && firstSlice <= cell.arraySlice < firstSlice + numSlices
      && plane < numPlanes
    }
  }

  // One side of a barrier: where in the pipeline and how the resource is used. Buffers
  // have no layout; theirs is Common.
  datatype Use = Use(sync: set<Sync>, access: set<Access>, layout: Layout)

  function TextureUse(states: States): Use {
    Use(AllSync(states), AllAccess(states), LayoutOf(states))
  }

  function BufferUse(states: States): Use {
    Use(AllSync(states), AllAccess(states), LayoutCommon)
  }

  datatype EnhancedTextureBarrier = EnhancedTextureBarrier(texture: Texture, before: Use, after: Use, subresources: SubresourceRange)

  datatype EnhancedBufferBarrier = EnhancedBufferBarrier(buffer: Buffer, before: Use, after: Use)

  function RangeOf(b: TextureBarrier): SubresourceRange {
    if b.entireTexture then SubresourceRange(0, b.texture.desc.mipLevels, 0, b.texture.desc.arraySize, b.texture.planeCount)
    else SubresourceRange(b.mipLevel, 1, b.arraySlice, 1, b.texture.planeCount)
  }

  function EnhanceTexture(b: TextureBarrier): EnhancedTextureBarrier {
    EnhancedTextureBarrier(b.texture, TextureUse(b.stateBefore), TextureUse(b.stateAfter), RangeOf(b))
  }

  function EnhanceTextures(barriers: seq<TextureBarrier>): seq<EnhancedTextureBarrier> {
    if barriers == [] then []
    else EnhanceTextures(barriers[..|barriers| - 1]) + [EnhanceTexture(barriers[|barriers| - 1])]
  }

  function EnhanceBuffer(b: BufferStates.BufferBarrier): EnhancedBufferBarrier {
    EnhancedBufferBarrier(b.buffer, BufferUse(b.stateBefore), BufferUse(b.stateAfter))
  }

  function EnhanceBuffers(barriers: seq<BufferStates.BufferBarrier>): seq<EnhancedBufferBarrier> {
    if barriers == [] then []
    else EnhanceBuffers(barriers[..|barriers| - 1]) + [EnhanceBuffer(barriers[|barriers| - 1])]
  }

  method EnhanceTextureBarriers(barriers: seq<TextureBarrier>) returns (d3dBarriers: seq<EnhancedTextureBarrier>)
    ensures d3dBarriers == EnhanceTextures(barriers)
  {
    d3dBarriers := [];
    for k := 0 to |barriers|
      invariant d3dBarriers == EnhanceTextures(barriers[..k])
    {
      assert barriers[..k + 1][..k] == barriers[..k];
      var barrier := barriers[k];
      var stateBefore, _ := ConvertForEnhancedBarriers(barrier.stateBefore, true);
      var stateAfter, _ := ConvertForEnhancedBarriers(barrier.stateAfter, true);
      LowestLayoutIff(barrier.stateBefore, stateBefore.layout);
      LowestLayoutIff(barrier.stateAfter, stateAfter.layout);
      var desc := barrier.texture.desc;
      var subresources := SubresourceRange(0, 0, 0, 0, 0);
      if barrier.entireTexture {
        subresources := subresources.(numSlices := desc.arraySize, numMips := desc.mipLevels);
      } else {
        subresources := SubresourceRange(barrier.mipLevel, 1, barrier.arraySlice, 1, 0);
      }
      subresources := subresources.(numPlanes := barrier.texture.planeCount);
      d3dBarriers := d3dBarriers + [EnhancedTextureBarrier(
        barrier.texture,
        Use(stateBefore.sync, stateBefore.access, stateBefore.layout),
        Use(stateAfter.sync, stateAfter.access, stateAfter.layout),
        subresources)];
    }
    assert barriers[..|barriers|] == barriers;
  }

  method EnhanceBufferBarriers(barriers: seq<BufferStates.BufferBarrier>) returns (d3dBarriers: seq<EnhancedBufferBarrier>)
    ensures d3dBarriers == EnhanceBuffers(barriers)
  {
    d3dBarriers := [];
    for k := 0 to |barriers|
      invariant d3dBarriers == EnhanceBuffers(barriers[..k])
    {
      assert barriers[..k + 1][..k] == barriers[..k];
      var barrier := barriers[k];
      var stateBefore, _ := ConvertForEnhancedBarriers(barrier.stateBefore, false);
      var stateAfter, _ := ConvertForEnhancedBarriers(barrier.stateAfter, false);
      d3dBarriers := d3dBarriers + [EnhancedBufferBarrier(
        barrier.buffer,
        Use(stateBefore.sync, stateBefore.access, LayoutCommon),
        Use(stateAfter.sync, stateAfter.access, LayoutCommon))];
    }
    assert barriers[..|barriers|] == barriers;
  }

  // Tracker barriers and enhanced ones correspond one to one, in order, and none is dropped.
  lemma {:induction false} EnhanceTexturesAt(barriers: seq<TextureBarrier>, k: nat)
    requires k < |barriers|
    ensures |EnhanceTextures(barriers)| == |barriers|
    ensures var r, b := EnhanceTextures(barriers)[k], barriers[k];
            && r.texture == b.texture && r.subresources == RangeOf(b)
            && r.before == TextureUse(b.stateBefore) && r.after == TextureUse(b.stateAfter)
  {
    var rest := barriers[..|barriers| - 1];
    if k < |rest| {
      EnhanceTexturesAt(rest, k);
    } else if rest != [] {
      EnhanceTexturesAt(rest, 0);
    }
  }

  lemma {:induction false} EnhanceBuffersAt(barriers: seq<BufferStates.BufferBarrier>, k: nat)
    requires k < |barriers|
    ensures |EnhanceBuffers(barriers)| == |barriers|
    ensures var r, b := EnhanceBuffers(barriers)[k], barriers[k];
            r.buffer == b.buffer && r.before == BufferUse(b.stateBefore) && r.after == BufferUse(b.stateAfter)
  {
    var rest := barriers[..|barriers| - 1];
    if k < |rest| {
      EnhanceBuffersAt(rest, k);
    } else if rest != [] {
      EnhanceBuffersAt(rest, 0);
    }
  }

  // The groups that one call of the barrier function takes.
  datatype BarrierGroup = TextureGroup(textures: seq<EnhancedTextureBarrier>) | BufferGroup(buffers: seq<EnhancedBufferBarrier>)

  function Groups(textures: seq<EnhancedTextureBarrier>, buffers: seq<EnhancedBufferBarrier>): seq<BarrierGroup> {
    (if textures == [] then [] else [TextureGroup(textures)]) + (if buffers == [] then [] else [BufferGroup(buffers)])
  }

  // ---------- The device ----------

  // How every subresource, plane by plane, was last used.
  type UseDevice = map<Texture, seq<Use>>

  // Position k of the texture is in the range.
  predicate InRange(t: Texture, range: SubresourceRange, k: nat) {
    var n := t.desc.NumSubresources();
    0 < n && range.Has(CellAt(t.desc.mipLevels, SubresourceAt(n, k)), PlaneAt(n, k))
  }

  // One barrier; None when a subresource of its range was last used otherwise than the
  // barrier says: in another layout, by another access or another part of the pipeline.
  function ExecuteEnhanced(d: UseDevice, b: EnhancedTextureBarrier): Option<UseDevice> {
    if b.texture !in d then None
    else
      var uses := d[b.texture];
      if forall k :: 0 <= k < |uses| && InRange(b.texture, b.subresources, k) ==> uses[k] == b.before then
        Some(d[b.texture := seq(|uses|, k requires 0 <= k < |uses| =>
                 if InRange(b.texture, b.subresources, k) then b.after else uses[k])])
      else None
  }

  function ExecuteAllEnhanced(d: UseDevice, barriers: seq<EnhancedTextureBarrier>): Option<UseDevice> {
    if barriers == [] then Some(d)
    else
      var before := ExecuteAllEnhanced(d, barriers[..|barriers| - 1]);
      if before.None? then None else ExecuteEnhanced(before.value, barriers[|barriers| - 1])
  }

  // The uses of a texture are those of the tracked states, in every plane.
  ghost predicate IsUseImage(t: Texture, states: seq<States>, uses: seq<Use>) {
    && |states| == t.desc.NumSubresources() && 0 < |states|
    && |uses| == t.planeCount * |states|
    && forall k :: 0 <= k < |uses| ==> uses[k] == TextureUse(states[SubresourceAt(|states|, k)])
  }

  ghost predicate IsUseImageDevice(device: Device, d: UseDevice) {
    && d.Keys == device.Keys
    && forall t :: t in device ==> IsUseImage(t, device[t], d[t])
  }

  // The barrier names subresources that the texture has.
  predicate IsProper(b: TextureBarrier) {
    b.entireTexture || (b.mipLevel < b.texture.desc.mipLevels && b.arraySlice < b.texture.desc.arraySize)
  }

  // A tracker barrier and its range are about the same subresources.
  lemma RangeIsExact(b: TextureBarrier, k: nat)
    requires IsProper(b) && 0 < b.texture.desc.NumSubresources()
    requires k < b.texture.planeCount * b.texture.desc.NumSubresources()
    ensures var i := SubresourceAt(b.texture.desc.NumSubresources(), k);
            InRange(b.texture, RangeOf(b), k)
            <==> b.entireTexture || i == CalcSubresource(b.mipLevel, b.arraySlice, b.texture.desc)
  {
    var desc := b.texture.desc;
    var n := desc.NumSubresources();
    var i := SubresourceAt(n, k);
    PlaneBelow(n, b.texture.planeCount, k);
    IndexOnto(desc, i);
    if !b.entireTexture {
      IndexInRange(desc, Cell(b.arraySlice, b.mipLevel));
    }
  }

  lemma EnhanceTextureSound(device: Device, d: UseDevice, b: TextureBarrier)
    requires IsUseImageDevice(device, d) && Apply(device, b).Some? && IsProper(b)
    ensures var r := ExecuteEnhanced(d, EnhanceTexture(b));
            r.Some? && IsUseImageDevice(Apply(device, b).value, r.value)
  {
    var t := b.texture;
    var states, next := device[t], Apply(device, b).value[t];
    var uses := d[t];
    assert IsUseImage(t, states, uses);
    forall k | 0 <= k < |uses|
      ensures InRange(t, RangeOf(b), k) ==> uses[k] == TextureUse(b.stateBefore)
      ensures (if InRange(t, RangeOf(b), k) then TextureUse(b.stateAfter) else uses[k])
           == TextureUse(next[SubresourceAt(|states|, k)])
    {
      RangeIsExact(b, k);
    }
  }

  // If the tracker's barriers fit the tracked states, the enhanced barriers fit the
  // uses the device remembers, and the results correspond.
  lemma {:induction false} EnhanceTexturesSound(device: Device, d: UseDevice, barriers: seq<TextureBarrier>)
    requires IsUseImageDevice(device, d) && Replay(device, barriers).Some?
    requires forall k :: 0 <= k < |barriers| ==> IsProper(barriers[k])
    ensures var r := ExecuteAllEnhanced(d, EnhanceTextures(barriers));
            r.Some? && IsUseImageDevice(Replay(device, barriers).value, r.value)
  {
    if barriers != [] {
      var rest, last := barriers[..|barriers| - 1], barriers[|barriers| - 1];
      EnhanceTexturesSound(device, d, rest);
      EnhanceTextureSound(Replay(device, rest).value, ExecuteAllEnhanced(d, EnhanceTextures(rest)).value, last);
    }
  }

  // ---------- Buffers ----------

  function ExecuteBuffer(d: map<Buffer, Use>, b: EnhancedBufferBarrier): Option<map<Buffer, Use>> {
    if b.buffer in d && d[b.buffer] == b.before then Some(d[b.buffer := b.after]) else None
  }

  function ExecuteBuffers(d: map<Buffer, Use>, barriers: seq<EnhancedBufferBarrier>): Option<map<Buffer, Use>> {
    if barriers == [] then Some(d)
    else
      var before := ExecuteBuffers(d, barriers[..|barriers| - 1]);
      if before.None? then None else ExecuteBuffer(before.value, barriers[|barriers| - 1])
  }

  // What executing a batch makes of the buffers.
  function UseResult(pending: seq<BufferStates.BufferBarrier>, tracked: map<Buffer, States>, d: map<Buffer, Use>): map<Buffer, Use> {
    map b | b in d :: if BufferStates.Own(pending, b) != [] && b in tracked then BufferUse(tracked[b]) else d[b]
  }

  lemma UseResultPush(rest: seq<BufferStates.BufferBarrier>, last: BufferStates.BufferBarrier,
                      tracked: map<Buffer, States>, d: map<Buffer, Use>)
    requires last.buffer in tracked && last.buffer in d
    ensures UseResult(rest + [last], tracked, d) == UseResult(rest, tracked, d)[last.buffer := BufferUse(tracked[last.buffer])]
  {
    forall b | b in d
      ensures BufferStates.Own(rest + [last], b) == BufferStates.Own(rest, b) + (if last.buffer == b then [last] else [])
    {
      BufferStates.OwnPush(rest, last, b);
    }
  }

  // Every barrier ends in the use of its buffer's tracked state. A self-barrier does not
  // when the buffer's first barrier was widened after it had been pushed.
  predicate NamesTracked(pending: seq<BufferStates.BufferBarrier>, tracked: map<Buffer, States>) {
    forall x :: x in pending ==> x.buffer in tracked && BufferUse(x.stateAfter) == BufferUse(tracked[x.buffer])
  }

  lemma NamesTrackedPush(rest: seq<BufferStates.BufferBarrier>, last: BufferStates.BufferBarrier, tracked: map<Buffer, States>)
    requires last.buffer in tracked
    ensures NamesTracked(rest + [last], tracked)
            <==> NamesTracked(rest, tracked) && BufferUse(last.stateAfter) == BufferUse(tracked[last.buffer])
  {
    assert forall x :: x in rest + [last] <==> x in rest || x == last;
  }

  lemma LastFitsIff(rest: seq<BufferStates.BufferBarrier>, last: BufferStates.BufferBarrier,
                    committed: map<Buffer, States>, tracked: map<Buffer, States>, d: map<Buffer, Use>)
    requires BatchFits(rest + [last], committed, tracked)
    requires last.buffer in committed && last.buffer in d && d[last.buffer] == BufferUse(committed[last.buffer])
    ensures last.buffer in tracked
    ensures UseResult(rest, tracked, d)[last.buffer] == BufferUse(last.stateBefore)
            <==> BufferUse(last.stateAfter) == BufferUse(tracked[last.buffer])
  {
    BatchFitsInit(rest, last, committed, tracked);
  }

  lemma ExecuteBuffersPush(d: map<Buffer, Use>, rest: seq<EnhancedBufferBarrier>, b: EnhancedBufferBarrier)
    ensures ExecuteBuffers(d, rest).None? ==> ExecuteBuffers(d, rest + [b]) == None
    ensures ExecuteBuffers(d, rest).Some? ==> ExecuteBuffers(d, rest + [b]) == ExecuteBuffer(ExecuteBuffers(d, rest).value, b)
  {
    assert (rest + [b])[..|rest|] == rest;
  }

  // The merged barriers of a batch fit the uses the device remembers, and then take every
  // buffer to the use of its tracked state, exactly when no self-barrier was left behind
  // by a later widening.
  lemma {:induction false} EnhanceBuffersFitIff(pending: seq<BufferStates.BufferBarrier>, committed: map<Buffer, States>,
                                                tracked: map<Buffer, States>, d: map<Buffer, Use>)
    requires BatchFits(pending, committed, tracked)
    requires forall x :: x in pending ==> x.buffer in d && d[x.buffer] == BufferUse(committed[x.buffer])
    ensures NamesTracked(pending, tracked) ==> ExecuteBuffers(d, EnhanceBuffers(pending)) == Some(UseResult(pending, tracked, d))
    ensures !NamesTracked(pending, tracked) ==> ExecuteBuffers(d, EnhanceBuffers(pending)) == None
  {
    if pending == [] {
      assert UseResult(pending, tracked, d) == d;
    } else {
      var rest, last := pending[..|pending| - 1], pending[|pending| - 1];
      assert rest + [last] == pending;
      BatchFitsInit(rest, last, committed, tracked);
      EnhanceBuffersFitIff(rest, committed, tracked, d);
      LastFitsIff(rest, last, committed, tracked, d);
      NamesTrackedPush(rest, last, tracked);
      UseResultPush(rest, last, tracked, d);
      ExecuteBuffersPush(d, EnhanceBuffers(rest), EnhanceBuffer(last));
    }
  }

  // The use that every repeated unordered access asked for is still the buffer's.
  ghost predicate RepeatsStillHold(k: BufferStates.BufferTracking, events: seq<BufferStates.BufferEvent>) {
    forall i :: 0 <= i < |events| && BufferStates.Repeats(k, events, i) ==>
      BufferUse(events[i].state) == BufferUse(BufferStates.Run(k, events).Lookup(events[i].buffer).state)
  }

  lemma NamesTrackedIff(k: BufferStates.BufferTracking, events: seq<BufferStates.BufferEvent>)
    requires k.pending == []
    ensures var r := BufferStates.Run(k, events);
            NamesTracked(r.pending, BufferStates.StatesOf(r, r.pending)) <==> RepeatsStillHold(k, events)
  {
    var r := BufferStates.Run(k, events);
    var tracked := BufferStates.StatesOf(r, r.pending);
    if NamesTracked(r.pending, tracked) {
      forall i | 0 <= i < |events| && BufferStates.Repeats(k, events, i)
        ensures BufferUse(events[i].state) == BufferUse(r.Lookup(events[i].buffer).state)
      {
        var x := BufferStates.BufferBarrier(events[i].buffer, events[i].state, events[i].state);
        BufferStates.BehindIffRepeated(k, events, x.buffer, x);
        assert x in BufferStates.Own(r.pending, x.buffer);
        OwnIsPending(r.pending, x.buffer, x);
      }
    }
    if RepeatsStillHold(k, events) {
      forall x | x in r.pending ensures BufferUse(x.stateAfter) == BufferUse(tracked[x.buffer]) {
        OwnMember(r.pending, x);
        PendingNames(k, events, x);
      }
    }
  }

  lemma PendingNames(k: BufferStates.BufferTracking, events: seq<BufferStates.BufferEvent>, x: BufferStates.BufferBarrier)
    requires k.pending == [] && RepeatsStillHold(k, events)
    requires x in BufferStates.Own(BufferStates.Run(k, events).pending, x.buffer)
    ensures BufferUse(x.stateAfter) == BufferUse(BufferStates.Run(k, events).Lookup(x.buffer).state)
  {
    var r := BufferStates.Run(k, events);
    BufferStates.RunKeepsChain(k, events, x.buffer);
    var own := BufferStates.Own(r.pending, x.buffer);
    if x != own[0] {
      assert x in own[1..];
      OwnIsPending(r.pending, x.buffer, x);
      BufferStates.BehindIffRepeated(k, events, x.buffer, x);
    }
  }

  // Over any batch of requirements: its merged barriers name the uses the device
  // remembers, and leave every buffer in the use of its tracked state, exactly when no
  // repeated unordered access was followed by a requirement that changes the buffer's use.
  lemma EnhancedBatchFitsIff(k: BufferStates.BufferTracking, events: seq<BufferStates.BufferEvent>, d: map<Buffer, Use>)
    requires k.pending == []
    requires forall b :: b in d ==> d[b] == BufferUse(k.Lookup(b).state)
    requires forall x :: x in BufferStates.Run(k, events).pending ==> x.buffer in d
    ensures var r := BufferStates.Run(k, events);
            var result := ExecuteBuffers(d, EnhanceBuffers(r.pending));
            && (result.Some? <==> RepeatsStillHold(k, events))
            && (result.Some? ==> result.value.Keys == d.Keys
                                 && forall b :: b in d ==> result.value[b] == BufferUse(r.Lookup(b).state))
  {
    var r := BufferStates.Run(k, events);
    var committed, tracked := BufferStates.StatesOf(k, r.pending), BufferStates.StatesOf(r, r.pending);
    RunBatchFits(k, events);
    NamesTrackedIff(k, events);
    EnhanceBuffersFitIff(r.pending, committed, tracked, d);
    forall b | b in d
      ensures UseResult(r.pending, tracked, d)[b] == BufferUse(r.Lookup(b).state)
    {
      BufferStates.RunKeepsChain(k, events, b);
      if BufferStates.Own(r.pending, b) != [] {
        OwnHead(r.pending, b);
      }
    }
  }

  // A batch that does not: a copy destination is used for unordered access twice and then
  // for indirect arguments. The second barrier still goes from unordered access to itself.
  lemma LeftBehindExample(buffer: Buffer)
    requires buffer.desc == BufferDesc(false, NoAccess, {CopyDest}, true)
    ensures var events := [BufferStates.RequireEvent(buffer, UNKNOWN, {UnorderedAccess}),
                           BufferStates.RequireEvent(buffer, UNKNOWN, {UnorderedAccess}),
                           BufferStates.RequireEvent(buffer, UNKNOWN, {IndirectArgument})];
            var r := BufferStates.Run(BufferStates.NOTHING_TRACKED, events);
            ExecuteBuffers(map[buffer := BufferUse({CopyDest})], EnhanceBuffers(r.pending)) == None
  {
    var k := BufferStates.NOTHING_TRACKED;
    var uav := BufferStates.RequireEvent(buffer, UNKNOWN, {UnorderedAccess});
    var events := [uav, uav, BufferStates.RequireEvent(buffer, UNKNOWN, {IndirectArgument})];
    var first := BufferStates.Require(k, buffer, UNKNOWN, {UnorderedAccess});
    var second := BufferStates.Require(first, buffer, UNKNOWN, {UnorderedAccess});
    assert events[..1] == [uav] && [uav][..0] == [];
    assert events[..2][..1] == [uav];
    assert events[..3] == events && BufferStates.Run(k, [uav]) == first && BufferStates.Run(k, events[..2]) == second;
    assert first.pending == [BufferStates.BufferBarrier(buffer, {CopyDest}, {UnorderedAccess})];
    assert second.pending == first.pending + [BufferStates.BufferBarrier(buffer, {UnorderedAccess}, {UnorderedAccess})];
    var r := BufferStates.Run(k, events);
    assert r.Lookup(buffer).state == {UnorderedAccess, IndirectArgument};
    assert AccessIndirectArgument in AllAccess({UnorderedAccess, IndirectArgument}) by {
      assert IndirectArgument in {UnorderedAccess, IndirectArgument} && AccessIndirectArgument in Entry(IndirectArgument).access;
    }
    assert AccessIndirectArgument !in AllAccess({UnorderedAccess});
    assert BufferStates.Repeats(k, events, 1);
    EnhancedBatchFitsIff(k, events, map[buffer := BufferUse({CopyDest})]);
  }

  // ---------- All barriers of a run are proper ----------

  ghost predicate AllProper(barriers: seq<TextureBarrier>) {
    forall b :: b in barriers ==> IsProper(b)
  }

  lemma {:induction false} VisitAllProper(q: Request, w: Walk, cells: seq<Cell>)
    requires |w.states| == q.texture.desc.NumSubresources() && InTexture(q.texture, cells) && AllProper(w.barriers)
    requires forall cell :: cell in cells ==> cell.mipLevel < q.texture.desc.mipLevels && cell.arraySlice < q.texture.desc.arraySize
    ensures AllProper(VisitAll(q, w, cells).barriers)
    decreases cells
  {
    if cells != [] {
      VisitAllProper(q, Visit(q, w, cells[0]), cells[1..]);
    }
  }

  lemma RequireStateProper(t: Texture, record: TextureState, subresources: TextureSubresourceSet, state: States)
    requires record.ValidFor(t.desc)
    ensures AllProper(RequireState(t, record, subresources, state).barriers)
  {
    var box := BoundsOf(t.desc, subresources);
    CellsInTexture(t, subresources);
    BoundsInTexture(t.desc, subresources);
    forall cell | cell in Cells(box) ensures cell.mipLevel < t.desc.mipLevels && cell.arraySlice < t.desc.arraySize {
      CellsMember(box, cell);
    }
    VisitAllProper(Request(t, state, record.enableUavBarriers, record.IsCompact()),
                   Walk(Denote(t.desc, record), record.firstUavBarrierPlaced, false, [], []), Cells(box));
  }

  lemma RequireProper(k: Tracking, t: Texture, ext: TextureExt, subresources: TextureSubresourceSet, state: States)
    requires k.Valid() && AllProper(k.pending)
    ensures AllProper(k.Require(t, ext, subresources, state).pending)
  {
    RequireStateProper(t, k.Lookup(t, ext), subresources, state);
  }

  lemma StepProper(w: TextureRuns.World, e: TextureRuns.Event)
    requires TextureRuns.Typed(w) && TextureRuns.Concerns(w, e) && AllProper(w.tracking.pending)
    ensures AllProper(TextureRuns.Step(w, e).tracking.pending)
  {
    match e
    case RequireEvent(t, subresources, state) => RequireProper(w.tracking, t, w.exts[t], subresources, state);
    case PermanentEvent(t, subresources, state) =>
      var resolved := subresources.Resolve(t.desc, false);
      RequireProper(w.tracking, t, w.exts[t], resolved, state);
      RequireProper(w.tracking.Report(PartialPermanentTransition(t)), t, w.exts[t], resolved, state);
    case _ =>
  }

  lemma {:induction false} RunIsProper(worlds: seq<TextureRuns.World>, events: seq<TextureRuns.Event>, n: nat)
    requires TextureRuns.IsRun(worlds, events) && n < |worlds|
    ensures AllProper(worlds[n].tracking.pending)
  {
    if n != 0 {
      RunIsProper(worlds, events, n - 1);
      StepProper(worlds[n - 1], events[n - 1]);
    }
  }

  lemma {:induction false} KeepInitialsProper(k: Tracking, order: seq<Texture>, exts: TextureExts)
    requires k.Valid() && AllProper(k.pending) && forall t :: t in order ==> t in k.states && t in exts
    ensures AllProper(k.KeepInitials(order, exts).pending)
  {
    if order != [] {
      var rest, last := order[..|order| - 1], order[|order| - 1];
      KeepInitialsProper(k, rest, exts);
      RequireProper(k.KeepInitials(rest, exts), last, exts[last], ALL_SUBRESOURCES, last.desc.initialState);
    }
  }

  lemma RecordedProper(worlds: seq<TextureRuns.World>, events: seq<TextureRuns.Event>, n: nat)
    requires TextureRuns.IsRun(worlds, events) && n < |events|
    ensures AllProper(TextureRuns.Recorded(worlds[n], events[n]))
  {
    RunIsProper(worlds, events, n);
    if events[n].CloseEvent? {
      KeepInitialsProper(worlds[n].tracking, events[n].order, worlds[n].exts);
    }
  }

  // The device after the first n events of a run: every list's enhanced barriers, those
  // of closing included, are executed as they are recorded.
  function UsesAfter(worlds: seq<TextureRuns.World>, events: seq<TextureRuns.Event>, n: nat, d: UseDevice): Option<UseDevice>
    requires TextureRuns.IsRun(worlds, events) && n < |worlds|
  {
    if n == 0 then Some(d)
    else
      var before := UsesAfter(worlds, events, n - 1, d);
      if before.None? then None
      else ExecuteAllEnhanced(before.value, EnhanceTextures(TextureRuns.Recorded(worlds[n - 1], events[n - 1])))
  }

  // End to end: every enhanced barrier that a legal run records names the last use of its
  // whole range, and after every event the device remembers the uses of the actual states.
  lemma {:induction false} EnhancedRunCompiles(worlds: seq<TextureRuns.World>, events: seq<TextureRuns.Event>, n: nat, d: UseDevice)
    requires TextureRuns.IsRun(worlds, events) && n < |worlds|
    requires IsUseImageDevice(worlds[0].device, d)
    ensures var r := UsesAfter(worlds, events, n, d);
            r.Some? && IsUseImageDevice(worlds[n].device, r.value)
  {
    if n != 0 {
      EnhancedRunCompiles(worlds, events, n - 1, d);
      var w, e := worlds[n - 1], events[n - 1];
      TextureRuns.RunKeepsInvariant(worlds, events, n - 1);
      TextureRuns.RecordedFits(w, e);
      RecordedProper(worlds, events, n - 1);
      EnhanceTexturesSound(w.device, UsesAfter(worlds, events, n - 1, d).value, TextureRuns.Recorded(w, e));
    }
  }

  // Whenever a commit comes next, it takes that device to the uses of what is tracked.
  lemma EnhancedCommitFitsInEveryRun(worlds: seq<TextureRuns.World>, events: seq<TextureRuns.Event>, n: nat, d: UseDevice)
    requires TextureRuns.IsRun(worlds, events) && n < |worlds|
    requires IsUseImageDevice(worlds[0].device, d)
    ensures UsesAfter(worlds, events, n, d).Some?
    ensures var r := ExecuteAllEnhanced(UsesAfter(worlds, events, n, d).value, EnhanceTextures(worlds[n].tracking.pending));
            r.Some? && IsUseImageDevice(TextureRuns.Now(worlds[n]), r.value)
  {
    EnhancedRunCompiles(worlds, events, n, d);
    TextureRuns.RunIsConsistent(worlds, events, n);
    RunIsProper(worlds, events, n);
    EnhanceTexturesSound(worlds[n].device, UsesAfter(worlds, events, n, d).value, worlds[n].tracking.pending);
  }
}
