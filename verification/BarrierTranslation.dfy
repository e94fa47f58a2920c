/**
 Translation of the tracker's barriers to legacy D3D12 barriers
 (src/d3d12/d3d12-state-tracking.cpp, `commitBarriers`), and the D3D12 device that
 executes them. A D3D12 texture has one state per mip level, array slice and plane.
 */
module BarrierTranslation {
  import opened Arithmetic
  import opened Wrappers
  import opened Resources
  import opened ResourceStates
  import opened Subresources
  import opened TextureStates
  import BufferStates

  datatype D3DBarrier =
    | TextureTransition(texture: Texture, before: D3DStates, after: D3DStates)   // all subresources
    | SubresourceTransition(texture: Texture, subresource: nat, before: D3DStates, after: D3DStates)
    | TextureUav(texture: Texture)
    | BufferTransition(buffer: Buffer, before: D3DStates, after: D3DStates)
    | BufferUav(buffer: Buffer)

  // calcSubresource (src/d3d12/d3d12-texture.cpp)
  function D3DSubresource(mipLevel: nat, arraySlice: nat, plane: nat, mipLevels: nat, arraySize: nat): nat {
    mipLevel + arraySlice * mipLevels + plane * (mipLevels * arraySize)
  }

  function PlaneTransition(b: TextureBarrier, plane: nat): D3DBarrier {
    SubresourceTransition(
      b.texture,
      D3DSubresource(b.mipLevel, b.arraySlice, plane, b.texture.desc.mipLevels, b.texture.desc.arraySize),
      Convert(b.stateBefore), Convert(b.stateAfter))
  }

  function PlaneTransitions(b: TextureBarrier, planes: nat): seq<D3DBarrier> {
    if planes == 0 then [] else PlaneTransitions(b, planes - 1) + [PlaneTransition(b, planes - 1)]
  }

  function TranslateTexture(b: TextureBarrier): seq<D3DBarrier> {
    var before, after := Convert(b.stateBefore), Convert(b.stateAfter);
    if before != after then
      if b.entireTexture then [TextureTransition(b.texture, before, after)]
      else PlaneTransitions(b, b.texture.planeCount)
    else if D3DUnorderedAccess in after then [TextureUav(b.texture)]
    else []
  }

  function TranslateTextures(barriers: seq<TextureBarrier>): seq<D3DBarrier> {
    if barriers == [] then []
    else TranslateTextures(barriers[..|barriers| - 1]) + TranslateTexture(barriers[|barriers| - 1])
  }

  // The pairs of states between which an acceleration structure needs a UAV barrier.
  predicate OrdersAccelStruct(before: States, after: States) {
    || (before == {AccelStructWrite} && after * {AccelStructRead, AccelStructBuildBlas} != {})
    || (after == {AccelStructWrite} && before * {AccelStructRead, AccelStructBuildBlas} != {})
    || (before == {OpacityMicromapWrite} && AccelStructBuildInput in after)
  }

  function TranslateBuffer(b: BufferStates.BufferBarrier): seq<D3DBarrier> {
    var before, after := Convert(b.stateBefore), Convert(b.stateAfter);
    if before != after && !IsAccelStruct(b.stateBefore) && !IsAccelStruct(b.stateAfter) then
      [BufferTransition(b.buffer, before, after)]
    else if OrdersAccelStruct(b.stateBefore, b.stateAfter) || D3DUnorderedAccess in after then
      [BufferUav(b.buffer)]
    else []
  }

  function TranslateBuffers(barriers: seq<BufferStates.BufferBarrier>): seq<D3DBarrier> {
    if barriers == [] then []
    else TranslateBuffers(barriers[..|barriers| - 1]) + TranslateBuffer(barriers[|barriers| - 1])
  }

  // ---------- The D3D12 device ----------

  datatype D3DDevice = D3DDevice(textures: map<Texture, seq<D3DStates>>, buffers: map<Buffer, D3DStates>)

  // One barrier; None when its StateBefore is not the state of the device.
  function Execute(d: D3DDevice, b: D3DBarrier): Option<D3DDevice> {
    match b
    case TextureTransition(t, before, after) =>
      if t in d.textures && forall i :: 0 <= i < |d.textures[t]| ==> d.textures[t][i] == before
      then Some(d.(textures := d.textures[t := Uniform(|d.textures[t]|, after)]))
      else None
    case SubresourceTransition(t, k, before, after) =>
      if t in d.textures && k < |d.textures[t]| && d.textures[t][k] == before
      then Some(d.(textures := d.textures[t := d.textures[t][k := after]]))
      else None
    case TextureUav(_) => Some(d)
    case BufferTransition(buffer, before, after) =>
      if buffer in d.buffers && d.buffers[buffer] == before
      then Some(d.(buffers := d.buffers[buffer := after]))
      else None
    case BufferUav(_) => Some(d)
  }

  function ExecuteAll(d: D3DDevice, barriers: seq<D3DBarrier>): Option<D3DDevice> {
    if barriers == [] then Some(d)
    else
      var before := ExecuteAll(d, barriers[..|barriers| - 1]);
      if before.None? then None else Execute(before.value, barriers[|barriers| - 1])
  }

  lemma {:induction false} ExecuteConcat(d: D3DDevice, a: seq<D3DBarrier>, b: seq<D3DBarrier>)
    requires ExecuteAll(d, a).Some?
    ensures ExecuteAll(d, a + b) == ExecuteAll(ExecuteAll(d, a).value, b)
  {
    if b == [] {
      assert a + b == a;
    } else {
      ExecuteConcat(d, a, b[..|b| - 1]);
      assert (a + b)[..|a + b| - 1] == a + b[..|b| - 1];
    }
  }

  lemma ExecuteOne(d: D3DDevice, b: D3DBarrier)
    ensures ExecuteAll(d, [b]) == Execute(d, b)
  {
  }

  // ---------- Textures ----------

  // Position k of a D3D12 texture with n subresources per plane: the plane and the
  // tracker's subresource. The split is the one CellAt makes of an index.
  function PlaneAt(n: nat, k: nat): nat
    requires 0 < n
  {
    CellAt(n, k).arraySlice
  }

  function SubresourceAt(n: nat, k: nat): (i: nat)
    requires 0 < n
    ensures i < n
  {
    CellAt(n, k).mipLevel
  }

  // The D3D12 states of a texture are the images of the tracker's, in every plane.
  ghost predicate IsImage(t: Texture, states: seq<States>, actual: seq<D3DStates>) {
    && |states| == t.desc.NumSubresources() && 0 < |states|
    && |actual| == t.planeCount * |states|
    && forall k :: 0 <= k < |actual| ==> actual[k] == Convert(states[SubresourceAt(|states|, k)])
  }

  ghost predicate IsImageDevice(device: Device, d: D3DDevice) {
    && d.textures.Keys == device.Keys
    && forall t :: t in device ==> IsImage(t, device[t], d.textures[t])
  }

  // Subresource i is in state `after` in the planes below `planes`.
  function Partway(actual: seq<D3DStates>, n: nat, i: nat, planes: nat, after: D3DStates): (r: seq<D3DStates>)
    requires 0 < n
    ensures |r| == |actual|
    ensures forall k :: 0 <= k < |r| ==>
              r[k] == if SubresourceAt(n, k) == i && PlaneAt(n, k) < planes then after else actual[k]
  {
    seq(|actual|, k requires 0 <= k < |actual| =>
      if SubresourceAt(n, k) == i && PlaneAt(n, k) < planes then after else actual[k])
  }

  lemma PlaneBelow(n: nat, planes: nat, k: nat)
    requires 0 < n && k < planes * n
    ensures PlaneAt(n, k) < planes
  {
    IndexOfCellAt(n, k);
    if planes <= PlaneAt(n, k) {
      ProductMonotone(planes, PlaneAt(n, k), n);
    }
  }

  lemma PartwayStep(actual: seq<D3DStates>, n: nat, i: nat, plane: nat, planes: nat, after: D3DStates)
    requires i < n && plane < planes && |actual| == planes * n
    ensures i + plane * n < |actual|
    ensures Partway(actual, n, i, plane, after)[i + plane * n] == actual[i + plane * n]
    ensures Partway(actual, n, i, plane, after)[i + plane * n := after] == Partway(actual, n, i, plane + 1, after)
  {
    var at := i + plane * n;
    IndexBelow(i, n, plane, planes);
    CellAtOfIndex(n, i, plane);
    var before, next := Partway(actual, n, i, plane, after), Partway(actual, n, i, plane + 1, after);
    forall k | 0 <= k < |actual|
      ensures before[at := after][k] == next[k]
    {
      if k != at && SubresourceAt(n, k) == i && PlaneAt(n, k) == plane {
        IndexOfCellAt(n, k);
      }
    }
  }

  ghost predicate PlanesReady(d: D3DDevice, b: TextureBarrier, index: nat) {
    var t := b.texture;
    var n := t.desc.NumSubresources();
    && index == CalcSubresource(b.mipLevel, b.arraySlice, t.desc) && index < n
    && t in d.textures && |d.textures[t]| == t.planeCount * n
    && forall k :: 0 <= k < |d.textures[t]| && SubresourceAt(n, k) == index ==> d.textures[t][k] == Convert(b.stateBefore)
  }

  lemma {:induction false} PlanesExecute(d: D3DDevice, b: TextureBarrier, index: nat, planes: nat)
    requires PlanesReady(d, b, index) && planes <= b.texture.planeCount
    ensures ExecuteAll(d, PlaneTransitions(b, planes))
         == Some(d.(textures := d.textures[b.texture :=
                      Partway(d.textures[b.texture], b.texture.desc.NumSubresources(), index, planes, Convert(b.stateAfter))]))
  {
    var t := b.texture;
    var n := t.desc.NumSubresources();
    var after := Convert(b.stateAfter);
    if planes == 0 {
      assert Partway(d.textures[t], n, index, 0, after) == d.textures[t];
      assert d.textures[t := d.textures[t]] == d.textures;
    } else {
      var plane := planes - 1;
      var now := d.textures[t := Partway(d.textures[t], n, index, plane, after)];
      PlanesExecute(d, b, index, plane);
      PartwayStep(d.textures[t], n, index, plane, t.planeCount, after);
      CellAtOfIndex(n, index, plane);
      assert D3DSubresource(b.mipLevel, b.arraySlice, plane, t.desc.mipLevels, t.desc.arraySize) == index + plane * n;
      ExecuteConcat(d, PlaneTransitions(b, plane), [PlaneTransition(b, plane)]);
      ExecuteOne(d.(textures := now), PlaneTransition(b, plane));
      assert now[t := Partway(d.textures[t], n, index, planes, after)]
          == d.textures[t := Partway(d.textures[t], n, index, planes, after)];
    }
  }

  // Executing the translation of one barrier takes the image of a device to the image
  // of the device the barrier leads to.
  lemma TranslateTextureSound(device: Device, d: D3DDevice, b: TextureBarrier)
    requires IsImageDevice(device, d) && Apply(device, b).Some?
    ensures var r := ExecuteAll(d, TranslateTexture(b));
            r.Some? && IsImageDevice(Apply(device, b).value, r.value) && r.value.buffers == d.buffers
  {
    var t := b.texture;
    var states, next := device[t], Apply(device, b).value[t];
    var before, after := Convert(b.stateBefore), Convert(b.stateAfter);
    var actual := d.textures[t];
    assert IsImage(t, states, actual);
    if before == after {
      if D3DUnorderedAccess in after {
        ExecuteOne(d, TextureUav(t));
      }
      assert IsImage(t, next, actual);
    } else if b.entireTexture {
      ExecuteOne(d, TextureTransition(t, before, after));
      assert IsImage(t, next, Uniform(|actual|, after));
    } else {
      var index := CalcSubresource(b.mipLevel, b.arraySlice, t.desc);
      PlanesExecute(d, b, index, t.planeCount);
      PartwayIsImage(t, states, actual, index, b.stateAfter);
    }
  }

  lemma PartwayIsImage(t: Texture, states: seq<States>, actual: seq<D3DStates>, index: nat, state: States)
    requires IsImage(t, states, actual) && index < |states|
    ensures IsImage(t, states[index := state], Partway(actual, |states|, index, t.planeCount, Convert(state)))
  {
    forall k | 0 <= k < |actual|
      ensures Partway(actual, |states|, index, t.planeCount, Convert(state))[k]
           == Convert(states[index := state][SubresourceAt(|states|, k)])
    {
      PlaneBelow(|states|, t.planeCount, k);
    }
  }

  // Barrier compilation preserves meaning: if the tracker's barriers fit the tracked
  // states, the D3D12 barriers fit the D3D12 states, and the results correspond.
  lemma {:induction false} TranslateTexturesSound(device: Device, d: D3DDevice, barriers: seq<TextureBarrier>)
    requires IsImageDevice(device, d) && Replay(device, barriers).Some?
    ensures var r := ExecuteAll(d, TranslateTextures(barriers));
            r.Some? && IsImageDevice(Replay(device, barriers).value, r.value) && r.value.buffers == d.buffers
  {
    if barriers != [] {
      var rest, last := barriers[..|barriers| - 1], barriers[|barriers| - 1];
      TranslateTexturesSound(device, d, rest);
      var now := ExecuteAll(d, TranslateTextures(rest)).value;
      TranslateTextureSound(Replay(device, rest).value, now, last);
      ExecuteConcat(d, TranslateTextures(rest), TranslateTexture(last));
    }
  }

  // ---------- Buffers ----------

  // The D3D12 state of a buffer after a batch that takes it from `committed` to
  // `tracked`: acceleration structures are never transitioned and stay as they are.
  function AfterBatch(committed: States, tracked: States, actual: D3DStates): D3DStates {
    if IsAccelStruct(committed) || IsAccelStruct(tracked) then actual else Convert(tracked)
  }

  ghost predicate BufferFits(pending: seq<BufferStates.BufferBarrier>, committed: map<Buffer, States>, tracked: map<Buffer, States>, b: Buffer) {
    && b in committed && b in tracked
    && BufferStates.Chain(BufferStates.Own(pending, b), committed[b], tracked[b])
  }

  ghost predicate BatchFits(pending: seq<BufferStates.BufferBarrier>, committed: map<Buffer, States>, tracked: map<Buffer, States>) {
    forall x :: x in pending ==> BufferFits(pending, committed, tracked, x.buffer)
  }

  // What executing a batch makes of the buffers.
  function BatchResult(pending: seq<BufferStates.BufferBarrier>, committed: map<Buffer, States>, tracked: map<Buffer, States>,
                       buffers: map<Buffer, D3DStates>): map<Buffer, D3DStates>
  {
    map b | b in buffers ::
      if BufferStates.Own(pending, b) != [] && b in committed && b in tracked then AfterBatch(committed[b], tracked[b], buffers[b])
      else buffers[b]
  }

  lemma OwnMember(pending: seq<BufferStates.BufferBarrier>, x: BufferStates.BufferBarrier)
    requires x in pending
    ensures x in BufferStates.Own(pending, x.buffer)
  {
  }

  lemma OwnHead(pending: seq<BufferStates.BufferBarrier>, b: Buffer)
    requires BufferStates.Own(pending, b) != []
    ensures exists x :: x in pending && x.buffer == b
  {
  }

  lemma {:induction false} OwnIsPending(pending: seq<BufferStates.BufferBarrier>, b: Buffer, x: BufferStates.BufferBarrier)
    requires x in BufferStates.Own(pending, b)
    ensures x in pending && x.buffer == b
  {
    if pending[0].buffer != b || pending[0] != x {
      OwnIsPending(pending[1..], b, x);
    }
  }

  // Every batch of requirements that starts without pending barriers fits.
  lemma RunBatchFits(k: BufferStates.BufferTracking, events: seq<BufferStates.BufferEvent>)
    requires k.pending == []
    ensures var r := BufferStates.Run(k, events);
            BatchFits(r.pending, BufferStates.StatesOf(k, r.pending), BufferStates.StatesOf(r, r.pending))
  {
    var r := BufferStates.Run(k, events);
    forall x | x in r.pending
      ensures BufferFits(r.pending, BufferStates.StatesOf(k, r.pending), BufferStates.StatesOf(r, r.pending), x.buffer)
    {
      BufferStates.RunKeepsChain(k, events, x.buffer);
    }
  }

  // A chain without its last barrier is a chain; the last barrier is the first one or
  // orders unordered accesses.
  lemma ChainInit(own: seq<BufferStates.BufferBarrier>, last: BufferStates.BufferBarrier, committed: States, tracked: States)
    requires BufferStates.Chain(own + [last], committed, tracked)
    ensures own != [] ==> BufferStates.Chain(own, committed, tracked) && last.stateBefore == last.stateAfter
    ensures own == [] ==> last.stateBefore == committed && last.stateAfter == tracked
  {
    if own != [] {
      assert (own + [last])[1..] == own[1..] + [last];
      assert last in own[1..] + [last];
      assert forall b :: b in own[1..] ==> b in own[1..] + [last];
    }
  }

  lemma BufferFitsInit(rest: seq<BufferStates.BufferBarrier>, last: BufferStates.BufferBarrier,
                       committed: map<Buffer, States>, tracked: map<Buffer, States>, b: Buffer)
    requires BufferFits(rest + [last], committed, tracked, b)
    ensures BufferStates.Own(rest, b) != [] ==> BufferFits(rest, committed, tracked, b)
    ensures b == last.buffer ==>
              if BufferStates.Own(rest, b) == [] then last.stateBefore == committed[b] && last.stateAfter == tracked[b]
              else last.stateBefore == last.stateAfter
  {
    BufferStates.OwnPush(rest, last, b);
    if b == last.buffer {
      ChainInit(BufferStates.Own(rest, b), last, committed[b], tracked[b]);
    } else {
      assert BufferStates.Own(rest + [last], b) == BufferStates.Own(rest, b);
    }
  }

  // Dropping the last barrier of a batch leaves a batch.
  lemma BatchFitsInit(rest: seq<BufferStates.BufferBarrier>, last: BufferStates.BufferBarrier,
                      committed: map<Buffer, States>, tracked: map<Buffer, States>)
    requires BatchFits(rest + [last], committed, tracked)
    ensures BatchFits(rest, committed, tracked)
    ensures last.buffer in committed && last.buffer in tracked
    ensures if BufferStates.Own(rest, last.buffer) == []
            then last.stateBefore == committed[last.buffer] && last.stateAfter == tracked[last.buffer]
            else last.stateBefore == last.stateAfter
  {
    assert last in rest + [last];
    BufferFitsInit(rest, last, committed, tracked, last.buffer);
    forall x | x in rest
      ensures BufferFits(rest, committed, tracked, x.buffer)
    {
      assert x in rest + [last];
      OwnMember(rest, x);
      BufferFitsInit(rest, last, committed, tracked, x.buffer);
    }
  }

  // One barrier of a batch: the first of its buffer, or one that orders unordered accesses.
  lemma TranslateBufferSound(d: D3DDevice, x: BufferStates.BufferBarrier, committed: States, tracked: States,
                             actual: D3DStates, first: bool)
    requires x.buffer in d.buffers && (IsAccelStruct(committed) || actual == Convert(committed))
    requires first ==> x.stateBefore == committed && x.stateAfter == tracked && d.buffers[x.buffer] == actual
    requires !first ==> x.stateBefore == x.stateAfter && d.buffers[x.buffer] == AfterBatch(committed, tracked, actual)
    ensures ExecuteAll(d, TranslateBuffer(x)) == Some(d.(buffers := d.buffers[x.buffer := AfterBatch(committed, tracked, actual)]))
  {
    var translated := TranslateBuffer(x);
    if translated != [] {
      ExecuteOne(d, translated[0]);
      assert translated == [translated[0]];
    }
    if translated == [] || translated[0].BufferUav? {
      assert d.buffers[x.buffer := d.buffers[x.buffer]] == d.buffers;
    }
  }

  // Executing the translation of the merged barriers of a batch takes every buffer of
  // the batch from the image of its committed state to the image of its tracked state,
  // acceleration structures excepted.
  lemma {:induction false} TranslateBuffersSound(pending: seq<BufferStates.BufferBarrier>, committed: map<Buffer, States>,
                                                 tracked: map<Buffer, States>, d: D3DDevice)
    requires BatchFits(pending, committed, tracked)
    requires forall x :: x in pending ==>
               && x.buffer in d.buffers
               && (IsAccelStruct(committed[x.buffer]) || d.buffers[x.buffer] == Convert(committed[x.buffer]))
    ensures ExecuteAll(d, TranslateBuffers(pending))
         == Some(d.(buffers := BatchResult(pending, committed, tracked, d.buffers)))
  {
    if pending == [] {
      assert BatchResult(pending, committed, tracked, d.buffers) == d.buffers;
    } else {
      var rest, last := pending[..|pending| - 1], pending[|pending| - 1];
      assert rest + [last] == pending;
      BatchFitsInit(rest, last, committed, tracked);
      TranslateBuffersSound(rest, committed, tracked, d);
      var now := BatchResult(rest, committed, tracked, d.buffers);
      ExecuteConcat(d, TranslateBuffers(rest), TranslateBuffer(last));
      TranslateBufferSound(d.(buffers := now), last, committed[last.buffer], tracked[last.buffer], d.buffers[last.buffer],
                           BufferStates.Own(rest, last.buffer) == []);
      BatchResultPush(rest, last, committed, tracked, d.buffers);
    }
  }

  lemma BatchResultPush(rest: seq<BufferStates.BufferBarrier>, last: BufferStates.BufferBarrier,
                        committed: map<Buffer, States>, tracked: map<Buffer, States>, buffers: map<Buffer, D3DStates>)
    requires last.buffer in committed && last.buffer in tracked && last.buffer in buffers
    ensures BatchResult(rest + [last], committed, tracked, buffers)
         == BatchResult(rest, committed, tracked, buffers)[last.buffer := AfterBatch(committed[last.buffer], tracked[last.buffer], buffers[last.buffer])]
  {
    forall b | b in buffers
      ensures BufferStates.Own(rest + [last], b) == BufferStates.Own(rest, b) + (if last.buffer == b then [last] else [])
    {
      BufferStates.OwnPush(rest, last, b);
    }
  }
}
