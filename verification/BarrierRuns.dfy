/**
 Barrier compilation over whole runs: what the tracker's run theorems mean for the D3D12
 barriers that commitBarriers records (src/d3d12/d3d12-state-tracking.cpp).
 */
module BarrierRuns {
  import opened Wrappers
  import opened Resources
  import opened ResourceStates
  import opened Subresources
  import opened TextureStates
  import opened TextureTracking
  import opened BarrierTranslation
  import TextureRuns
  import BufferStates
  import BufferRuns

  // The D3D12 device after the first n events of a run: every list's barriers, those of
  // closing included, are executed as they are recorded.
  function DeviceAfter(worlds: seq<TextureRuns.World>, events: seq<TextureRuns.Event>, n: nat, d: D3DDevice): Option<D3DDevice>
    requires TextureRuns.IsRun(worlds, events) && n < |worlds|
  {
    if n == 0 then Some(d)
    else
      var before := DeviceAfter(worlds, events, n - 1, d);
      if before.None? then None
      else ExecuteAll(before.value, TranslateTextures(TextureRuns.Recorded(worlds[n - 1], events[n - 1])))
  }

  // End to end: on a D3D12 device that starts in the states the textures are created in,
  // every barrier that a legal run records fits, and after every event each plane of each
  // subresource is in the D3D12 state of its actual state.
  lemma {:induction false} RunCompiles(worlds: seq<TextureRuns.World>, events: seq<TextureRuns.Event>, n: nat, d: D3DDevice)
    requires TextureRuns.IsRun(worlds, events) && n < |worlds|
    requires IsImageDevice(worlds[0].device, d)
    ensures var r := DeviceAfter(worlds, events, n, d);
            r.Some? && IsImageDevice(worlds[n].device, r.value) && r.value.buffers == d.buffers
  {
    if n != 0 {
      RunCompiles(worlds, events, n - 1, d);
      var w, e := worlds[n - 1], events[n - 1];
      TextureRuns.RunKeepsInvariant(worlds, events, n - 1);
      TextureRuns.RecordedFits(w, e);
      TranslateTexturesSound(w.device, DeviceAfter(worlds, events, n - 1, d).value, TextureRuns.Recorded(w, e));
    }
  }

  // Whenever a commit comes next, it takes that device to the D3D12 states of what is tracked.
  lemma CommitFitsInEveryRun(worlds: seq<TextureRuns.World>, events: seq<TextureRuns.Event>, n: nat, d: D3DDevice)
    requires TextureRuns.IsRun(worlds, events) && n < |worlds|
    requires IsImageDevice(worlds[0].device, d)
    ensures DeviceAfter(worlds, events, n, d).Some?
    ensures var r := ExecuteAll(DeviceAfter(worlds, events, n, d).value, TranslateTextures(worlds[n].tracking.pending));
            r.Some? && IsImageDevice(TextureRuns.Now(worlds[n]), r.value) && r.value.buffers == d.buffers
  {
    RunCompiles(worlds, events, n, d);
    TextureRuns.RunIsConsistent(worlds, events, n);
    TranslateTexturesSound(worlds[n].device, DeviceAfter(worlds, events, n, d).value, worlds[n].tracking.pending);
  }

  // The D3D12 barriers of a closed list, and of all lists before it, leave every kept
  // texture, in every plane, in the D3D12 state of its initial state.
  lemma CloseReturnsToInitial(worlds: seq<TextureRuns.World>, events: seq<TextureRuns.Event>, n: nat, t: Texture, d: D3DDevice)
    requires TextureRuns.IsRun(worlds, events) && n < |worlds| && worlds[n].closed
    requires t in worlds[n].tracking.states && t in worlds[n].exts && t.desc.keepInitialState
    requires worlds[n].exts[t].permanentState == UNKNOWN && !worlds[n].tracking.states[t].permanentTransition
    requires IsImageDevice(worlds[0].device, d)
    ensures var r := DeviceAfter(worlds, events, n, d);
            && r.Some? && t in r.value.textures
            && forall k :: 0 <= k < |r.value.textures[t]| ==> r.value.textures[t][k] == Convert(t.desc.initialState)
  {
    var w := worlds[n];
    RunCompiles(worlds, events, n, d);
    TextureRuns.RunKeepsInvariant(worlds, events, n);
    assert TextureRuns.Consistent(t, w.exts[t], w.tracking.Tracked(t), Announced(w.tracking.permanents, t), w.device[t]);
    assert TextureRuns.Returned(t, w.exts[t], w.tracking);
    assert IsImage(t, w.device[t], DeviceAfter(worlds, events, n, d).value.textures[t]);
  }

  // From the submission that makes it permanent on, a texture is in the D3D12 state of its
  // permanent state whenever the pending barriers have executed.
  lemma PermanentOnTheDevice(worlds: seq<TextureRuns.World>, events: seq<TextureRuns.Event>, i: nat, n: nat, t: Texture, d: D3DDevice)
    requires TextureRuns.IsRun(worlds, events) && i <= n < |worlds|
    requires t in worlds[i].exts && worlds[i].exts[t].permanentState != UNKNOWN
    requires IsImageDevice(worlds[0].device, d)
    ensures DeviceAfter(worlds, events, n, d).Some?
    ensures var r := ExecuteAll(DeviceAfter(worlds, events, n, d).value, TranslateTextures(worlds[n].tracking.pending));
            && r.Some? && t in r.value.textures
            && forall k :: 0 <= k < |r.value.textures[t]| ==> r.value.textures[t][k] == Convert(worlds[i].exts[t].permanentState)
  {
    CommitFitsInEveryRun(worlds, events, n, d);
    TextureRuns.PermanentForEver(worlds, events, i, n, t);
    TextureRuns.RunIsConsistent(worlds, events, n);
    assert TextureRuns.PermanentIsActual(worlds[n], t);
    var r := ExecuteAll(DeviceAfter(worlds, events, n, d).value, TranslateTextures(worlds[n].tracking.pending)).value;
    assert IsImage(t, TextureRuns.Now(worlds[n])[t], r.textures[t]);
  }

  // Any batch of buffer requirements that starts without pending barriers compiles to
  // D3D12 barriers that all fit, and ends with every buffer in the D3D12 state of its
  // tracked state, unless it is used as an acceleration structure.
  lemma BufferBatchCompiles(k: BufferStates.BufferTracking, events: seq<BufferStates.BufferEvent>, d: D3DDevice)
    requires k.pending == []
    requires forall b :: b in d.buffers ==> d.buffers[b] == Convert(k.Lookup(b).state)
    requires forall x :: x in BufferStates.Run(k, events).pending ==> x.buffer in d.buffers
    ensures var r := BufferStates.Run(k, events);
            var result := ExecuteAll(d, TranslateBuffers(r.pending));
            && result.Some?
            && (forall b :: b in d.buffers && BufferStates.Own(r.pending, b) != [] ==>
                  b in result.value.buffers && result.value.buffers[b] == AfterBatch(k.Lookup(b).state, r.Lookup(b).state, d.buffers[b]))
            && (forall b :: b in d.buffers && BufferStates.Own(r.pending, b) == [] ==>
                  b in result.value.buffers && result.value.buffers[b] == d.buffers[b] && r.Lookup(b).state == k.Lookup(b).state)
  {
    var r := BufferStates.Run(k, events);
    var committed, tracked := BufferStates.StatesOf(k, r.pending), BufferStates.StatesOf(r, r.pending);
    RunBatchFits(k, events);
    TranslateBuffersSound(r.pending, committed, tracked, d);
    forall b | b in d.buffers
      ensures BufferStates.Own(r.pending, b) != [] ==> b in committed && b in tracked
      ensures BufferStates.Own(r.pending, b) == [] ==> r.Lookup(b).state == k.Lookup(b).state
    {
      BufferStates.RunKeepsChain(k, events, b);
      if BufferStates.Own(r.pending, b) != [] {
        OwnHead(r.pending, b);
      }
    }
  }

  // ---------- Buffers over whole runs ----------

  // The D3D12 states of buffers are the images of the tracker's, acceleration structures
  // excepted, which D3D12 never transitions.
  ghost predicate IsImageBuffers(device: BufferRuns.BufferDevice, d: D3DDevice) {
    && d.buffers.Keys == device.Keys
    && forall b :: b in device ==> IsAccelStruct(device[b]) || d.buffers[b] == Convert(device[b])
  }

  // A buffer is used as an acceleration structure always or never.
  ghost predicate SameKind(device: BufferRuns.BufferDevice, other: BufferRuns.BufferDevice) {
    device.Keys == other.Keys && forall b :: b in device ==> (IsAccelStruct(device[b]) <==> IsAccelStruct(other[b]))
  }

  function BuffersAfter(worlds: seq<BufferRuns.World>, events: seq<BufferRuns.Event>, n: nat, d: D3DDevice): Option<D3DDevice>
    requires n <= |events| < |worlds|
    requires forall i :: 0 <= i < n ==> BufferRuns.Concerns(worlds[i], events[i])
  {
    if n == 0 then Some(d)
    else
      var before := BuffersAfter(worlds, events, n - 1, d);
      if before.None? then None
      else ExecuteAll(before.value, TranslateBuffers(BufferRuns.Recorded(worlds[n - 1], events[n - 1])))
  }

  // A batch that fits the actual states.
  lemma BatchCompiles(device: BufferRuns.BufferDevice, pending: seq<BufferStates.BufferBarrier>, d: D3DDevice)
    requires BufferRuns.Fits(device, pending) && forall x :: x in pending ==> x.buffer in device
    requires IsImageBuffers(device, d) && SameKind(device, BufferRuns.Execute(device, pending))
    ensures var r := ExecuteAll(d, TranslateBuffers(pending));
            r.Some? && IsImageBuffers(BufferRuns.Execute(device, pending), r.value) && r.value.textures == d.textures
  {
    var next := BufferRuns.Execute(device, pending);
    FitsAsBatch(device, pending);
    TranslateBuffersSound(pending, device, next, d);
    BatchImage(device, next, pending, d);
  }

  lemma FitsAsBatch(device: BufferRuns.BufferDevice, pending: seq<BufferStates.BufferBarrier>)
    requires BufferRuns.Fits(device, pending) && forall x :: x in pending ==> x.buffer in device
    ensures var next := BufferRuns.Execute(device, pending);
            && BatchFits(pending, device, next)
            && forall b :: b in device && BufferStates.Own(pending, b) == [] ==> next[b] == device[b]
  {
    var next := BufferRuns.Execute(device, pending);
    forall x | x in pending ensures BufferFits(pending, device, next, x.buffer) {
      OwnMember(pending, x);
      assert BufferRuns.Executed(BufferStates.Own(pending, x.buffer), device[x.buffer]).Some?;
    }
  }

  lemma BatchImage(device: BufferRuns.BufferDevice, next: BufferRuns.BufferDevice, pending: seq<BufferStates.BufferBarrier>, d: D3DDevice)
    requires IsImageBuffers(device, d) && SameKind(device, next)
    requires forall b :: b in device && BufferStates.Own(pending, b) == [] ==> next[b] == device[b]
    ensures IsImageBuffers(next, d.(buffers := BatchResult(pending, device, next, d.buffers)))
  {
  }

  // End to end, in runs whose lists are all closed well: every D3D12 buffer barrier fits,
  // those of closing included, and after every event each buffer that is no acceleration
  // structure is in the D3D12 state of its actual state.
  lemma {:induction false} BufferRunCompiles(worlds: seq<BufferRuns.World>, events: seq<BufferRuns.Event>, n: nat, d: D3DDevice)
    requires BufferRuns.IsRun(worlds, events) && n < |worlds| && BufferRuns.ClosedWellUpTo(worlds, events, n)
    requires IsImageBuffers(worlds[0].device, d)
    requires forall m :: 0 <= m < n ==> SameKind(worlds[m].device, worlds[m + 1].device)
    ensures forall i :: 0 <= i < n ==> BufferRuns.Concerns(worlds[i], events[i])
    ensures var r := BuffersAfter(worlds, events, n, d);
            r.Some? && IsImageBuffers(worlds[n].device, r.value) && r.value.textures == d.textures
  {
    if n != 0 {
      BufferRuns.ClosedWellBefore(worlds, events, n - 1);
      BufferRunCompiles(worlds, events, n - 1, d);
      BufferRuns.RunFits(worlds, events, n - 1);
      BatchCompiles(worlds[n - 1].device, BufferRuns.Recorded(worlds[n - 1], events[n - 1]),
                    BuffersAfter(worlds, events, n - 1, d).value);
    }
  }

  // ---------- After an announcement ----------

  // What may be asked of a texture once a permanent state was announced for it.
  datatype Later = Later(subresources: TextureSubresourceSet, state: States, permanent: bool)

  function After(k: Tracking, t: Texture, ext: TextureExt, later: seq<Later>): (r: Tracking)
    requires k.Valid()
    ensures r.Valid()
  {
    if later == [] then k
    else
      var before, last := After(k, t, ext, later[..|later| - 1]), later[|later| - 1];
      if last.permanent then before.SetPermanent(t, ext, last.subresources, last.state)
      else before.Require(t, ext, last.subresources, last.state)
  }

  // The states that the last of them to cover each subresource asks for.
  function LastAsked(t: Texture, later: seq<Later>): (r: seq<Option<States>>)
    ensures |r| == t.desc.NumSubresources()
  {
    if later == [] then seq(t.desc.NumSubresources(), _ => None)
    else
      var before, last := LastAsked(t, later[..|later| - 1]), later[|later| - 1];
      seq(|before|, i requires 0 <= i < |before| =>
        if Covers(t.desc, last.subresources, i) then Some(last.state) else before[i])
  }

  // What a texture in these states ends up in.
  predicate EndsAsAsked(states: seq<States>, asked: seq<Option<States>>, start: seq<States>) {
    && |states| == |asked| == |start|
    && forall i :: 0 <= i < |states| ==> states[i] == if asked[i].Some? then asked[i].value else start[i]
  }

  // One more requirement or announcement of an announced texture.
  lemma AskedOnce(k: Tracking, t: Texture, ext: TextureExt, ask: Later, announced: States)
    requires k.Valid() && ext.permanentState == UNKNOWN
    requires t in k.states && k.states[t].permanentTransition && FirstAnnounced(k.permanents, t) == Some(announced)
    ensures var r := After(k, t, ext, [ask]);
            && t in r.states && r.states[t].permanentTransition && FirstAnnounced(r.permanents, t) == Some(announced)
            && Denote(t.desc, r.states[t]) == Overwrite(t.desc, Denote(t.desc, k.states[t]), ask.subresources, ask.state)
  {
    assert [ask][..0] == [];
    RequireMeans(t, k.states[t], ask.subresources, ask.state);
    if ask.permanent {
      var resolved := ask.subresources.Resolve(t.desc, false);
      ResolveIdempotent(t.desc, ask.subresources, false);
      RequireMeans(t, k.states[t], resolved, ask.state);
      FirstAnnouncedPush(k.permanents, (t, ask.state), t);
    }
  }

  // Once a permanent state has been announced in a list, nothing that is asked later in
  // the list is refused or undone on closing, and the first announcement stays: every
  // subresource ends up in the state that the last one to cover it asked for.
  lemma {:induction false} LastAskedIsFinal(k: Tracking, t: Texture, ext: TextureExt, announced: States, later: seq<Later>)
    requires k.Valid() && ext.permanentState == UNKNOWN
    requires t in k.states && k.states[t].permanentTransition && FirstAnnounced(k.permanents, t) == Some(announced)
    ensures var r := After(k, t, ext, later);
            && t in r.states && r.states[t].permanentTransition && FirstAnnounced(r.permanents, t) == Some(announced)
            && r.KeepInitial(t, ext) == r
            && EndsAsAsked(Denote(t.desc, r.states[t]), LastAsked(t, later), Denote(t.desc, k.states[t]))
  {
    if later != [] {
      var rest, last := later[..|later| - 1], later[|later| - 1];
      LastAskedIsFinal(k, t, ext, announced, rest);
      AskedOnce(After(k, t, ext, rest), t, ext, last, announced);
      assert [last][..0] == [];
    }
  }

  lemma AllAskedIff(states: seq<States>, asked: seq<Option<States>>, announced: States)
    requires EndsAsAsked(states, asked, Uniform(|asked|, announced))
    ensures states == Uniform(|states|, announced)
            <==> forall i :: 0 <= i < |asked| ==> asked[i].None? || asked[i].value == announced
  {
    if states == Uniform(|states|, announced) {
      forall i | 0 <= i < |asked| ensures asked[i].None? || asked[i].value == announced {
        assert states[i] == announced;
      }
    }
  }

  lemma {:induction false} OthersAnnounced(exts: TextureExts, k: Tracking, t: Texture, ext: TextureExt, later: seq<Later>)
    requires k.Valid() && t in exts
    requires forall p :: p in k.permanents ==> p.0 in exts && p.1 != UNKNOWN
    requires forall ask :: ask in later ==> ask.state != UNKNOWN
    ensures forall p :: p in After(k, t, ext, later).permanents ==> p.0 in exts && p.1 != UNKNOWN
  {
    if later != [] {
      OthersAnnounced(exts, k, t, ext, later[..|later| - 1]);
      assert later[|later| - 1] in later;
    }
  }

  // The first announcement becomes permanent, and is the state the texture is in exactly
  // when the last requirement or announcement to cover each subresource asks for it, or
  // none covers it.
  lemma LaterRequirementWins(exts: TextureExts, k: Tracking, t: Texture, announced: States, later: seq<Later>)
    requires k.Valid() && t in exts && exts[t].permanentState == UNKNOWN
    requires t in k.states && k.states[t].permanentTransition && FirstAnnounced(k.permanents, t) == Some(announced)
    requires Denote(t.desc, k.states[t]) == Uniform(t.desc.NumSubresources(), announced)
    requires forall p :: p in k.permanents ==> p.0 in exts && p.1 != UNKNOWN
    requires forall ask :: ask in later ==> ask.state != UNKNOWN
    ensures forall p :: p in After(k, t, exts[t], later).permanents ==> p.0 in exts
    ensures var r := After(k, t, exts[t], later);
            && SubmitPermanents(exts, r.permanents)[t].permanentState == announced
            && t in r.states && r.KeepInitial(t, exts[t]) == r
            && (Denote(t.desc, r.states[t]) == Uniform(t.desc.NumSubresources(), announced)
                <==> forall i :: 0 <= i < |LastAsked(t, later)| ==> LastAsked(t, later)[i].None? || LastAsked(t, later)[i].value == announced)
  {
    var r := After(k, t, exts[t], later);
    LastAskedIsFinal(k, t, exts[t], announced, later);
    OthersAnnounced(exts, k, t, exts[t], later);
    FirstBecomesPermanent(exts, r.permanents, t, announced);
    AllAskedIff(Denote(t.desc, r.states[t]), LastAsked(t, later), announced);
  }

  lemma FirstBecomesPermanent(exts: TextureExts, permanents: Permanents, t: Texture, announced: States)
    requires (forall p :: p in permanents ==> p.0 in exts && p.1 != UNKNOWN) && t in exts && exts[t].permanentState == UNKNOWN
    requires FirstAnnounced(permanents, t) == Some(announced)
    ensures SubmitPermanents(exts, permanents)[t].permanentState == announced
  {
    SubmitPermanentsAt(exts, permanents, t);
  }

  // A texture announced as a permanent shader resource and then copied to in the same
  // list: it becomes permanent in a state it is not in.
  lemma OverriddenPermanentExample(t: Texture)
    ensures var ext := TextureExt(UNKNOWN, false);
            var k := EMPTY.SetPermanent(t, ext, ALL_SUBRESOURCES, {PixelShaderResource});
            var r := k.Require(t, ext, ALL_SUBRESOURCES, {CopyDest});
            && t in r.states && r.KeepInitial(t, ext) == r
            && Denote(t.desc, r.states[t]) == Uniform(t.desc.NumSubresources(), {CopyDest})
            && SubmitPermanents(map[t := ext], r.permanents)[t].permanentState == {PixelShaderResource}
  {
    var ext := TextureExt(UNKNOWN, false);
    AllSubresourcesIsEntire(t.desc);
    EntireTextureIff(t.desc, ALL_SUBRESOURCES);
    var k := EMPTY.SetPermanent(t, ext, ALL_SUBRESOURCES, {PixelShaderResource});
    RequireMeans(t, k.states[t], ALL_SUBRESOURCES, {CopyDest});
    var permanents: Permanents := [(t, {PixelShaderResource})];
    assert permanents[..0] == [];
    assert k.Require(t, ext, ALL_SUBRESOURCES, {CopyDest}).permanents == permanents;
  }
}
