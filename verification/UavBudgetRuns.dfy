/**
 The UAV barrier budget over whole runs: between two calls that set the UAV barriers of a
 texture (src/common/state-tracking.cpp, `setEnableUavBarriersForTexture`), within one
 command list, anything may happen - requirements of any textures and ranges, tracking
 begun by hand, permanent transitions, commits and closing.
 */
module UavBudgetRuns {
  import opened Wrappers
  import opened Resources
  import opened ResourceStates
  import opened Subresources
  import opened TextureStates
  import opened TextureTracking
  import opened TextureRuns
  import opened StateTracker
  import BufferStates
  import BufferRuns

  // The barriers from a state of texture `t` to itself.
  function SelfBarriersOf(t: Texture, barriers: seq<TextureBarrier>): nat {
    if barriers == [] then 0
    else
      var last := barriers[|barriers| - 1];
      SelfBarriersOf(t, barriers[..|barriers| - 1]) + if last.texture == t && IsSelfBarrier(last) then 1 else 0
  }

  lemma {:induction false} SelfBarriersOfConcat(t: Texture, a: seq<TextureBarrier>, b: seq<TextureBarrier>)
    ensures SelfBarriersOf(t, a + b) == SelfBarriersOf(t, a) + SelfBarriersOf(t, b)
  {
    if b == [] {
      assert a + b == a;
    } else {
      SelfBarriersOfConcat(t, a, b[..|b| - 1]);
      assert (a + b)[..|a + b| - 1] == a + b[..|b| - 1];
    }
  }

  lemma {:induction false} SelfBarriersOfOne(t: Texture, other: Texture, barriers: seq<TextureBarrier>)
    requires forall b :: b in barriers ==> b.texture == other
    ensures SelfBarriersOf(t, barriers) == if t == other then SelfBarriers(barriers) else 0
  {
    if barriers != [] {
      SelfBarriersOfOne(t, other, barriers[..|barriers| - 1]);
    }
  }

  lemma {:induction false} VisitAllOwn(q: Request, w: Walk, cells: seq<Cell>)
    requires |w.states| == q.texture.desc.NumSubresources() && InTexture(q.texture, cells)
    requires forall b :: b in w.barriers ==> b.texture == q.texture
    ensures forall b :: b in VisitAll(q, w, cells).barriers ==> b.texture == q.texture
    decreases cells
  {
    if cells != [] {
      VisitAllOwn(q, Visit(q, w, cells[0]), cells[1..]);
    }
  }

  // A requirement emits barriers of its own texture only.
  lemma RequireStateOwn(t: Texture, record: TextureState, subresources: TextureSubresourceSet, state: States)
    requires record.ValidFor(t.desc)
    ensures forall b :: b in RequireState(t, record, subresources, state).barriers ==> b.texture == t
  {
    CellsInTexture(t, subresources);
    VisitAllOwn(Request(t, state, record.enableUavBarriers, record.IsCompact()),
                Walk(Denote(t.desc, record), record.firstUavBarrierPlaced, false, [], []), Cells(BoundsOf(t.desc, subresources)));
  }

  // What an event emits, whether it is committed at once or stays pending.
  function Emitted(w: World, e: Event): seq<TextureBarrier>
    requires Typed(w) && Concerns(w, e)
  {
    match e
    case RequireEvent(t, subresources, state) => Added(w.tracking, w.tracking.Require(t, w.exts[t], subresources, state))
    case PermanentEvent(t, subresources, state) => Added(w.tracking, w.tracking.SetPermanent(t, w.exts[t], subresources, state))
    case CloseEvent(order) => Added(w.tracking, w.tracking.KeepInitials(order, w.exts))
    case _ => []
  }

  function Added(before: Tracking, after: Tracking): seq<TextureBarrier> {
    if |before.pending| <= |after.pending| then after.pending[|before.pending|..] else []
  }

  // With UAV barriers disabled: `count` self-barriers were emitted in between, at most one
  // in all, and none once one was placed.
  predicate Budget(before: TextureState, after: TextureState, count: nat) {
    && !after.enableUavBarriers
    && count <= (if before.firstUavBarrierPlaced then 0 else 1)
    && (before.firstUavBarrierPlaced || count == 1 ==> after.firstUavBarrierPlaced)
  }

  ghost predicate WithinDisabled(t: Texture, before: Tracking, after: Tracking) {
    && t in before.states && t in after.states && before.pending <= after.pending
    && Budget(before.states[t], after.states[t], SelfBarriersOf(t, Added(before, after)))
  }

  lemma WithinDisabledTransitive(t: Texture, a: Tracking, b: Tracking, c: Tracking)
    requires WithinDisabled(t, a, b) && WithinDisabled(t, b, c)
    ensures WithinDisabled(t, a, c)
  {
    assert Added(a, c) == Added(a, b) + Added(b, c);
    SelfBarriersOfConcat(t, Added(a, b), Added(b, c));
  }

  lemma RequireWithin(t: Texture, k: Tracking, other: Texture, ext: TextureExt, subresources: TextureSubresourceSet, state: States)
    requires k.Valid() && t in k.states && !k.states[t].enableUavBarriers
    ensures WithinDisabled(t, k, k.Require(other, ext, subresources, state))
  {
    var r := k.Require(other, ext, subresources, state);
    if ext.permanentState != UNKNOWN {
      assert Added(k, r) == [];
    } else {
      var record := k.Lookup(other, ext);
      var u := RequireState(other, record, subresources, state);
      assert Added(k, r) == u.barriers;
      RequireStateOwn(other, record, subresources, state);
      SelfBarriersOfOne(t, other, u.barriers);
      RequireBudget(other, record, subresources, state);
    }
  }

  lemma {:induction false} KeepInitialsWithin(t: Texture, k: Tracking, order: seq<Texture>, exts: TextureExts)
    requires k.Valid() && t in k.states && !k.states[t].enableUavBarriers
    requires forall o :: o in order ==> o in k.states && o in exts
    ensures WithinDisabled(t, k, k.KeepInitials(order, exts))
  {
    if order == [] {
      assert Added(k, k) == [];
    } else {
      var rest, last := order[..|order| - 1], order[|order| - 1];
      KeepInitialsWithin(t, k, rest, exts);
      var before := k.KeepInitials(rest, exts);
      RequireWithin(t, before, last, exts[last], ALL_SUBRESOURCES, last.desc.initialState);
      WithinDisabledTransitive(t, k, before, before.Require(last, exts[last], ALL_SUBRESOURCES, last.desc.initialState));
    }
  }

  // The event neither sets the UAV barriers of `t` nor ends the list.
  predicate Leaves(e: Event, t: Texture) {
    !e.SubmitEvent? && !(e.SetUavEvent? && e.texture == t)
  }

  lemma StepWithin(w: World, e: Event, t: Texture)
    requires Typed(w) && Concerns(w, e) && Leaves(e, t)
    requires t in w.tracking.states && !w.tracking.states[t].enableUavBarriers
    ensures t in Step(w, e).tracking.states
    ensures Budget(w.tracking.states[t], Step(w, e).tracking.states[t], SelfBarriersOf(t, Emitted(w, e)))
  {
    match e
    case RequireEvent(other, subresources, state) => RequireWithin(t, w.tracking, other, w.exts[other], subresources, state);
    case PermanentEvent(other, subresources, state) => PermanentWithin(t, w.tracking, other, w.exts[other], subresources, state);
    case CloseEvent(order) => KeepInitialsWithin(t, w.tracking, order, w.exts);
    case _ =>
  }

  lemma PermanentWithin(t: Texture, k: Tracking, other: Texture, ext: TextureExt, subresources: TextureSubresourceSet, state: States)
    requires k.Valid() && t in k.states && !k.states[t].enableUavBarriers
    ensures WithinDisabled(t, k, k.SetPermanent(other, ext, subresources, state))
  {
    var resolved := subresources.Resolve(other.desc, false);
    if resolved.IsEntireTexture(other.desc) {
      RequireWithin(t, k, other, ext, resolved, state);
    } else {
      RequireWithin(t, k.Report(PartialPermanentTransition(other)), other, ext, resolved, state);
    }
  }

  // Any events about known textures, whether the application may cause them or not.
  ghost predicate CanHappen(w: World, events: seq<Event>)
    decreases |events|
  {
    events != [] ==> Typed(w) && Concerns(w, events[0]) && CanHappen(Step(w, events[0]), events[1..])
  }

  // The self-barriers of `t` that the events emit.
  function EmittedBy(w: World, events: seq<Event>, t: Texture): nat
    requires CanHappen(w, events)
    decreases |events|
  {
    if events == [] then 0
    else SelfBarriersOf(t, Emitted(w, events[0])) + EmittedBy(Step(w, events[0]), events[1..], t)
  }

  lemma {:induction false} DisabledRunBudget(w: World, events: seq<Event>, t: Texture)
    requires CanHappen(w, events) && t in w.tracking.states && !w.tracking.states[t].enableUavBarriers
    requires forall j :: 0 <= j < |events| ==> Leaves(events[j], t)
    ensures EmittedBy(w, events, t) <= if w.tracking.states[t].firstUavBarrierPlaced then 0 else 1
    decreases |events|
  {
    if events != [] {
      StepWithin(w, events[0], t);
      DisabledRunBudget(Step(w, events[0]), events[1..], t);
    }
  }

  // Right after UAV barriers were set for a texture, either way, unordered access to
  // something that is in that state already places a self-barrier.
  lemma FirstAfterSetting(w: World, t: Texture, enabled: bool, subresources: TextureSubresourceSet, state: States)
    requires Typed(w) && t in w.exts && w.exts[t].permanentState == UNKNOWN && UnorderedAccess in state
    requires IsAlreadyIn(t, w.tracking.Lookup(t, w.exts[t]), subresources, state)
    ensures var ready := Step(w, SetUavEvent(t, enabled));
            Typed(ready) && SelfBarriersOf(t, Emitted(ready, RequireEvent(t, subresources, state))) == 1
  {
    var ready := Step(w, SetUavEvent(t, enabled));
    var u := RequireState(t, ready.tracking.states[t], subresources, state);
    SelfBarrierIff(t, ready.tracking.states[t], subresources, state);
    RequireStateOwn(t, ready.tracking.states[t], subresources, state);
    SelfBarriersOfOne(t, t, u.barriers);
    assert Emitted(ready, RequireEvent(t, subresources, state)) == u.barriers;
  }

  // After UAV barriers were disabled for a texture, and until they are set again or the
  // list is submitted, at most one self-barrier of it is emitted, whatever else happens.
  lemma DisabledUavBudget(w: World, events: seq<Event>, t: Texture)
    requires Typed(w) && t in w.exts && CanHappen(Step(w, SetUavEvent(t, false)), events)
    requires forall j :: 0 <= j < |events| ==> Leaves(events[j], t)
    ensures EmittedBy(Step(w, SetUavEvent(t, false)), events, t) <= 1
  {
    DisabledRunBudget(Step(w, SetUavEvent(t, false)), events, t);
  }

  // ---------- Buffers ----------

  // The self-barriers of a buffer that a requirement adds: it adds at most one barrier, the last.
  function Placed(before: BufferStates.BufferTracking, after: BufferStates.BufferTracking, buffer: Buffer): nat {
    if |before.pending| < |after.pending| then
      var last := after.pending[|after.pending| - 1];
      if last.buffer == buffer && last.stateBefore == last.stateAfter then 1 else 0
    else 0
  }

  // Exactly when a requirement places a self-barrier.
  lemma BufferSelfBarrierIff(k: BufferStates.BufferTracking, buffer: Buffer, permanentState: States, state: States)
    ensures Placed(k, BufferStates.Require(k, buffer, permanentState, state), buffer)
            == if BufferStates.IsTrackable(buffer, permanentState) && UnorderedAccess in state && k.Lookup(buffer).state == state
                  && (k.Lookup(buffer).enableUavBarriers || !k.Lookup(buffer).firstUavBarrierPlaced) then 1 else 0
  {
  }

  predicate BufferBudget(before: BufferStates.BufferState, after: BufferStates.BufferState, count: nat) {
    && !after.enableUavBarriers
    && count <= (if before.firstUavBarrierPlaced then 0 else 1)
    && (before.firstUavBarrierPlaced || count == 1 ==> after.firstUavBarrierPlaced)
  }

  lemma BufferRequireWithin(k: BufferStates.BufferTracking, other: Buffer, permanentState: States, state: States, buffer: Buffer)
    requires !k.Lookup(buffer).enableUavBarriers
    ensures var r := BufferStates.Require(k, other, permanentState, state);
            BufferBudget(k.Lookup(buffer), r.Lookup(buffer), Placed(k, r, buffer))
  {
  }

  // The self-barriers of a buffer that the returns to initial states add.
  function KeepPlaced(k: BufferStates.BufferTracking, order: seq<Buffer>, permanents: map<Buffer, States>, buffer: Buffer): nat
    requires forall b :: b in order ==> b in permanents
  {
    if order == [] then 0
    else
      var rest, last := order[..|order| - 1], order[|order| - 1];
      KeepPlaced(k, rest, permanents, buffer)
      + Placed(KeepBuffers(k, rest, permanents), KeepBuffers(k, order, permanents), buffer)
  }

  lemma {:induction false} KeepBuffersWithin(k: BufferStates.BufferTracking, order: seq<Buffer>, permanents: map<Buffer, States>, buffer: Buffer)
    requires (forall b :: b in order ==> b in permanents) && !k.Lookup(buffer).enableUavBarriers
    ensures BufferBudget(k.Lookup(buffer), KeepBuffers(k, order, permanents).Lookup(buffer), KeepPlaced(k, order, permanents, buffer))
  {
    if order != [] {
      var rest, last := order[..|order| - 1], order[|order| - 1];
      KeepBuffersWithin(k, rest, permanents, buffer);
      BufferRequireWithin(KeepBuffers(k, rest, permanents), last, permanents[last], last.desc.initialState, buffer);
    }
  }

  function BufferEmitted(w: BufferRuns.World, e: BufferRuns.Event, buffer: Buffer): nat
    requires BufferRuns.Typed(w) && BufferRuns.Concerns(w, e)
  {
    if e.CloseEvent? then KeepPlaced(w.tracking, e.order, w.permanents, buffer)
    else if e.RequireEvent? || e.PermanentEvent? then Placed(w.tracking, BufferRuns.Step(w, e).tracking, buffer)
    else 0
  }

  ghost predicate BuffersCanHappen(w: BufferRuns.World, events: seq<BufferRuns.Event>)
    decreases |events|
  {
    events != [] ==>
      BufferRuns.Typed(w) && BufferRuns.Concerns(w, events[0]) && BuffersCanHappen(BufferRuns.Step(w, events[0]), events[1..])
  }

  function BufferEmittedBy(w: BufferRuns.World, events: seq<BufferRuns.Event>, buffer: Buffer): nat
    requires BuffersCanHappen(w, events)
    decreases |events|
  {
    if events == [] then 0
    else BufferEmitted(w, events[0], buffer) + BufferEmittedBy(BufferRuns.Step(w, events[0]), events[1..], buffer)
  }

  predicate LeavesBuffer(e: BufferRuns.Event, buffer: Buffer) {
    !e.SubmitEvent? && !(e.SetUavEvent? && e.buffer == buffer)
  }

  lemma BufferStepWithin(w: BufferRuns.World, e: BufferRuns.Event, buffer: Buffer)
    requires BufferRuns.Typed(w) && BufferRuns.Concerns(w, e) && LeavesBuffer(e, buffer)
    requires !w.tracking.Lookup(buffer).enableUavBarriers
    ensures BufferBudget(w.tracking.Lookup(buffer), BufferRuns.Step(w, e).tracking.Lookup(buffer), BufferEmitted(w, e, buffer))
  {
    match e
    case RequireEvent(other, state) => BufferRequireWithin(w.tracking, other, w.permanents[other], state, buffer);
    case PermanentEvent(other, state) => BufferRequireWithin(w.tracking, other, w.permanents[other], state, buffer);
    case CloseEvent(order) => KeepBuffersWithin(w.tracking, order, w.permanents, buffer);
    case _ =>
  }

  lemma {:induction false} DisabledBufferRunBudget(w: BufferRuns.World, events: seq<BufferRuns.Event>, buffer: Buffer)
    requires BuffersCanHappen(w, events) && !w.tracking.Lookup(buffer).enableUavBarriers
    requires forall j :: 0 <= j < |events| ==> LeavesBuffer(events[j], buffer)
    ensures BufferEmittedBy(w, events, buffer) <= if w.tracking.Lookup(buffer).firstUavBarrierPlaced then 0 else 1
    decreases |events|
  {
    if events != [] {
      BufferStepWithin(w, events[0], buffer);
      DisabledBufferRunBudget(BufferRuns.Step(w, events[0]), events[1..], buffer);
    }
  }

  // The same for a buffer: after UAV barriers were disabled for it, at most one self-barrier
  // is placed until they are set again or the list is submitted, and right after they were
  // set, either way, a repeated unordered access places one.
  lemma DisabledBufferUavBudget(w: BufferRuns.World, events: seq<BufferRuns.Event>, buffer: Buffer, enabled: bool)
    requires BufferRuns.Typed(w) && buffer in w.permanents
    requires BuffersCanHappen(BufferRuns.Step(w, BufferRuns.Event.SetUavEvent(buffer, enabled)), events)
    requires forall j :: 0 <= j < |events| ==> LeavesBuffer(events[j], buffer)
    ensures var ready := BufferRuns.Step(w, BufferRuns.Event.SetUavEvent(buffer, enabled));
            && (!enabled ==> BufferEmittedBy(ready, events, buffer) <= 1)
            && (events != [] && BufferStates.IsTrackable(buffer, w.permanents[buffer]) && UnorderedAccess in w.tracking.Lookup(buffer).state
                && events[0] == BufferRuns.Event.RequireEvent(buffer, w.tracking.Lookup(buffer).state) ==>
                  BufferEmitted(ready, events[0], buffer) == 1)
  {
    var ready := BufferRuns.Step(w, BufferRuns.Event.SetUavEvent(buffer, enabled));
    if !enabled {
      DisabledBufferRunBudget(ready, events, buffer);
    }
    BufferSelfBarrierIff(ready.tracking, buffer, w.permanents[buffer], w.tracking.Lookup(buffer).state);
  }
}
