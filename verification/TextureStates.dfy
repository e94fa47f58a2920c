/**
 What the resource state tracker does to one texture (src/common/state-tracking.cpp),
 as functions on values, and what those functions mean on a device.

 The tracker keeps a texture's state either as one value or as one value per
 subresource; `Denote` is the map from subresources to states both stand for.
 A device is the same map for every texture, and `Replay` executes barriers on it,
 failing at the first one whose `stateBefore` is not the state of the device.
 */
module TextureStates {
  import opened Wrappers
  import opened Resources
  import opened ResourceStates
  import opened Subresources

  datatype TextureState = TextureState(
    subresourceStates: seq<States>,
    state: States,
    enableUavBarriers: bool,
    firstUavBarrierPlaced: bool,
    permanentTransition: bool)
  {
    predicate IsCompact() {
      subresourceStates == []
    }

    predicate ValidFor(desc: TextureDesc) {
      IsCompact() || |subresourceStates| == desc.NumSubresources()
    }
  }

  datatype TextureBarrier = TextureBarrier(
    texture: Texture,
    mipLevel: nat,
    arraySlice: nat,
    entireTexture: bool,
    stateBefore: States,
    stateAfter: States)

  // What one call changes: the tracking record, and what it appends to the pending
  // barriers and to the messages.
  datatype TextureUpdate = TextureUpdate(tracking: TextureState, barriers: seq<TextureBarrier>, messages: seq<Message>)

  function Uniform<S>(n: nat, state: S): (r: seq<S>)
    ensures |r| == n && forall i :: 0 <= i < n ==> r[i] == state
  {
    seq(n, _ => state)
  }

  function Denote(desc: TextureDesc, t: TextureState): (r: seq<States>)
    requires t.ValidFor(desc)
    ensures |r| == desc.NumSubresources()
  {
    if t.IsCompact() then Uniform(desc.NumSubresources(), t.state) else t.subresourceStates
  }

  // The plain map update that asking for a range means.
  function Overwrite(desc: TextureDesc, states: seq<States>, subresources: TextureSubresourceSet, state: States): (r: seq<States>)
    requires |states| == desc.NumSubresources()
    ensures |r| == |states|
    ensures forall i :: 0 <= i < |r| ==> r[i] == if Covers(desc, subresources, i) then state else states[i]
  {
    seq(|states|, i requires 0 <= i < |states| => if Covers(desc, subresources, i) then state else states[i])
  }

  // getTextureStateTracking: the record created for a texture that is not tracked yet.
  function StartState(desc: TextureDesc, stateInitialized: bool): States {
    if desc.keepInitialState then (if stateInitialized then desc.initialState else COMMON) else UNKNOWN
  }

  function NewTracking(desc: TextureDesc, stateInitialized: bool): TextureState {
    TextureState([], StartState(desc, stateInitialized), true, false, false)
  }

  function BeginTracking(desc: TextureDesc, t: TextureState, subresources: TextureSubresourceSet, state: States): TextureState
    requires t.ValidFor(desc)
  {
    if subresources.Resolve(desc, false).IsEntireTexture(desc) then
      t.(state := state, subresourceStates := [])
    else
      t.(state := UNKNOWN, subresourceStates := Overwrite(desc, Denote(desc, t), subresources, state))
  }

  predicate UavNecessary(state: States, enabled: bool, firstPlaced: bool) {
    HasUav(state) && (enabled || !firstPlaced)
  }

  datatype Request = Request(texture: Texture, state: States, enableUavBarriers: bool, stateExpanded: bool)

  // The variables of the loops over individual subresources.
  datatype Walk = Walk(
    states: seq<States>,
    firstUavBarrierPlaced: bool,
    anyUavBarrier: bool,
    barriers: seq<TextureBarrier>,
    messages: seq<Message>)

  function Visit(q: Request, w: Walk, cell: Cell): Walk
    requires cell.Index(q.texture.desc) < |w.states|
  {
    var index := cell.Index(q.texture.desc);
    var prior := w.states[index];
    var transition := prior != q.state;
    var uav := !w.anyUavBarrier && UavNecessary(q.state, q.enableUavBarriers, w.firstUavBarrierPlaced);
    Walk(
      w.states[index := q.state],
      w.firstUavBarrierPlaced || (uav && !transition),
      w.anyUavBarrier || (uav && !transition),
      w.barriers + (if transition || uav then
                      [TextureBarrier(q.texture, cell.mipLevel, cell.arraySlice, false, prior, q.state)] else []),
      w.messages + (if prior == UNKNOWN && !q.stateExpanded then
                      [UnknownSubresourceState(q.texture, cell.mipLevel, cell.arraySlice)] else []))
  }

  predicate InTexture(texture: Texture, cells: seq<Cell>) {
    forall cell :: cell in cells ==> cell.Index(texture.desc) < texture.desc.NumSubresources()
  }

  function VisitAll(q: Request, w: Walk, cells: seq<Cell>): (r: Walk)
    requires |w.states| == q.texture.desc.NumSubresources() && InTexture(q.texture, cells)
    ensures |r.states| == |w.states|
    decreases cells
  {
    if cells == [] then w else VisitAll(q, Visit(q, w, cells[0]), cells[1..])
  }

  lemma CellsInTexture(texture: Texture, subresources: TextureSubresourceSet)
    ensures InTexture(texture, Cells(BoundsOf(texture.desc, subresources)))
  {
    var box := BoundsOf(texture.desc, subresources);
    BoundsInTexture(texture.desc, subresources);
    forall cell | cell in Cells(box)
      ensures cell.Index(texture.desc) < texture.desc.NumSubresources()
    {
      CellsMember(box, cell);
      IndexInRange(texture.desc, cell);
    }
  }

  function WalkOver(texture: Texture, t: TextureState, subresources: TextureSubresourceSet, state: States): (w: Walk)
    requires t.ValidFor(texture.desc)
    ensures |w.states| == texture.desc.NumSubresources()
  {
    CellsInTexture(texture, subresources);
    VisitAll(Request(texture, state, t.enableUavBarriers, t.IsCompact()),
             Walk(Denote(texture.desc, t), t.firstUavBarrierPlaced, false, [], []),
             Cells(BoundsOf(texture.desc, subresources)))
  }

  // The texture is required, and tracked, as a whole.
  function RequireEntire(texture: Texture, t: TextureState, state: States): TextureUpdate {
    var transition := t.state != state;
    var uav := UavNecessary(state, t.enableUavBarriers, t.firstUavBarrierPlaced);
    TextureUpdate(
      t.(state := state, firstUavBarrierPlaced := t.firstUavBarrierPlaced || (uav && !transition)),
      if transition || uav then [TextureBarrier(texture, 0, 0, true, t.state, state)] else [],
      [])
  }

  function RequirePartial(texture: Texture, t: TextureState, subresources: TextureSubresourceSet, state: States): TextureUpdate
    requires t.ValidFor(texture.desc)
  {
    var w := WalkOver(texture, t, subresources, state);
    TextureUpdate(
      t.(subresourceStates := w.states,
         state := if t.IsCompact() then UNKNOWN else t.state,
         firstUavBarrierPlaced := w.firstUavBarrierPlaced),
      w.barriers,
      w.messages)
  }

  function UnknownBefore(texture: Texture, t: TextureState): seq<Message> {
    if t.IsCompact() && t.state == UNKNOWN then [UnknownTextureState(texture)] else []
  }

  // requireTextureState, for a texture without a permanent state.
  function RequireState(texture: Texture, t: TextureState, subresources: TextureSubresourceSet, state: States): (u: TextureUpdate)
    requires t.ValidFor(texture.desc)
    ensures u.tracking.ValidFor(texture.desc)
  {
    var u := if t.IsCompact() && subresources.Resolve(texture.desc, false).IsEntireTexture(texture.desc)
             then RequireEntire(texture, t, state)
             else RequirePartial(texture, t, subresources, state);
    u.(messages := UnknownBefore(texture, t) + u.messages)
  }

  // getTextureSubresourceState; `tracked` is None for a texture without a record.
  function SubresourceState(desc: TextureDesc, stateInitialized: bool, tracked: Option<TextureState>, arraySlice: nat, mipLevel: nat): States
    requires tracked.Some? ==> tracked.value.ValidFor(desc)
    requires mipLevel < desc.mipLevels && arraySlice < desc.arraySize
  {
    match tracked
    case None => StartState(desc, stateInitialized)
    case Some(t) =>
      IndexInRange(desc, Cell(arraySlice, mipLevel));
      if t.IsCompact() then t.state else t.subresourceStates[CalcSubresource(mipLevel, arraySlice, desc)]
  }

  // ---------- The device ----------

  type Device = map<Texture, seq<States>>

  function Apply(device: Device, b: TextureBarrier): Option<Device> {
    if b.texture !in device then None
    else
      var states := device[b.texture];
      var index := CalcSubresource(b.mipLevel, b.arraySlice, b.texture.desc);
      if b.entireTexture then
        if forall i :: 0 <= i < |states| ==> states[i] == b.stateBefore then
          Some(device[b.texture := Uniform(|states|, b.stateAfter)])
        else None
      else if index < |states| && states[index] == b.stateBefore then
        Some(device[b.texture := states[index := b.stateAfter]])
      else None
  }

  function Replay(device: Device, barriers: seq<TextureBarrier>): Option<Device> {
    if barriers == [] then Some(device)
    else
      var before := Replay(device, barriers[..|barriers| - 1]);
      if before.None? then None else Apply(before.value, barriers[|barriers| - 1])
  }

  // The barrier concerns subresource i.
  predicate BarrierTouches(b: TextureBarrier, t: Texture, i: nat) {
    b.texture == t && (b.entireTexture || i == CalcSubresource(b.mipLevel, b.arraySlice, t.desc))
  }

  predicate Touches(barriers: seq<TextureBarrier>, t: Texture, i: nat) {
    exists b :: b in barriers && BarrierTouches(b, t, i)
  }

  lemma ReplayPush(device: Device, barriers: seq<TextureBarrier>, b: TextureBarrier)
    requires Replay(device, barriers).Some?
    ensures Replay(device, barriers + [b]) == Apply(Replay(device, barriers).value, b)
  {
  }

  lemma {:induction false} ReplayConcat(device: Device, a: seq<TextureBarrier>, b: seq<TextureBarrier>)
    requires Replay(device, a).Some?
    ensures Replay(device, a + b) == Replay(Replay(device, a).value, b)
  {
    if b == [] {
      assert a + b == a;
    } else {
      var rest := b[..|b| - 1];
      ReplayConcat(device, a, rest);
      assert (a + b)[..|a + b| - 1] == a + rest;
    }
  }

  // The effect of visiting cells one after the other on a map of states.
  function Paint(desc: TextureDesc, states: seq<States>, cells: seq<Cell>, state: States): (r: seq<States>)
    requires forall cell :: cell in cells ==> cell.Index(desc) < |states|
    ensures |r| == |states|
    decreases cells
  {
    if cells == [] then states
    else Paint(desc, states[cells[0].Index(desc) := state], cells[1..], state)
  }

  lemma {:induction false} PaintAt(desc: TextureDesc, states: seq<States>, cells: seq<Cell>, state: States, i: nat)
    requires forall cell :: cell in cells ==> cell.Index(desc) < |states|
    requires i < |states|
    ensures Paint(desc, states, cells, state)[i]
         == if exists cell :: cell in cells && cell.Index(desc) == i then state else states[i]
    decreases cells
  {
    if cells != [] {
      assert forall cell :: cell in cells <==> cell == cells[0] || cell in cells[1..];
      PaintAt(desc, states[cells[0].Index(desc) := state], cells[1..], state, i);
    }
  }

  // The nested loops perform the plain map update.
  lemma PaintIsOverwrite(texture: Texture, states: seq<States>, subresources: TextureSubresourceSet, state: States)
    requires |states| == texture.desc.NumSubresources()
    requires InTexture(texture, Cells(BoundsOf(texture.desc, subresources)))
    ensures Paint(texture.desc, states, Cells(BoundsOf(texture.desc, subresources)), state)
         == Overwrite(texture.desc, states, subresources, state)
  {
    var cells := Cells(BoundsOf(texture.desc, subresources));
    forall i | 0 <= i < |states|
      ensures Paint(texture.desc, states, cells, state)[i] == Overwrite(texture.desc, states, subresources, state)[i]
    {
      PaintAt(texture.desc, states, cells, state, i);
      CoversIffVisited(texture.desc, subresources, i);
    }
  }

  lemma {:induction false} VisitAllPaints(q: Request, w: Walk, cells: seq<Cell>)
    requires |w.states| == q.texture.desc.NumSubresources() && InTexture(q.texture, cells)
    ensures VisitAll(q, w, cells).states == Paint(q.texture.desc, w.states, cells, q.state)
    decreases cells
  {
    if cells != [] {
      VisitAllPaints(q, Visit(q, w, cells[0]), cells[1..]);
    }
  }

  // One visited cell: the device agrees with the tracker on it, so the barrier fits.
  lemma VisitReplays(device: Device, now: Device, q: Request, w: Walk, cell: Cell)
    requires |w.states| == q.texture.desc.NumSubresources() && cell.Index(q.texture.desc) < |w.states|
    requires Replay(device, w.barriers) == Some(now)
    requires q.texture in now && |now[q.texture]| == |w.states|
    requires now[q.texture][cell.Index(q.texture.desc)] == w.states[cell.Index(q.texture.desc)]
    ensures Replay(device, Visit(q, w, cell).barriers)
         == Some(now[q.texture := now[q.texture][cell.Index(q.texture.desc) := q.state]])
  {
    var index := cell.Index(q.texture.desc);
    var barrier := TextureBarrier(q.texture, cell.mipLevel, cell.arraySlice, false, w.states[index], q.state);
    var v := Visit(q, w, cell);
    if |v.barriers| == |w.barriers| {
      assert v.barriers == w.barriers && now[q.texture][index := q.state] == now[q.texture];
      assert now[q.texture := now[q.texture]] == now;
    } else {
      assert v.barriers == w.barriers + [barrier];
      ReplayPush(device, w.barriers, barrier);
    }
  }

  lemma {:induction false} VisitAllReplays(device: Device, now: Device, q: Request, w: Walk, cells: seq<Cell>)
    requires |w.states| == q.texture.desc.NumSubresources() && InTexture(q.texture, cells)
    requires Replay(device, w.barriers) == Some(now)
    requires q.texture in now && |now[q.texture]| == |w.states|
    requires forall cell :: cell in cells ==>
               now[q.texture][cell.Index(q.texture.desc)] == w.states[cell.Index(q.texture.desc)]
    ensures Replay(device, VisitAll(q, w, cells).barriers)
         == Some(now[q.texture := Paint(q.texture.desc, now[q.texture], cells, q.state)])
    decreases cells
  {
    if cells == [] {
      assert now[q.texture := now[q.texture]] == now;
    } else {
      VisitReplays(device, now, q, w, cells[0]);
      var next := now[q.texture := now[q.texture][cells[0].Index(q.texture.desc) := q.state]];
      VisitAllReplays(device, next, q, Visit(q, w, cells[0]), cells[1..]);
      assert next[q.texture := Paint(q.texture.desc, next[q.texture], cells[1..], q.state)]
          == now[q.texture := Paint(q.texture.desc, now[q.texture], cells, q.state)];
    }
  }

  // Both representations mean one map, and requiring a state is the plain map update
  // on it, for every range, resolved or not, wrapping or not.
  lemma RequireMeans(texture: Texture, t: TextureState, subresources: TextureSubresourceSet, state: States)
    requires t.ValidFor(texture.desc)
    ensures Denote(texture.desc, RequireState(texture, t, subresources, state).tracking)
         == Overwrite(texture.desc, Denote(texture.desc, t), subresources, state)
  {
    var desc := texture.desc;
    if t.IsCompact() && subresources.Resolve(desc, false).IsEntireTexture(desc) {
      EntireTextureIff(desc, subresources);
    } else {
      CellsInTexture(texture, subresources);
      VisitAllPaints(Request(texture, state, t.enableUavBarriers, t.IsCompact()),
                     Walk(Denote(desc, t), t.firstUavBarrierPlaced, false, [], []),
                     Cells(BoundsOf(desc, subresources)));
      PaintIsOverwrite(texture, Denote(desc, t), subresources, state);
    }
  }

  // The barriers of one call fit every device that agrees with the tracker on the
  // required range, and take it to the same map update.
  lemma RequireReplays(device: Device, texture: Texture, t: TextureState, subresources: TextureSubresourceSet, state: States)
    requires t.ValidFor(texture.desc)
    requires texture in device && |device[texture]| == texture.desc.NumSubresources()
    requires forall i :: 0 <= i < |device[texture]| && Covers(texture.desc, subresources, i) ==>
               device[texture][i] == Denote(texture.desc, t)[i]
    ensures Replay(device, RequireState(texture, t, subresources, state).barriers)
         == Some(device[texture := Overwrite(texture.desc, device[texture], subresources, state)])
  {
    var desc := texture.desc;
    var u := RequireState(texture, t, subresources, state);
    if t.IsCompact() && subresources.Resolve(desc, false).IsEntireTexture(desc) {
      EntireTextureIff(desc, subresources);
      assert Overwrite(desc, device[texture], subresources, state) == Uniform(|device[texture]|, state);
      if u.barriers == [] {
        assert device[texture] == Uniform(|device[texture]|, state);
        assert device[texture := device[texture]] == device;
      } else {
        ReplayPush(device, [], u.barriers[0]);
        assert [] + [u.barriers[0]] == u.barriers;
      }
    } else {
      var cells := Cells(BoundsOf(desc, subresources));
      CellsInTexture(texture, subresources);
      forall cell | cell in cells
        ensures device[texture][cell.Index(desc)] == Denote(desc, t)[cell.Index(desc)]
      {
        CoversIffVisited(desc, subresources, cell.Index(desc));
      }
      VisitAllReplays(device, device, Request(texture, state, t.enableUavBarriers, t.IsCompact()),
                      Walk(Denote(desc, t), t.firstUavBarrierPlaced, false, [], []), cells);
      PaintIsOverwrite(texture, device[texture], subresources, state);
    }
  }

  // Reading a texture that is not tracked agrees with tracking it first, and reading
  // either representation reads the map it stands for.
  lemma ReadMeans(desc: TextureDesc, stateInitialized: bool, tracked: Option<TextureState>, arraySlice: nat, mipLevel: nat)
    requires tracked.Some? ==> tracked.value.ValidFor(desc)
    requires mipLevel < desc.mipLevels && arraySlice < desc.arraySize
    ensures CalcSubresource(mipLevel, arraySlice, desc) < desc.NumSubresources()
    ensures SubresourceState(desc, stateInitialized, tracked, arraySlice, mipLevel)
         == Denote(desc, if tracked.Some? then tracked.value else NewTracking(desc, stateInitialized))
              [CalcSubresource(mipLevel, arraySlice, desc)]
  {
    IndexInRange(desc, Cell(arraySlice, mipLevel));
  }

  lemma BeginTrackingMeans(desc: TextureDesc, t: TextureState, subresources: TextureSubresourceSet, state: States)
    requires t.ValidFor(desc)
    ensures BeginTracking(desc, t, subresources, state).ValidFor(desc)
    ensures Denote(desc, BeginTracking(desc, t, subresources, state))
         == Overwrite(desc, Denote(desc, t), subresources, state)
  {
    EntireTextureIff(desc, subresources);
  }

  // ---------- Errors ----------

  lemma {:induction false} VisitAllMessages(q: Request, w: Walk, cells: seq<Cell>)
    requires |w.states| == q.texture.desc.NumSubresources() && InTexture(q.texture, cells)
    requires Distinct(q.texture.desc, cells)
    ensures VisitAll(q, w, cells).messages == w.messages
       <==> q.stateExpanded || forall cell :: cell in cells ==> w.states[cell.Index(q.texture.desc)] != UNKNOWN
    ensures |w.messages| <= |VisitAll(q, w, cells).messages|
    decreases cells
  {
    if cells != [] {
      var v := Visit(q, w, cells[0]);
      assert Distinct(q.texture.desc, cells[1..]);
      VisitAllMessages(q, v, cells[1..]);
      assert forall cell :: cell in cells[1..] ==> v.states[cell.Index(q.texture.desc)] == w.states[cell.Index(q.texture.desc)];
    }
  }

  // An unknown prior state is reported exactly when the whole texture is tracked as
  // Unknown (even for an empty range), or the range holds an Unknown subresource.
  lemma RequireReportsIff(texture: Texture, t: TextureState, subresources: TextureSubresourceSet, state: States)
    requires t.ValidFor(texture.desc)
    ensures RequireState(texture, t, subresources, state).messages != []
       <==> || (t.IsCompact() && t.state == UNKNOWN)
            || exists i :: && 0 <= i < texture.desc.NumSubresources()
                           && Covers(texture.desc, subresources, i)
                           && Denote(texture.desc, t)[i] == UNKNOWN
  {
    var desc := texture.desc;
    var cells := Cells(BoundsOf(desc, subresources));
    CellsInTexture(texture, subresources);
    BoundsInTexture(desc, subresources);
    CellsFromDistinct(desc, BoundsOf(desc, subresources), BoundsOf(desc, subresources).firstSlice, BoundsOf(desc, subresources).firstMip);
    VisitAllMessages(Request(texture, state, t.enableUavBarriers, t.IsCompact()),
                     Walk(Denote(desc, t), t.firstUavBarrierPlaced, false, [], []), cells);
    if !t.IsCompact() {
      forall i | 0 <= i < desc.NumSubresources()
        ensures Covers(desc, subresources, i) <==> exists cell :: cell in cells && cell.Index(desc) == i
      {
        CoversIffVisited(desc, subresources, i);
      }
    }
  }

  // ---------- The UAV barrier budget ----------

  predicate IsSelfBarrier(b: TextureBarrier) {
    b.stateBefore == b.stateAfter
  }

  function SelfBarriers(barriers: seq<TextureBarrier>): nat {
    if barriers == [] then 0
    else SelfBarriers(barriers[..|barriers| - 1]) + (if IsSelfBarrier(barriers[|barriers| - 1]) then 1 else 0)
  }

  lemma SelfBarriersPush(barriers: seq<TextureBarrier>, b: TextureBarrier)
    ensures SelfBarriers(barriers + [b]) == SelfBarriers(barriers) + (if IsSelfBarrier(b) then 1 else 0)
  {
  }

  // A barrier from a state to itself is there only to order unordered accesses.
  predicate OnlyUavSelfBarriers(barriers: seq<TextureBarrier>) {
    forall b :: b in barriers && IsSelfBarrier(b) ==> HasUav(b.stateAfter)
  }

  // The self-barriers a walk has placed: one in all, and none once the budget is spent.
  predicate WalkBudget(q: Request, first: bool, w: Walk) {
    && OnlyUavSelfBarriers(w.barriers)
    && SelfBarriers(w.barriers) == (if w.anyUavBarrier then 1 else 0)
    && (first || w.anyUavBarrier ==> w.firstUavBarrierPlaced)
    && (!q.enableUavBarriers && first ==> !w.anyUavBarrier)
    && (w.firstUavBarrierPlaced ==> first || w.anyUavBarrier)
  }

  lemma VisitBudget(q: Request, first: bool, w: Walk, cell: Cell)
    requires cell.Index(q.texture.desc) < |w.states| && WalkBudget(q, first, w)
    ensures WalkBudget(q, first, Visit(q, w, cell))
    ensures |w.barriers| <= |Visit(q, w, cell).barriers|
    ensures HasUav(q.state) && q.enableUavBarriers && w.barriers == [] ==> Visit(q, w, cell).barriers != []
  {
    var v := Visit(q, w, cell);
    if |w.barriers| < |v.barriers| {
      var b := v.barriers[|w.barriers|];
      assert v.barriers == w.barriers + [b];
      SelfBarriersPush(w.barriers, b);
    } else {
      assert v.barriers == w.barriers;
    }
  }

  lemma {:induction false} VisitAllBudget(q: Request, first: bool, w: Walk, cells: seq<Cell>)
    requires |w.states| == q.texture.desc.NumSubresources() && InTexture(q.texture, cells)
    requires WalkBudget(q, first, w)
    ensures WalkBudget(q, first, VisitAll(q, w, cells))
    ensures |w.barriers| <= |VisitAll(q, w, cells).barriers|
    ensures cells != [] && HasUav(q.state) && q.enableUavBarriers && w.barriers == [] ==> VisitAll(q, w, cells).barriers != []
    decreases cells
  {
    if cells != [] {
      VisitBudget(q, first, w, cells[0]);
      VisitAllBudget(q, first, Visit(q, w, cells[0]), cells[1..]);
    }
  }

  // One call places at most one self-barrier; with UAV barriers disabled it places one
  // only if none was placed since they were disabled, and records that it did. With
  // them enabled, unordered access to a non-empty range always gets a barrier.
  ghost predicate WithinBudget(t: TextureState, u: TextureUpdate, uavOnSomething: bool) {
    && OnlyUavSelfBarriers(u.barriers)
    && SelfBarriers(u.barriers) <= 1
    && u.tracking.enableUavBarriers == t.enableUavBarriers
    && (t.firstUavBarrierPlaced || SelfBarriers(u.barriers) == 1 ==> u.tracking.firstUavBarrierPlaced)
    && (!t.enableUavBarriers && t.firstUavBarrierPlaced ==> SelfBarriers(u.barriers) == 0)
    && (t.enableUavBarriers && uavOnSomething ==> u.barriers != [])
  }

  lemma RequireEntireBudget(texture: Texture, t: TextureState, state: States)
    ensures WithinBudget(t, RequireEntire(texture, t, state), HasUav(state))
  {
  }

  lemma RequirePartialBudget(texture: Texture, t: TextureState, subresources: TextureSubresourceSet, state: States)
    requires t.ValidFor(texture.desc)
    ensures WithinBudget(t, RequirePartial(texture, t, subresources, state),
                         HasUav(state) && Cells(BoundsOf(texture.desc, subresources)) != [])
  {
    var w := Walk(Denote(texture.desc, t), t.firstUavBarrierPlaced, false, [], []);
    CellsInTexture(texture, subresources);
    VisitAllBudget(Request(texture, state, t.enableUavBarriers, t.IsCompact()), t.firstUavBarrierPlaced, w,
                   Cells(BoundsOf(texture.desc, subresources)));
  }

  lemma RequireBudget(texture: Texture, t: TextureState, subresources: TextureSubresourceSet, state: States)
    requires t.ValidFor(texture.desc)
    ensures WithinBudget(t, RequireState(texture, t, subresources, state),
                         HasUav(state) && Cells(BoundsOf(texture.desc, subresources)) != [])
  {
    RequireEntireBudget(texture, t, state);
    RequirePartialBudget(texture, t, subresources, state);
  }

  // Some cell is in the requested state already.
  predicate Finds(q: Request, states: seq<States>, cells: seq<Cell>) {
    exists cell :: cell in cells && cell.Index(q.texture.desc) < |states| && states[cell.Index(q.texture.desc)] == q.state
  }

  lemma {:induction false} VisitAllSelf(q: Request, w: Walk, cells: seq<Cell>)
    requires |w.states| == q.texture.desc.NumSubresources() && InTexture(q.texture, cells) && Distinct(q.texture.desc, cells)
    ensures SelfBarriers(VisitAll(q, w, cells).barriers)
         == SelfBarriers(w.barriers)
            + if !w.anyUavBarrier && HasUav(q.state) && (q.enableUavBarriers || !w.firstUavBarrierPlaced) && Finds(q, w.states, cells)
              then 1 else 0
    decreases cells
  {
    if cells != [] {
      var v := Visit(q, w, cells[0]);
      assert Distinct(q.texture.desc, cells[1..]);
      VisitAllSelf(q, v, cells[1..]);
      FindsFirst(q, w, cells);
      if |w.barriers| < |v.barriers| {
        SelfBarriersPush(w.barriers, v.barriers[|w.barriers|]);
        assert v.barriers == w.barriers + [v.barriers[|w.barriers|]];
      } else {
        assert v.barriers == w.barriers;
      }
    }
  }

  lemma FindsFirst(q: Request, w: Walk, cells: seq<Cell>)
    requires |w.states| == q.texture.desc.NumSubresources() && InTexture(q.texture, cells) && Distinct(q.texture.desc, cells) && cells != []
    ensures Finds(q, w.states, cells)
            <==> w.states[cells[0].Index(q.texture.desc)] == q.state || Finds(q, Visit(q, w, cells[0]).states, cells[1..])
  {
    var after := Visit(q, w, cells[0]).states;
    assert forall cell :: cell in cells <==> cell == cells[0] || cell in cells[1..];
    assert forall cell :: cell in cells[1..] ==> after[cell.Index(q.texture.desc)] == w.states[cell.Index(q.texture.desc)];
  }

  // The required range holds a subresource that is in the required state already.
  ghost predicate IsAlreadyIn(texture: Texture, t: TextureState, subresources: TextureSubresourceSet, state: States)
    requires t.ValidFor(texture.desc)
  {
    exists i :: 0 <= i < texture.desc.NumSubresources() && Covers(texture.desc, subresources, i) && Denote(texture.desc, t)[i] == state
  }

  lemma FindsIffAlreadyIn(texture: Texture, t: TextureState, subresources: TextureSubresourceSet, q: Request)
    requires t.ValidFor(texture.desc) && q.texture == texture
    ensures Finds(q, Denote(texture.desc, t), Cells(BoundsOf(texture.desc, subresources)))
            <==> IsAlreadyIn(texture, t, subresources, q.state)
  {
    var cells, states := Cells(BoundsOf(texture.desc, subresources)), Denote(texture.desc, t);
    CellsInTexture(texture, subresources);
    forall i | 0 <= i < texture.desc.NumSubresources()
      ensures Covers(texture.desc, subresources, i) <==> exists cell :: cell in cells && cell.Index(texture.desc) == i
    {
      CoversIffVisited(texture.desc, subresources, i);
    }
  }

  lemma CellsDistinct(desc: TextureDesc, subresources: TextureSubresourceSet)
    ensures Distinct(desc, Cells(BoundsOf(desc, subresources)))
  {
    var box := BoundsOf(desc, subresources);
    BoundsInTexture(desc, subresources);
    CellsFromDistinct(desc, box, box.firstSlice, box.firstMip);
  }

  lemma EntireIsAlreadyIn(texture: Texture, t: TextureState, subresources: TextureSubresourceSet, state: States)
    requires t.IsCompact() && subresources.Resolve(texture.desc, false).IsEntireTexture(texture.desc)
    ensures IsAlreadyIn(texture, t, subresources, state) <==> t.state == state
  {
    EntireTextureIff(texture.desc, subresources);
    IndexInRange(texture.desc, Cell(0, 0));
    assert Covers(texture.desc, subresources, 0);
  }

  // Exactly when a self-barrier is placed: for unordered access to something that is in
  // that state already, when UAV barriers are enabled or none was placed since they were set.
  lemma SelfBarrierIff(texture: Texture, t: TextureState, subresources: TextureSubresourceSet, state: States)
    requires t.ValidFor(texture.desc)
    ensures SelfBarriers(RequireState(texture, t, subresources, state).barriers)
            == if UnorderedAccess in state && (t.enableUavBarriers || !t.firstUavBarrierPlaced)
                  && IsAlreadyIn(texture, t, subresources, state) then 1 else 0
  {
    if t.IsCompact() && subresources.Resolve(texture.desc, false).IsEntireTexture(texture.desc) {
      EntireIsAlreadyIn(texture, t, subresources, state);
    } else {
      var q := Request(texture, state, t.enableUavBarriers, t.IsCompact());
      CellsInTexture(texture, subresources);
      CellsDistinct(texture.desc, subresources);
      FindsIffAlreadyIn(texture, t, subresources, q);
      VisitAllSelf(q, Walk(Denote(texture.desc, t), t.firstUavBarrierPlaced, false, [], []), Cells(BoundsOf(texture.desc, subresources)));
    }
  }

  lemma {:induction false} VisitAllExtends(q: Request, w: Walk, cells: seq<Cell>)
    requires |w.states| == q.texture.desc.NumSubresources() && InTexture(q.texture, cells)
    ensures w.barriers <= VisitAll(q, w, cells).barriers
    decreases cells
  {
    if cells != [] {
      VisitAllExtends(q, Visit(q, w, cells[0]), cells[1..]);
    }
  }

  // Some barrier takes subresource i to the state.
  predicate Reaches(barriers: seq<TextureBarrier>, t: Texture, i: nat, state: States) {
    exists b :: b in barriers && BarrierTouches(b, t, i) && b.stateAfter == state
  }

  lemma {:induction false} VisitAllReaches(q: Request, w: Walk, cells: seq<Cell>, cell: Cell)
    requires |w.states| == q.texture.desc.NumSubresources() && InTexture(q.texture, cells) && Distinct(q.texture.desc, cells)
    requires cell in cells && w.states[cell.Index(q.texture.desc)] != q.state
    ensures Reaches(VisitAll(q, w, cells).barriers, q.texture, cell.Index(q.texture.desc), q.state)
    decreases cells
  {
    var v := Visit(q, w, cells[0]);
    VisitAllExtends(q, v, cells[1..]);
    if cell == cells[0] {
      var b := v.barriers[|w.barriers|];
      assert b in VisitAll(q, w, cells).barriers && BarrierTouches(b, q.texture, cell.Index(q.texture.desc));
    } else {
      assert Distinct(q.texture.desc, cells[1..]) && cell in cells[1..];
      VisitAllReaches(q, v, cells[1..], cell);
    }
  }

  // A covered subresource in another state gets a barrier that takes it to the required one.
  lemma RequireReaches(texture: Texture, t: TextureState, subresources: TextureSubresourceSet, state: States, i: nat)
    requires t.ValidFor(texture.desc) && i < texture.desc.NumSubresources()
    requires Covers(texture.desc, subresources, i) && Denote(texture.desc, t)[i] != state
    ensures Reaches(RequireState(texture, t, subresources, state).barriers, texture, i, state)
  {
    if t.IsCompact() && subresources.Resolve(texture.desc, false).IsEntireTexture(texture.desc) {
      var b := TextureBarrier(texture, 0, 0, true, t.state, state);
      assert b in RequireState(texture, t, subresources, state).barriers && BarrierTouches(b, texture, i);
    } else {
      CellsInTexture(texture, subresources);
      CellsDistinct(texture.desc, subresources);
      CoversIffVisited(texture.desc, subresources, i);
      var cells := Cells(BoundsOf(texture.desc, subresources));
      var cell :| cell in cells && cell.Index(texture.desc) == i;
      VisitAllReaches(Request(texture, state, t.enableUavBarriers, t.IsCompact()),
                      Walk(Denote(texture.desc, t), t.firstUavBarrierPlaced, false, [], []), cells, cell);
    }
  }

  // The first cell that is in the requested state already.
  function FirstFound(q: Request, states: seq<States>, cells: seq<Cell>): Option<Cell>
    requires |states| == q.texture.desc.NumSubresources() && InTexture(q.texture, cells)
    decreases cells
  {
    if cells == [] then None
    else if states[cells[0].Index(q.texture.desc)] == q.state then Some(cells[0])
    else FirstFound(q, states, cells[1..])
  }

  lemma {:induction false} FirstFoundSame(q: Request, states: seq<States>, after: seq<States>, cells: seq<Cell>)
    requires |states| == |after| == q.texture.desc.NumSubresources() && InTexture(q.texture, cells)
    requires forall cell :: cell in cells ==> after[cell.Index(q.texture.desc)] == states[cell.Index(q.texture.desc)]
    ensures FirstFound(q, after, cells) == FirstFound(q, states, cells)
    decreases cells
  {
    if cells != [] {
      FirstFoundSame(q, states, after, cells[1..]);
    }
  }

  // Exactly which of the visited cells get a barrier of their own.
  lemma {:induction false} VisitAllTouchesIff(q: Request, w: Walk, cells: seq<Cell>, cell: Cell)
    requires |w.states| == q.texture.desc.NumSubresources() && InTexture(q.texture, cells) && Distinct(q.texture.desc, cells)
    requires cell in cells
    ensures Touches(VisitAll(q, w, cells).barriers, q.texture, cell.Index(q.texture.desc))
            <==> || Touches(w.barriers, q.texture, cell.Index(q.texture.desc))
                 || w.states[cell.Index(q.texture.desc)] != q.state
                 || (!w.anyUavBarrier && HasUav(q.state) && (q.enableUavBarriers || !w.firstUavBarrierPlaced)
                     && FirstFound(q, w.states, cells) == Some(cell))
    decreases cells
  {
    var v, rest, i := Visit(q, w, cells[0]), cells[1..], cell.Index(q.texture.desc);
    assert Distinct(q.texture.desc, rest);
    VisitTouches(q, w, cells[0], i);
    if cell in rest {
      VisitAllTouchesIff(q, v, rest, cell);
      FirstFoundSame(q, w.states, v.states, rest);
    } else {
      VisitAllTouchesNo(q, v, rest, i);
    }
  }

  lemma VisitTouches(q: Request, w: Walk, cell: Cell, i: nat)
    requires |w.states| == q.texture.desc.NumSubresources() && cell.Index(q.texture.desc) < |w.states|
    ensures Touches(Visit(q, w, cell).barriers, q.texture, i)
            <==> Touches(w.barriers, q.texture, i) || (i == cell.Index(q.texture.desc) && Visit(q, w, cell).barriers != w.barriers)
  {
    var v := Visit(q, w, cell);
    if |w.barriers| < |v.barriers| {
      var b := v.barriers[|w.barriers|];
      assert v.barriers == w.barriers + [b] && (BarrierTouches(b, q.texture, i) <==> i == cell.Index(q.texture.desc));
    } else {
      assert v.barriers == w.barriers;
    }
  }

  lemma {:induction false} VisitAllTouchesNo(q: Request, w: Walk, cells: seq<Cell>, i: nat)
    requires |w.states| == q.texture.desc.NumSubresources() && InTexture(q.texture, cells)
    requires forall cell :: cell in cells ==> cell.Index(q.texture.desc) != i
    ensures Touches(VisitAll(q, w, cells).barriers, q.texture, i) <==> Touches(w.barriers, q.texture, i)
    decreases cells
  {
    if cells != [] {
      VisitTouches(q, w, cells[0], i);
      VisitAllTouchesNo(q, Visit(q, w, cells[0]), cells[1..], i);
    }
  }

  // Exactly which covered subresources a barrier of a call concerns: those in another state;
  // and of those in the state already, when a UAV barrier is due, all of a texture that is
  // tracked and required as a whole, and otherwise only the first.
  lemma TouchedIff(texture: Texture, t: TextureState, subresources: TextureSubresourceSet, state: States, i: nat)
    requires t.ValidFor(texture.desc) && i < texture.desc.NumSubresources() && Covers(texture.desc, subresources, i)
    ensures InTexture(texture, Cells(BoundsOf(texture.desc, subresources)))
    ensures var q := Request(texture, state, t.enableUavBarriers, t.IsCompact());
            var whole := t.IsCompact() && forall j: nat :: j < texture.desc.NumSubresources() ==> Covers(texture.desc, subresources, j);
            Touches(RequireState(texture, t, subresources, state).barriers, texture, i)
            <==> || Denote(texture.desc, t)[i] != state
                 || (UnorderedAccess in state && (t.enableUavBarriers || !t.firstUavBarrierPlaced)
                     && (whole || FirstFound(q, Denote(texture.desc, t), Cells(BoundsOf(texture.desc, subresources)))
                                  == Some(CellAt(texture.desc.mipLevels, i))))
  {
    var cells := Cells(BoundsOf(texture.desc, subresources));
    CellsInTexture(texture, subresources);
    EntireTextureIff(texture.desc, subresources);
    if t.IsCompact() && subresources.Resolve(texture.desc, false).IsEntireTexture(texture.desc) {
      var u := RequireState(texture, t, subresources, state);
      if u.barriers != [] {
        assert u.barriers[0] in u.barriers && BarrierTouches(u.barriers[0], texture, i);
      }
    } else {
      CellsDistinct(texture.desc, subresources);
      IndexOnto(texture.desc, i);
      CellsMember(BoundsOf(texture.desc, subresources), CellAt(texture.desc.mipLevels, i));
      VisitAllTouchesIff(Request(texture, state, t.enableUavBarriers, t.IsCompact()),
                         Walk(Denote(texture.desc, t), t.firstUavBarrierPlaced, false, [], []), cells, CellAt(texture.desc.mipLevels, i));
    }
  }

  // Any sequence of requests for one texture, with no setEnableUavBarriersForTexture in between.
  datatype Requirement = Requirement(subresources: TextureSubresourceSet, state: States)

  function RequireAll(texture: Texture, t: TextureState, requirements: seq<Requirement>): (u: TextureUpdate)
    requires t.ValidFor(texture.desc)
    ensures u.tracking.ValidFor(texture.desc)
  {
    if requirements == [] then TextureUpdate(t, [], [])
    else
      var before := RequireAll(texture, t, requirements[..|requirements| - 1]);
      var last := requirements[|requirements| - 1];
      var u := RequireState(texture, before.tracking, last.subresources, last.state);
      TextureUpdate(u.tracking, before.barriers + u.barriers, before.messages + u.messages)
  }

  lemma ChainStep(device: Device, barriers: seq<TextureBarrier>, texture: Texture, t: TextureState,
                  subresources: TextureSubresourceSet, state: States)
    requires t.ValidFor(texture.desc)
    requires Replay(device, barriers) == Some(device[texture := Denote(texture.desc, t)])
    ensures var u := RequireState(texture, t, subresources, state);
            Replay(device, barriers + u.barriers) == Some(device[texture := Denote(texture.desc, u.tracking)])
  {
    var now := device[texture := Denote(texture.desc, t)];
    var u := RequireState(texture, t, subresources, state);
    RequireReplays(now, texture, t, subresources, state);
    RequireMeans(texture, t, subresources, state);
    ReplayConcat(device, barriers, u.barriers);
    assert now[texture := Denote(texture.desc, u.tracking)] == device[texture := Denote(texture.desc, u.tracking)];
  }

  // The barriers of any run of requirements chain: on a device that starts in the
  // tracked state they all fit, in order, and end at the tracked state.
  lemma {:induction false} RequireAllReplays(device: Device, texture: Texture, t: TextureState, requirements: seq<Requirement>)
    requires t.ValidFor(texture.desc)
    requires texture in device && device[texture] == Denote(texture.desc, t)
    ensures var u := RequireAll(texture, t, requirements);
            Replay(device, u.barriers) == Some(device[texture := Denote(texture.desc, u.tracking)])
  {
    if requirements == [] {
      assert device[texture := device[texture]] == device;
    } else {
      var rest, last := requirements[..|requirements| - 1], requirements[|requirements| - 1];
      RequireAllReplays(device, texture, t, rest);
      var before := RequireAll(texture, t, rest);
      ChainStep(device, before.barriers, texture, before.tracking, last.subresources, last.state);
    }
  }
}
