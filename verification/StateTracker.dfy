/** CommandListResourceStateTracker (src/common/state-tracking.h, src/common/state-tracking.cpp). */
module StateTracker {
  import opened Wrappers
  import opened Resources
  import opened ResourceStates
  import opened Subresources
  import opened TextureStates
  import opened TextureTracking
  import BufferStates

  // The extension objects of a set of textures, as a value.
  function ExtsOf(textures: set<Texture>): TextureExts
    reads textures
  {
    map t | t in textures :: TextureExt(t.permanentState, t.stateInitialized)
  }

  function PermanentsOf(buffers: set<Buffer>): map<Buffer, States>
    reads buffers
  {
    map b | b in buffers :: b.permanentState
  }

  function ExtOf(t: Texture): TextureExt
    reads t
  {
    TextureExt(t.permanentState, t.stateInitialized)
  }

  // commandListSubmitted, for buffers.
  predicate ContradictsBuffer(permanent: States, state: States) {
    permanent != UNKNOWN && permanent != state
  }

  function SubmitBuffer(permanents: map<Buffer, States>, buffer: Buffer, state: States): (r: map<Buffer, States>)
    requires buffer in permanents
    ensures r.Keys == permanents.Keys
  {
    if ContradictsBuffer(permanents[buffer], state) then permanents else permanents[buffer := state]
  }

  function SubmitBufferMessage(permanents: map<Buffer, States>, buffer: Buffer, state: States): seq<Message>
    requires buffer in permanents
  {
    if ContradictsBuffer(permanents[buffer], state) then [SwitchPermanentBuffer(buffer, state)] else []
  }

  function SubmitBuffers(permanents: map<Buffer, States>, announced: seq<(Buffer, States)>): (r: map<Buffer, States>)
    requires forall p :: p in announced ==> p.0 in permanents
    ensures r.Keys == permanents.Keys
  {
    if announced == [] then permanents
    else
      var last := announced[|announced| - 1];
      SubmitBuffer(SubmitBuffers(permanents, announced[..|announced| - 1]), last.0, last.1)
  }

  function SubmitBufferMessages(permanents: map<Buffer, States>, announced: seq<(Buffer, States)>): seq<Message>
    requires forall p :: p in announced ==> p.0 in permanents
  {
    if announced == [] then []
    else
      var rest, last := announced[..|announced| - 1], announced[|announced| - 1];
      SubmitBufferMessages(permanents, rest) + SubmitBufferMessage(SubmitBuffers(permanents, rest), last.0, last.1)
  }

  // What a submission starts from: the extension objects it may write, what was announced
  // as permanent, the tracked textures and the errors reported so far.
  datatype Submission = Submission(
    exts: TextureExts, permanents: map<Buffer, States>,
    textures: Permanents, buffers: seq<(Buffer, States)>,
    tracked: set<Texture>, messages: seq<Message>)
  {
    ghost predicate Valid() {
      && (forall p :: p in textures ==> p.0 in exts)
      && (forall p :: p in buffers ==> p.0 in permanents)
    }
  }

  // Errors reported by requireBufferState.
  function RequireBufferMessages(k: BufferStates.BufferTracking, buffer: Buffer, permanentState: States, state: States): seq<Message> {
    if buffer.desc.isVolatile then []
    else if permanentState != UNKNOWN then VerifyPermanent(false, permanentState, state)
    else if buffer.desc.cpuAccess != NoAccess then []
    else if k.Lookup(buffer).state == UNKNOWN then [UnknownBufferState(buffer)]
    else []
  }

  // keepBufferInitialStates, visiting the tracked buffers in the given order.
  function KeepBuffers(k: BufferStates.BufferTracking, order: seq<Buffer>, permanents: map<Buffer, States>): BufferStates.BufferTracking
    requires forall b :: b in order ==> b in permanents
  {
    if order == [] then k
    else
      var last := order[|order| - 1];
      BufferStates.KeepInitialState(KeepBuffers(k, order[..|order| - 1], permanents), last, permanents[last])
  }

  // The errors it reports on the way.
  function KeepBufferMessages(k: BufferStates.BufferTracking, order: seq<Buffer>, permanents: map<Buffer, States>): seq<Message>
    requires forall b :: b in order ==> b in permanents
  {
    if order == [] then []
    else
      var rest, last := order[..|order| - 1], order[|order| - 1];
      KeepBufferMessages(k, rest, permanents) + KeepBufferMessage(KeepBuffers(k, rest, permanents), last, permanents[last])
  }

  function KeepBufferMessage(k: BufferStates.BufferTracking, buffer: Buffer, permanentState: States): seq<Message> {
    if buffer.desc.keepInitialState && permanentState == UNKNOWN && !buffer.desc.isVolatile && !k.Lookup(buffer).permanentTransition
    then RequireBufferMessages(k, buffer, permanentState, buffer.desc.initialState)
    else []
  }

  // A cell of the box that precedes (mipLevel, arraySlice) in mip-major order.
  predicate AssignedBefore(box: Box, cell: Cell, mipLevel: nat, arraySlice: nat) {
    box.Contains(cell) && (cell.mipLevel < mipLevel || (cell.mipLevel == mipLevel && cell.arraySlice < arraySlice))
  }

  ghost predicate AssignedUpTo(desc: TextureDesc, box: Box, start: seq<States>, states: seq<States>, state: States,
                               mipLevel: nat, arraySlice: nat)
  {
    && |states| == |start| == desc.NumSubresources()
    && forall i :: 0 <= i < |states| ==>
         states[i] == if AssignedBefore(box, CellAt(desc.mipLevels, i), mipLevel, arraySlice) then state else start[i]
  }

  lemma AssignOne(desc: TextureDesc, box: Box, start: seq<States>, states: seq<States>, state: States, mipLevel: nat, arraySlice: nat)
    requires AssignedUpTo(desc, box, start, states, state, mipLevel, arraySlice)
    requires box.endMip <= desc.mipLevels && box.endSlice <= desc.arraySize
    requires box.Contains(Cell(arraySlice, mipLevel))
    ensures CalcSubresource(mipLevel, arraySlice, desc) < |states|
    ensures AssignedUpTo(desc, box, start, states[CalcSubresource(mipLevel, arraySlice, desc) := state], state, mipLevel, arraySlice + 1)
  {
    var cell := Cell(arraySlice, mipLevel);
    IndexInRange(desc, cell);
    forall i | 0 <= i < |states| && i != cell.Index(desc)
      ensures CellAt(desc.mipLevels, i) != cell
    {
      IndexOnto(desc, i);
    }
  }

  // The loops of beginTrackingTextureState, mip level by mip level.
  method AssignRange(desc: TextureDesc, tracking: TextureState, subresources: TextureSubresourceSet, stateBits: States)
    returns (states: seq<States>)
    requires tracking.ValidFor(desc)
    ensures states == Overwrite(desc, Denote(desc, tracking), subresources, stateBits)
  {
    var resolved := subresources.Resolve(desc, false);
    BoundsInTexture(desc, subresources);
    states := tracking.subresourceStates;
    if states == [] {
      states := Uniform(desc.NumSubresources(), tracking.state);
    }
    states := AssignBox(desc, resolved.Bounds(), states, stateBits);
  }

  method AssignBox(desc: TextureDesc, box: Box, start: seq<States>, stateBits: States) returns (states: seq<States>)
    requires |start| == desc.NumSubresources()
    requires box.endMip <= desc.mipLevels && box.endSlice <= desc.arraySize
    ensures |states| == |start|
    ensures forall i :: 0 <= i < |states| ==>
              states[i] == if box.Contains(CellAt(desc.mipLevels, i)) then stateBits else start[i]
  {
    states := start;
    var mipLevel := box.firstMip;
    while mipLevel < box.endMip
      invariant AssignedUpTo(desc, box, start, states, stateBits, mipLevel, 0) && box.firstMip <= mipLevel
    {
      var arraySlice := box.firstSlice;
      while arraySlice < box.endSlice
        invariant AssignedUpTo(desc, box, start, states, stateBits, mipLevel, arraySlice) && box.firstSlice <= arraySlice
      {
        AssignOne(desc, box, start, states, stateBits, mipLevel, arraySlice);
        states := states[CalcSubresource(mipLevel, arraySlice, desc) := stateBits];
        arraySlice := arraySlice + 1;
      }
      mipLevel := mipLevel + 1;
    }
  }

  // The body of the loops of requireTextureState over individual subresources.
  method RequireSubresource(q: Request, w: Walk, arraySlice: nat, mipLevel: nat) returns (r: Walk)
    requires CalcSubresource(mipLevel, arraySlice, q.texture.desc) < |w.states|
    ensures r == Visit(q, w, Cell(arraySlice, mipLevel))
  {
    r := w;
    var subresourceIndex := CalcSubresource(mipLevel, arraySlice, q.texture.desc);
    var priorState := r.states[subresourceIndex];
    if priorState == UNKNOWN && !q.stateExpanded {
      r := r.(messages := r.messages + [UnknownSubresourceState(q.texture, mipLevel, arraySlice)]);
    }
    var transitionNecessary := priorState != q.state;
    var uavNecessary := HasUav(q.state) && !r.anyUavBarrier && (q.enableUavBarriers || !r.firstUavBarrierPlaced);
    if transitionNecessary || uavNecessary {
      r := r.(barriers := r.barriers + [TextureBarrier(q.texture, mipLevel, arraySlice, false, priorState, q.state)]);
    }
    r := r.(states := r.states[subresourceIndex := q.state]);
    if uavNecessary && !transitionNecessary {
      r := r.(anyUavBarrier := true, firstUavBarrierPlaced := true);
    }
  }

  predicate Fits(desc: TextureDesc, box: Box) {
    box.endMip <= desc.mipLevels && box.endSlice <= desc.arraySize
  }

  // What is left of the walk when the loops stand at (arraySlice, mipLevel).
  function VisitFrom(q: Request, w: Walk, box: Box, arraySlice: nat, mipLevel: nat): (r: Walk)
    requires |w.states| == q.texture.desc.NumSubresources() && Fits(q.texture.desc, box)
    decreases box.endSlice - arraySlice, box.endMip - mipLevel
  {
    if box.endSlice <= arraySlice || box.endMip <= box.firstMip then w
    else if box.endMip <= mipLevel then VisitFrom(q, w, box, arraySlice + 1, box.firstMip)
    else
      IndexInRange(q.texture.desc, Cell(arraySlice, mipLevel));
      VisitFrom(q, Visit(q, w, Cell(arraySlice, mipLevel)), box, arraySlice, mipLevel + 1)
  }

  lemma {:induction false} VisitFromIsVisitAll(q: Request, w: Walk, box: Box, arraySlice: nat, mipLevel: nat)
    requires |w.states| == q.texture.desc.NumSubresources() && Fits(q.texture.desc, box)
    requires InTexture(q.texture, CellsFrom(box, arraySlice, mipLevel))
    ensures VisitFrom(q, w, box, arraySlice, mipLevel) == VisitAll(q, w, CellsFrom(box, arraySlice, mipLevel))
    decreases box.endSlice - arraySlice, box.endMip - mipLevel
  {
    if box.endSlice <= arraySlice || box.endMip <= box.firstMip {
    } else if box.endMip <= mipLevel {
      VisitFromIsVisitAll(q, w, box, arraySlice + 1, box.firstMip);
    } else {
      var cell, rest := Cell(arraySlice, mipLevel), CellsFrom(box, arraySlice, mipLevel + 1);
      var cells := CellsFrom(box, arraySlice, mipLevel);
      assert cells == [cell] + rest && cells[1..] == rest;
      assert forall c :: c in rest ==> c in cells;
      VisitFromIsVisitAll(q, Visit(q, w, cell), box, arraySlice, mipLevel + 1);
    }
  }

  // The loops of requireTextureState over individual subresources, slice by slice.
  method RequireBox(q: Request, box: Box, start: Walk) returns (w: Walk)
    requires |start.states| == q.texture.desc.NumSubresources() && Fits(q.texture.desc, box)
    ensures w == VisitFrom(q, start, box, box.firstSlice, box.firstMip)
  {
    w := start;
    var arraySlice := box.firstSlice;
    while arraySlice < box.endSlice
      invariant |w.states| == |start.states|
      invariant VisitFrom(q, w, box, arraySlice, box.firstMip) == VisitFrom(q, start, box, box.firstSlice, box.firstMip)
    {
      var mipLevel := box.firstMip;
      while mipLevel < box.endMip
        invariant |w.states| == |start.states|
        invariant VisitFrom(q, w, box, arraySlice, mipLevel) == VisitFrom(q, start, box, box.firstSlice, box.firstMip)
      {
        IndexInRange(q.texture.desc, Cell(arraySlice, mipLevel));
        w := RequireSubresource(q, w, arraySlice, mipLevel);
        mipLevel := mipLevel + 1;
      }
      arraySlice := arraySlice + 1;
    }
  }

  // Transitions of individual subresources; the texture is tracked by subresource from here on.
  method RequireSubresources(texture: Texture, tracking: TextureState, subresources: TextureSubresourceSet, state: States)
    returns (u: TextureUpdate)
    requires tracking.ValidFor(texture.desc)
    ensures u == RequirePartial(texture, tracking, subresources, state)
  {
    CellsInTexture(texture, subresources);
    BoundsInTexture(texture.desc, subresources);
    var states, stateAfter, stateExpanded := tracking.subresourceStates, tracking.state, false;
    if states == [] {
      states, stateAfter := Uniform(texture.desc.NumSubresources(), tracking.state), UNKNOWN;
      stateExpanded := true;
    }
    var q := Request(texture, state, tracking.enableUavBarriers, stateExpanded);
    var start := Walk(states, tracking.firstUavBarrierPlaced, false, [], []);
    var box := subresources.Resolve(texture.desc, false).Bounds();
    VisitFromIsVisitAll(q, start, box, box.firstSlice, box.firstMip);
    var w := RequireBox(q, box, start);
    u := TextureUpdate(
      tracking.(subresourceStates := w.states, state := stateAfter, firstUavBarrierPlaced := w.firstUavBarrierPlaced),
      w.barriers, w.messages);
  }

  // The whole texture is required, and it has been tracked as a whole too.
  method RequireEntireTexture(texture: Texture, tracking: TextureState, state: States) returns (u: TextureUpdate)
    ensures u == RequireEntire(texture, tracking, state)
  {
    u := TextureUpdate(tracking, [], []);
    var transitionNecessary := tracking.state != state;
    var uavNecessary := HasUav(state) && (tracking.enableUavBarriers || !tracking.firstUavBarrierPlaced);
    if transitionNecessary || uavNecessary {
      u := u.(barriers := [TextureBarrier(texture, 0, 0, true, tracking.state, state)]);
    }
    u := u.(tracking := u.tracking.(state := state));
    if uavNecessary && !transitionNecessary {
      u := u.(tracking := u.tracking.(firstUavBarrierPlaced := true));
    }
  }

  // requireTextureState on the tracking record.
  method RequireRecord(texture: Texture, tracking: TextureState, subresources: TextureSubresourceSet, state: States)
    returns (u: TextureUpdate)
    requires tracking.ValidFor(texture.desc)
    ensures u == RequireState(texture, tracking, subresources, state)
  {
    var errors := [];
    if tracking.subresourceStates == [] && tracking.state == UNKNOWN {
      errors := [UnknownTextureState(texture)];
    }
    if subresources.Resolve(texture.desc, false).IsEntireTexture(texture.desc) && tracking.subresourceStates == [] {
      u := RequireEntireTexture(texture, tracking, state);
    } else {
      u := RequireSubresources(texture, tracking, subresources, state);
    }
    u := u.(messages := errors + u.messages);
  }

  // beginTrackingTextureState on the tracking record.
  method BeginRecord(desc: TextureDesc, record: TextureState, subresources: TextureSubresourceSet, stateBits: States)
    returns (tracking: TextureState)
    requires record.ValidFor(desc)
    ensures tracking == BeginTracking(desc, record, subresources, stateBits) && tracking.ValidFor(desc)
  {
    BeginTrackingMeans(desc, record, subresources, stateBits);
    if subresources.Resolve(desc, false).IsEntireTexture(desc) {
      tracking := record.(state := stateBits, subresourceStates := []);
    } else {
      var states := AssignRange(desc, record, subresources, stateBits);
      tracking := record.(state := UNKNOWN, subresourceStates := states);
    }
  }

  lemma {:induction false} FirstPendingIs(pending: seq<BufferStates.BufferBarrier>, buffer: Buffer, k: nat)
    requires k <= |pending|
    requires forall j :: 0 <= j < k ==> pending[j].buffer != buffer
    requires k < |pending| ==> pending[k].buffer == buffer
    ensures BufferStates.FirstPending(pending, buffer) == k
  {
    if 0 < k {
      FirstPendingIs(pending[1..], buffer, k - 1);
    }
  }

  // The search of requireBufferState for a barrier to merge with.
  method FindPending(pending: seq<BufferStates.BufferBarrier>, buffer: Buffer) returns (i: nat)
    ensures i == BufferStates.FirstPending(pending, buffer)
  {
    i := 0;
    while i < |pending| && pending[i].buffer != buffer
      invariant i <= |pending|
      invariant forall j :: 0 <= j < i ==> pending[j].buffer != buffer
    {
      i := i + 1;
    }
    FirstPendingIs(pending, buffer, i);
  }

  // requireBufferState on the buffer's record and the pending barriers.
  method RequireBufferRecord(record: BufferStates.BufferState, pending: seq<BufferStates.BufferBarrier>, buffer: Buffer, state: States)
    returns (u: BufferStates.BufferUpdate)
    ensures u == BufferStates.RequireTracked(record, pending, buffer, state)
  {
    var tracking, barriers := record, pending;
    var transitionNecessary := tracking.state != state;
    var uavNecessary := HasUav(state) && (tracking.enableUavBarriers || !tracking.firstUavBarrierPlaced);
    if transitionNecessary {
      // A buffer that is already used for another purpose in this batch combines the flags.
      var i := FindPending(barriers, buffer);
      if i < |barriers| {
        barriers := barriers[i := barriers[i].(stateAfter := barriers[i].stateAfter + state)];
        return BufferStates.BufferUpdate(tracking.(state := barriers[i].stateAfter), barriers);
      }
    }
    if transitionNecessary || uavNecessary {
      barriers := barriers + [BufferStates.BufferBarrier(buffer, tracking.state, state)];
    }
    if uavNecessary && !transitionNecessary {
      tracking := tracking.(firstUavBarrierPlaced := true);
    }
    u := BufferStates.BufferUpdate(tracking.(state := state), barriers);
  }

  // The order in which a hash map with these keys is walked: any.
  method HashOrder<T(==)>(keys: set<T>) returns (order: seq<T>)
    ensures VisitsOnce(order, keys)
  {
    order := [];
    var remaining := keys;
    while remaining != {}
      invariant remaining <= keys && VisitsOnce(order, keys - remaining)
      decreases |remaining|
    {
      var key :| key in remaining;
      order := order + [key];
      remaining := remaining - {key};
    }
  }

  lemma KeepBuffersPush(k: BufferStates.BufferTracking, order: seq<Buffer>, buffer: Buffer, permanents: map<Buffer, States>)
    requires buffer in permanents && forall b :: b in order ==> b in permanents
    ensures forall b :: b in order + [buffer] ==> b in permanents
    ensures KeepBuffers(k, order + [buffer], permanents)
            == BufferStates.KeepInitialState(KeepBuffers(k, order, permanents), buffer, permanents[buffer])
    ensures KeepBufferMessages(k, order + [buffer], permanents)
            == KeepBufferMessages(k, order, permanents) + KeepBufferMessage(KeepBuffers(k, order, permanents), buffer, permanents[buffer])
  {
    assert (order + [buffer])[..|order|] == order;
  }

  lemma KeepInitialsPush(k: Tracking, order: seq<Texture>, texture: Texture, exts: TextureExts)
    requires k.Valid() && forall t :: t in order + [texture] ==> t in k.states && t in exts
    ensures (forall t :: t in order ==> t in order + [texture]) && texture in order + [texture]
    ensures k.KeepInitials(order + [texture], exts) == k.KeepInitials(order, exts).KeepInitial(texture, exts[texture])
  {
  }

  class CommandListResourceStateTracker {
    var textureStates: map<Texture, TextureState>
    var bufferStates: map<Buffer, BufferStates.BufferState>
    // Transitions to permanent states, deferred until the list is submitted.
    var permanentTextureStates: Permanents
    var permanentBufferStates: seq<(Buffer, States)>
    var textureBarriers: seq<TextureBarrier>
    var bufferBarriers: seq<BufferStates.BufferBarrier>
    var messages: seq<Message>

    constructor ()
      ensures Textures() == EMPTY && Buffers() == BufferStates.BufferTracking(map[], []) && permanentBufferStates == []
    {
      textureStates, bufferStates := map[], map[];
      permanentTextureStates, permanentBufferStates := [], [];
      textureBarriers, bufferBarriers, messages := [], [], [];
    }

    function Textures(): Tracking
      reads this
    {
      Tracking(textureStates, textureBarriers, permanentTextureStates, messages)
    }

    function Buffers(): BufferStates.BufferTracking
      reads this
    {
      BufferStates.BufferTracking(bufferStates, bufferBarriers)
    }

    ghost predicate Valid()
      reads this
    {
      Textures().Valid()
    }

    method GetTextureStateTracking(texture: Texture) returns (tracking: TextureState)
      requires Valid()
      modifies this`textureStates
      ensures Valid()
      ensures tracking == old(Textures()).Lookup(texture, ExtOf(texture))
      ensures textureStates == old(textureStates)[texture := tracking]
    {
      if texture in textureStates {
        tracking := textureStates[texture];
      } else {
        tracking := TextureState([], UNKNOWN, true, false, false);
        if texture.desc.keepInitialState {
          tracking := tracking.(state := if texture.stateInitialized then texture.desc.initialState else COMMON);
        }
        textureStates := textureStates[texture := tracking];
      }
    }

    method GetBufferStateTracking(buffer: Buffer) returns (tracking: BufferStates.BufferState)
      modifies this`bufferStates
      ensures tracking == old(Buffers()).Lookup(buffer)
      ensures bufferStates == old(bufferStates)[buffer := tracking]
    {
      if buffer in bufferStates {
        tracking := bufferStates[buffer];
      } else {
        tracking := BufferStates.BufferState(UNKNOWN, true, false, false);
        if buffer.desc.keepInitialState {
          tracking := tracking.(state := buffer.desc.initialState);
        }
        bufferStates := bufferStates[buffer := tracking];
      }
    }

    method SetEnableUavBarriersForTexture(texture: Texture, enableBarriers: bool)
      requires Valid()
      modifies this`textureStates
      ensures Valid()
      ensures Textures() == old(Textures()).SetEnableUav(texture, ExtOf(texture), enableBarriers)
    {
      var tracking := GetTextureStateTracking(texture);
      var changed := tracking.(enableUavBarriers := enableBarriers, firstUavBarrierPlaced := false);
      textureStates := textureStates[texture := changed];
      assert textureStates == old(textureStates)[texture := changed];
    }

    method SetEnableUavBarriersForBuffer(buffer: Buffer, enableBarriers: bool)
      modifies this`bufferStates
      ensures Buffers() == BufferStates.SetEnableUavBarriers(old(Buffers()), buffer, enableBarriers)
    {
      var tracking := GetBufferStateTracking(buffer);
      bufferStates := bufferStates[buffer := tracking.(enableUavBarriers := enableBarriers, firstUavBarrierPlaced := false)];
    }

    method BeginTrackingTextureState(texture: Texture, subresources: TextureSubresourceSet, stateBits: States)
      requires Valid()
      modifies this`textureStates
      ensures Valid()
      ensures Textures() == old(Textures()).Begin(texture, ExtOf(texture), subresources, stateBits)
    {
      var record := GetTextureStateTracking(texture);
      var tracking := BeginRecord(texture.desc, record, subresources, stateBits);
      textureStates := textureStates[texture := tracking];
      assert textureStates == old(textureStates)[texture := tracking];
    }

    method BeginTrackingBufferState(buffer: Buffer, stateBits: States)
      modifies this`bufferStates
      ensures bufferStates == old(bufferStates)[buffer := old(Buffers()).Lookup(buffer).(state := stateBits)]
    {
      var tracking := GetBufferStateTracking(buffer);
      bufferStates := bufferStates[buffer := tracking.(state := stateBits)];
    }

    method GetTextureSubresourceState(texture: Texture, arraySlice: nat, mipLevel: nat) returns (state: States)
      requires Valid()
      requires mipLevel < texture.desc.mipLevels && arraySlice < texture.desc.arraySize
      ensures CalcSubresource(mipLevel, arraySlice, texture.desc) < texture.desc.NumSubresources()
      ensures state == Denote(texture.desc, Textures().Lookup(texture, ExtOf(texture)))
                         [CalcSubresource(mipLevel, arraySlice, texture.desc)]
    {
      ReadMeans(texture.desc, texture.stateInitialized, Textures().Tracked(texture), arraySlice, mipLevel);
      if texture !in textureStates {
        return if texture.desc.keepInitialState then
                 (if texture.stateInitialized then texture.desc.initialState else COMMON)
               else UNKNOWN;
      }
      var tracking := textureStates[texture];
      if tracking.subresourceStates == [] {
        return tracking.state;
      }
      return tracking.subresourceStates[CalcSubresource(mipLevel, arraySlice, texture.desc)];
    }

    // Unlike a texture's, the state of an untracked buffer reads as Unknown.
    method GetBufferState(buffer: Buffer) returns (state: States)
      ensures state == if buffer in bufferStates then Buffers().Lookup(buffer).state else UNKNOWN
    {
      if buffer !in bufferStates {
        return UNKNOWN;
      }
      return bufferStates[buffer].state;
    }

    method RequireTextureState(texture: Texture, subresources: TextureSubresourceSet, state: States)
      requires Valid()
      modifies this`textureStates, this`textureBarriers, this`messages
      ensures Valid()
      ensures Textures() == old(Textures()).Require(texture, ExtOf(texture), subresources, state)
    {
      if texture.permanentState != UNKNOWN {
        if !(state <= texture.permanentState) {
          messages := messages + [PermanentStateMismatch(true, texture.permanentState, state)];
        }
        return;
      }
      var tracking := GetTextureStateTracking(texture);
      var u := RequireRecord(texture, tracking, subresources, state);
      textureBarriers := textureBarriers + u.barriers;
      messages := messages + u.messages;
      textureStates := textureStates[texture := u.tracking];
      assert textureStates == old(textureStates)[texture := u.tracking];
    }

    method SetPermanentTextureState(texture: Texture, subresources: TextureSubresourceSet, stateBits: States)
      requires Valid()
      modifies this`textureStates, this`textureBarriers, this`permanentTextureStates, this`messages
      ensures Valid()
      ensures Textures() == old(Textures()).SetPermanent(texture, ExtOf(texture), subresources, stateBits)
    {
      var resolved := subresources.Resolve(texture.desc, false);
      var permanent := true;
      if !resolved.IsEntireTexture(texture.desc) {
        messages := messages + [PartialPermanentTransition(texture)];
        permanent := false;
      }
      RequireTextureState(texture, resolved, stateBits);
      if permanent {
        AnnouncePermanent(texture, stateBits);
      }
    }

    method AnnouncePermanent(texture: Texture, stateBits: States)
      requires Valid()
      modifies this`textureStates, this`permanentTextureStates
      ensures Valid()
      ensures permanentTextureStates == old(permanentTextureStates) + [(texture, stateBits)]
      ensures textureStates
              == old(textureStates)[texture := old(Textures()).Lookup(texture, ExtOf(texture)).(permanentTransition := true)]
    {
      permanentTextureStates := permanentTextureStates + [(texture, stateBits)];
      var tracking := GetTextureStateTracking(texture);
      textureStates := textureStates[texture := tracking.(permanentTransition := true)];
    }

    method RequireBufferState(buffer: Buffer, state: States)
      modifies this`bufferStates, this`bufferBarriers, this`messages
      ensures Buffers() == BufferStates.Require(old(Buffers()), buffer, buffer.permanentState, state)
      ensures messages == old(messages) + RequireBufferMessages(old(Buffers()), buffer, buffer.permanentState, state)
    {
      if buffer.desc.isVolatile {
        return;
      }
      if buffer.permanentState != UNKNOWN {
        if !(state <= buffer.permanentState) {
          messages := messages + [PermanentStateMismatch(false, buffer.permanentState, state)];
        }
        return;
      }
      if buffer.desc.cpuAccess != NoAccess {
        // CPU-visible buffers cannot change state.
        return;
      }
      var tracking := GetBufferStateTracking(buffer);
      if tracking.state == UNKNOWN {
        messages := messages + [UnknownBufferState(buffer)];
      }
      var u := RequireBufferRecord(tracking, bufferBarriers, buffer, state);
      bufferBarriers := u.pending;
      bufferStates := bufferStates[buffer := u.tracking];
    }

    method SetPermanentBufferState(buffer: Buffer, stateBits: States)
      modifies this`bufferStates, this`bufferBarriers, this`permanentBufferStates, this`messages
      ensures Buffers() == BufferStates.Require(old(Buffers()), buffer, buffer.permanentState, stateBits)
      ensures permanentBufferStates == old(permanentBufferStates) + [(buffer, stateBits)]
      ensures messages == old(messages) + RequireBufferMessages(old(Buffers()), buffer, buffer.permanentState, stateBits)
    {
      RequireBufferState(buffer, stateBits);
      permanentBufferStates := permanentBufferStates + [(buffer, stateBits)];
    }

    method KeepBufferInitialState(buffer: Buffer)
      requires buffer in bufferStates
      modifies this`bufferStates, this`bufferBarriers, this`messages
      ensures Buffers() == BufferStates.KeepInitialState(old(Buffers()), buffer, buffer.permanentState)
      ensures messages == old(messages) + KeepBufferMessage(old(Buffers()), buffer, buffer.permanentState)
      ensures bufferStates.Keys == old(bufferStates).Keys
    {
      if buffer.desc.keepInitialState && buffer.permanentState == UNKNOWN && !buffer.desc.isVolatile &&
         !bufferStates[buffer].permanentTransition
      {
        RequireBufferState(buffer, buffer.desc.initialState);
      }
    }

    // One iteration, after those for `done`.
    method KeepNextBuffer(buffer: Buffer, ghost start: BufferStates.BufferTracking, ghost reported: seq<Message>,
                          ghost done: seq<Buffer>, ghost permanents: map<Buffer, States>)
      requires buffer in bufferStates && buffer in permanents && permanents[buffer] == buffer.permanentState
      requires forall b :: b in done ==> b in permanents
      requires Buffers() == KeepBuffers(start, done, permanents)
      requires messages == reported + KeepBufferMessages(start, done, permanents)
      modifies this`bufferStates, this`bufferBarriers, this`messages
      ensures forall b :: b in done + [buffer] ==> b in permanents
      ensures Buffers() == KeepBuffers(start, done + [buffer], permanents)
      ensures messages == reported + KeepBufferMessages(start, done + [buffer], permanents)
      ensures bufferStates.Keys == old(bufferStates).Keys
    {
      KeepBuffersPush(start, done, buffer, permanents);
      KeepBufferInitialState(buffer);
    }

    // The hash map is walked in some order, which the caller learns as a ghost.
    method KeepBufferInitialStates() returns (ghost order: seq<Buffer>)
      modifies this`bufferStates, this`bufferBarriers, this`messages
      ensures VisitsOnce(order, old(bufferStates).Keys)
      ensures Buffers() == KeepBuffers(old(Buffers()), order, old(PermanentsOf(bufferStates.Keys)))
      ensures messages == old(messages) + KeepBufferMessages(old(Buffers()), order, old(PermanentsOf(bufferStates.Keys)))
    {
      var walk := HashOrder(bufferStates.Keys);
      order := walk;
      KeepBuffersInOrder(walk, PermanentsOf(bufferStates.Keys));
    }

    method KeepBuffersInOrder(walk: seq<Buffer>, ghost permanents: map<Buffer, States>)
      requires permanents == PermanentsOf(bufferStates.Keys) && forall b :: b in walk ==> b in permanents
      modifies this`bufferStates, this`bufferBarriers, this`messages
      ensures Buffers() == KeepBuffers(old(Buffers()), walk, permanents)
      ensures messages == old(messages) + KeepBufferMessages(old(Buffers()), walk, permanents)
    {
      ghost var start, reported := Buffers(), messages;
      for i := 0 to |walk|
        invariant bufferStates.Keys == permanents.Keys
        invariant Buffers() == KeepBuffers(start, walk[..i], permanents)
        invariant messages == reported + KeepBufferMessages(start, walk[..i], permanents)
      {
        KeepNextBuffer(walk[i], start, reported, walk[..i], permanents);
        assert walk[..i + 1] == walk[..i] + [walk[i]];
      }
      assert walk[..|walk|] == walk;
    }

    method KeepTextureInitialState(texture: Texture)
      requires Valid() && texture in textureStates
      modifies this`textureStates, this`textureBarriers, this`messages
      ensures Valid()
      ensures Textures() == old(Textures()).KeepInitial(texture, ExtOf(texture))
    {
      if texture.desc.keepInitialState && texture.permanentState == UNKNOWN && !textureStates[texture].permanentTransition {
        RequireTextureState(texture, ALL_SUBRESOURCES, texture.desc.initialState);
      }
    }

    // One iteration, after those for `done`.
    method KeepNextTexture(texture: Texture, ghost start: Tracking, ghost done: seq<Texture>, ghost exts: TextureExts)
      requires Valid() && start.Valid() && texture in textureStates && texture in exts && exts[texture] == ExtOf(texture)
      requires start.states.Keys == exts.Keys && forall t :: t in done ==> t in exts
      requires Textures() == start.KeepInitials(done, exts)
      modifies this`textureStates, this`textureBarriers, this`messages
      ensures Valid() && forall t :: t in done + [texture] ==> t in exts
      ensures Textures() == start.KeepInitials(done + [texture], exts)
    {
      KeepInitialsPush(start, done, texture, exts);
      KeepTextureInitialState(texture);
    }

    method KeepTextureInitialStates() returns (ghost order: seq<Texture>)
      requires Valid()
      modifies this`textureStates, this`textureBarriers, this`messages
      ensures Valid()
      ensures VisitsOnce(order, old(textureStates).Keys)
      ensures Textures() == old(Textures()).KeepInitials(order, old(ExtsOf(textureStates.Keys)))
    {
      var walk := HashOrder(textureStates.Keys);
      order := walk;
      KeepTexturesInOrder(walk, ExtsOf(textureStates.Keys));
    }

    method KeepTexturesInOrder(walk: seq<Texture>, ghost exts: TextureExts)
      requires Valid() && exts == ExtsOf(textureStates.Keys) && forall t :: t in walk ==> t in exts
      modifies this`textureStates, this`textureBarriers, this`messages
      ensures Valid()
      ensures Textures() == old(Textures()).KeepInitials(walk, exts)
    {
      ghost var start := Textures();
      for i := 0 to |walk|
        invariant Valid() && textureStates.Keys == exts.Keys
        invariant Textures() == start.KeepInitials(walk[..i], exts)
      {
        KeepNextTexture(walk[i], start, walk[..i], exts);
        assert walk[..i + 1] == walk[..i] + [walk[i]];
      }
      assert walk[..|walk|] == walk;
    }

    // `textures` and `buffers` name the extension objects that may be written.
    ghost function ToSubmit(textures: set<Texture>, buffers: set<Buffer>): Submission
      reads this, textures, buffers
    {
      Submission(ExtsOf(textures), PermanentsOf(buffers), permanentTextureStates, permanentBufferStates,
                 textureStates.Keys, messages)
    }

    // Announced states have become permanent, kept textures count as initialized and the
    // records are forgotten.
    ghost predicate TexturesSubmitted(s: Submission, textures: set<Texture>)
      reads this`textureStates, this`permanentTextureStates, textures
    {
      && s.Valid()
      && ExtsOf(textures) == SubmitInitialized(SubmitPermanents(s.exts, s.textures), s.tracked)
      && textureStates == map[] && permanentTextureStates == []
    }

    ghost predicate BuffersSubmitted(s: Submission, buffers: set<Buffer>)
      reads this`bufferStates, this`permanentBufferStates, buffers
    {
      && s.Valid()
      && PermanentsOf(buffers) == SubmitBuffers(s.permanents, s.buffers)
      && bufferStates == map[] && permanentBufferStates == []
    }

    // All that, and contradictions were reported.
    ghost predicate HasSubmitted(s: Submission, textures: set<Texture>, buffers: set<Buffer>)
      reads this, textures, buffers
    {
      && TexturesSubmitted(s, textures) && BuffersSubmitted(s, buffers)
      && messages == s.messages + SubmitMessages(s.exts, s.textures) + SubmitBufferMessages(s.permanents, s.buffers)
    }

    method CommandListSubmitted(ghost textures: set<Texture>, ghost buffers: set<Buffer>)
      requires ToSubmit(textures, buffers).Valid() && textureStates.Keys <= textures
      modifies this`textureStates, this`bufferStates, this`permanentTextureStates, this`permanentBufferStates, this`messages
      modifies textures`permanentState, textures`stateInitialized, buffers`permanentState
      ensures HasSubmitted(old(ToSubmit(textures, buffers)), textures, buffers)
    {
      ghost var s := ToSubmit(textures, buffers);
      SubmitTextures(s, textures);
      assert PermanentsOf(buffers) == s.permanents;
      SubmitBufferStates(s, buffers);
      assert TexturesSubmitted(s, textures);
    }

    method SubmitBufferStates(ghost s: Submission, ghost buffers: set<Buffer>)
      requires s.Valid() && s.permanents == PermanentsOf(buffers) && s.buffers == permanentBufferStates
      modifies this`bufferStates, this`permanentBufferStates, this`messages, buffers`permanentState
      ensures BuffersSubmitted(s, buffers)
      ensures messages == old(messages) + SubmitBufferMessages(s.permanents, s.buffers)
    {
      SubmitPermanentBuffers(buffers);
      bufferStates := map[];
    }

    method SubmitTextures(ghost s: Submission, ghost textures: set<Texture>)
      requires s.Valid() && s.exts == ExtsOf(textures) && s.textures == permanentTextureStates && s.tracked == textureStates.Keys
      requires textureStates.Keys <= textures
      modifies this`textureStates, this`permanentTextureStates, this`messages
      modifies textures`permanentState, textures`stateInitialized
      ensures TexturesSubmitted(s, textures)
      ensures messages == old(messages) + SubmitMessages(s.exts, s.textures)
    {
      SubmitPermanentTextures(textures);
      forall texture | texture in textureStates && texture.desc.keepInitialState {
        texture.stateInitialized := true;
      }
      textureStates := map[];
    }

    method SubmitPermanentTextures(ghost textures: set<Texture>)
      requires forall p :: p in permanentTextureStates ==> p.0 in textures
      modifies this`permanentTextureStates, this`messages, textures`permanentState
      ensures permanentTextureStates == []
      ensures messages == old(messages) + SubmitMessages(old(ExtsOf(textures)), old(permanentTextureStates))
      ensures ExtsOf(textures) == SubmitPermanents(old(ExtsOf(textures)), old(permanentTextureStates))
    {
      var announced := permanentTextureStates;
      ghost var start, reported := ExtsOf(textures), messages;
      for i := 0 to |announced|
        invariant permanentTextureStates == announced
        invariant messages == reported + SubmitMessages(start, announced[..i])
        invariant ExtsOf(textures) == SubmitPermanents(start, announced[..i])
      {
        SubmitNextTexture(textures, start, reported, announced[..i], announced[i]);
        assert announced[..i + 1] == announced[..i] + [announced[i]];
      }
      assert announced[..|announced|] == announced;
      permanentTextureStates := [];
    }

    // One iteration, after those for `done`.
    method SubmitNextTexture(ghost textures: set<Texture>, ghost start: TextureExts, ghost reported: seq<Message>,
                         ghost done: Permanents, p: (Texture, States))
      requires p.0 in textures && start.Keys == textures && forall q :: q in done ==> q.0 in start
      requires messages == reported + SubmitMessages(start, done)
      requires ExtsOf(textures) == SubmitPermanents(start, done)
      modifies this`messages, p.0`permanentState
      ensures forall q :: q in done + [p] ==> q.0 in start
      ensures messages == reported + SubmitMessages(start, done + [p])
      ensures ExtsOf(textures) == SubmitPermanents(start, done + [p])
    {
      assert (done + [p])[..|done|] == done;
      SubmitPermanentTexture(textures, p.0, p.1);
    }

    method SubmitPermanentTexture(ghost textures: set<Texture>, texture: Texture, state: States)
      requires texture in textures
      modifies this`messages, texture`permanentState
      ensures messages == old(messages) + SubmitMessage(old(ExtsOf(textures)), texture, state)
      ensures ExtsOf(textures) == SubmitPermanent(old(ExtsOf(textures)), texture, state)
    {
      if texture.permanentState != UNKNOWN && texture.permanentState != state {
        messages := messages + [SwitchPermanentTexture(texture, state)];
      } else {
        texture.permanentState := state;
      }
    }

    method SubmitPermanentBuffers(ghost buffers: set<Buffer>)
      requires forall p :: p in permanentBufferStates ==> p.0 in buffers
      modifies this`permanentBufferStates, this`messages, buffers`permanentState
      ensures permanentBufferStates == []
      ensures messages == old(messages) + SubmitBufferMessages(old(PermanentsOf(buffers)), old(permanentBufferStates))
      ensures PermanentsOf(buffers) == SubmitBuffers(old(PermanentsOf(buffers)), old(permanentBufferStates))
    {
      var announced := permanentBufferStates;
      ghost var start, reported := PermanentsOf(buffers), messages;
      for i := 0 to |announced|
        invariant permanentBufferStates == announced
        invariant messages == reported + SubmitBufferMessages(start, announced[..i])
        invariant PermanentsOf(buffers) == SubmitBuffers(start, announced[..i])
      {
        SubmitNextBuffer(buffers, start, reported, announced[..i], announced[i]);
        assert announced[..i + 1] == announced[..i] + [announced[i]];
      }
      assert announced[..|announced|] == announced;
      permanentBufferStates := [];
    }

    // One iteration, after those for `done`.
    method SubmitNextBuffer(ghost buffers: set<Buffer>, ghost start: map<Buffer, States>, ghost reported: seq<Message>,
                         ghost done: seq<(Buffer, States)>, p: (Buffer, States))
      requires p.0 in buffers && start.Keys == buffers && forall q :: q in done ==> q.0 in start
      requires messages == reported + SubmitBufferMessages(start, done)
      requires PermanentsOf(buffers) == SubmitBuffers(start, done)
      modifies this`messages, p.0`permanentState
      ensures forall q :: q in done + [p] ==> q.0 in start
      ensures messages == reported + SubmitBufferMessages(start, done + [p])
      ensures PermanentsOf(buffers) == SubmitBuffers(start, done + [p])
    {
      assert (done + [p])[..|done|] == done;
      SubmitPermanentBuffer(buffers, p.0, p.1);
    }

    method SubmitPermanentBuffer(ghost buffers: set<Buffer>, buffer: Buffer, state: States)
      requires buffer in buffers
      modifies this`messages, buffer`permanentState
      ensures messages == old(messages) + SubmitBufferMessage(old(PermanentsOf(buffers)), buffer, state)
      ensures PermanentsOf(buffers) == SubmitBuffer(old(PermanentsOf(buffers)), buffer, state)
    {
      if buffer.permanentState != UNKNOWN && buffer.permanentState != state {
        messages := messages + [SwitchPermanentBuffer(buffer, state)];
      } else {
        buffer.permanentState := state;
      }
    }

    method ClearBarriers()
      modifies this`textureBarriers, this`bufferBarriers
      ensures textureBarriers == [] && bufferBarriers == []
    {
      textureBarriers, bufferBarriers := [], [];
    }
  }
}
