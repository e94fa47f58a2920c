/**
 What the resource state tracker does to buffers (src/common/state-tracking.cpp).

 Unlike texture barriers, pending buffer barriers are merged: a second requirement in
 the same batch widens the first barrier instead of adding another one. `Chain` is the
 shape the pending barriers of one buffer keep until they are committed.
 */
module BufferStates {
  import opened Wrappers
  import opened Resources
  import opened ResourceStates

  datatype BufferState = BufferState(
    state: States,
    enableUavBarriers: bool,
    firstUavBarrierPlaced: bool,
    permanentTransition: bool)

  datatype BufferBarrier = BufferBarrier(buffer: Buffer, stateBefore: States, stateAfter: States)

  // getBufferStateTracking: the record created for a buffer that is not tracked yet.
  function NewTracking(desc: BufferDesc): BufferState {
    BufferState(if desc.keepInitialState then desc.initialState else UNKNOWN, true, false, false)
  }

  datatype BufferTracking = BufferTracking(states: map<Buffer, BufferState>, pending: seq<BufferBarrier>) {
    function Lookup(buffer: Buffer): BufferState {
      if buffer in states then states[buffer] else NewTracking(buffer.desc)
    }
  }

  // Position of the first pending barrier of a buffer, or the length if it has none.
  function FirstPending(pending: seq<BufferBarrier>, buffer: Buffer): (k: nat)
    ensures k <= |pending|
    ensures k < |pending| ==> pending[k].buffer == buffer
  {
    if pending == [] || pending[0].buffer == buffer then 0 else 1 + FirstPending(pending[1..], buffer)
  }

  // The buffers requireBufferState works on.
  predicate IsTrackable(buffer: Buffer, permanentState: States) {
    !buffer.desc.isVolatile && permanentState == UNKNOWN && buffer.desc.cpuAccess == NoAccess
  }

  datatype BufferUpdate = BufferUpdate(tracking: BufferState, pending: seq<BufferBarrier>)

  // requireBufferState, once the buffer's record has been found.
  function RequireTracked(t: BufferState, pending: seq<BufferBarrier>, buffer: Buffer, state: States): BufferUpdate {
    var transition := t.state != state;
    var uav := HasUav(state) && (t.enableUavBarriers || !t.firstUavBarrierPlaced);
    var first := FirstPending(pending, buffer);
    if transition && first < |pending| then
      var merged := pending[first].stateAfter + state;
      BufferUpdate(t.(state := merged), pending[first := pending[first].(stateAfter := merged)])
    else
      BufferUpdate(
        t.(state := state, firstUavBarrierPlaced := t.firstUavBarrierPlaced || (uav && !transition)),
        pending + (if transition || uav then [BufferBarrier(buffer, t.state, state)] else []))
  }

  // requireBufferState
  function Require(k: BufferTracking, buffer: Buffer, permanentState: States, state: States): BufferTracking {
    if !IsTrackable(buffer, permanentState) then k
    else
      var u := RequireTracked(k.Lookup(buffer), k.pending, buffer, state);
      BufferTracking(k.states[buffer := u.tracking], u.pending)
  }

  function SetEnableUavBarriers(k: BufferTracking, buffer: Buffer, enabled: bool): BufferTracking {
    k.(states := k.states[buffer := k.Lookup(buffer).(enableUavBarriers := enabled, firstUavBarrierPlaced := false)])
  }

  // The pending barriers of one buffer, in order.
  function Own(pending: seq<BufferBarrier>, buffer: Buffer): seq<BufferBarrier> {
    if pending == [] then []
    else (if pending[0].buffer == buffer then [pending[0]] else []) + Own(pending[1..], buffer)
  }

  lemma {:induction false} OwnPush(pending: seq<BufferBarrier>, b: BufferBarrier, buffer: Buffer)
    ensures Own(pending + [b], buffer) == Own(pending, buffer) + (if b.buffer == buffer then [b] else [])
  {
    var longer := pending + [b];
    if pending == [] {
      assert longer == [b] && [b][1..] == [];
    } else {
      OwnPush(pending[1..], b, buffer);
      assert longer[0] == pending[0] && longer[1..] == pending[1..] + [b];
      OwnHeadTail(longer, buffer);
      OwnHeadTail(pending, buffer);
    }
  }

  lemma OwnHeadTail(pending: seq<BufferBarrier>, buffer: Buffer)
    requires pending != []
    ensures pending[0].buffer == buffer ==> Own(pending, buffer) == [pending[0]] + Own(pending[1..], buffer)
    ensures pending[0].buffer != buffer ==> Own(pending, buffer) == Own(pending[1..], buffer)
  {
  }

  // Widening the first barrier of a buffer widens the head of its own list and leaves
  // the lists of other buffers alone.
  lemma {:induction false} OwnUpdateFirst(pending: seq<BufferBarrier>, b: BufferBarrier, buffer: Buffer)
    requires FirstPending(pending, b.buffer) < |pending|
    ensures Own(pending, b.buffer) != []
    ensures Own(pending, b.buffer)[0] == pending[FirstPending(pending, b.buffer)]
    ensures Own(pending[FirstPending(pending, b.buffer) := b], buffer)
         == if b.buffer == buffer then Own(pending, buffer)[0 := b] else Own(pending, buffer)
  {
    var k := FirstPending(pending, b.buffer);
    if k == 0 {
      assert pending[0 := b][1..] == pending[1..];
    } else {
      OwnUpdateFirst(pending[1..], b, buffer);
      assert pending[k := b][1..] == pending[1..][k - 1 := b];
      assert pending[k := b][0] == pending[0];
    }
  }

  lemma {:induction false} OwnEmptyIff(pending: seq<BufferBarrier>, buffer: Buffer)
    ensures Own(pending, buffer) == [] <==> FirstPending(pending, buffer) == |pending|
  {
    if pending != [] {
      OwnEmptyIff(pending[1..], buffer);
    }
  }

  // Barriers that only order unordered accesses inside the flags the buffer is in.
  predicate SelfBarriersWithin(barriers: seq<BufferBarrier>, tracked: States) {
    forall b :: b in barriers ==> b.stateBefore == b.stateAfter && HasUav(b.stateAfter) && b.stateAfter <= tracked
  }

  // The pending barriers of a buffer whose state was `committed` at the last commit and
  // is now `tracked`.
  predicate Chain(own: seq<BufferBarrier>, committed: States, tracked: States) {
    if own == [] then tracked == committed
    else own[0].stateBefore == committed && own[0].stateAfter == tracked && SelfBarriersWithin(own[1..], tracked)
  }

  // Every requirement keeps the chain of the required buffer, and a requirement made
  // while a barrier is pending adds its flags to the tracked state and drops none.
  lemma RequireKeepsChain(k: BufferTracking, buffer: Buffer, permanentState: States, state: States, committed: States)
    requires Chain(Own(k.pending, buffer), committed, k.Lookup(buffer).state)
    ensures var r := Require(k, buffer, permanentState, state);
            && Chain(Own(r.pending, buffer), committed, r.Lookup(buffer).state)
            && (IsTrackable(buffer, permanentState) && Own(k.pending, buffer) != [] ==>
                  Own(r.pending, buffer) != [] && r.Lookup(buffer).state == k.Lookup(buffer).state + state)
            && (IsTrackable(buffer, permanentState) && Own(k.pending, buffer) == [] ==> r.Lookup(buffer).state == state)
  {
    var r := Require(k, buffer, permanentState, state);
    if IsTrackable(buffer, permanentState) {
      var t := k.Lookup(buffer);
      var own := Own(k.pending, buffer);
      OwnEmptyIff(k.pending, buffer);
      var first := FirstPending(k.pending, buffer);
      if t.state != state && first < |k.pending| {
        var b := k.pending[first].(stateAfter := k.pending[first].stateAfter + state);
        OwnUpdateFirst(k.pending, b, buffer);
        assert own[0 := b][1..] == own[1..];
      } else if |r.pending| == |k.pending| {
        assert r.pending == k.pending;
        assert own != [] ==> t.state + state == t.state;
      } else {
        var b := BufferBarrier(buffer, t.state, state);
        assert r.pending == k.pending + [b];
        OwnPush(k.pending, b, buffer);
        if own != [] {
          assert (own + [b])[1..] == own[1..] + [b];
          assert t.state + state == t.state;
        }
      }
    }
  }

  lemma RequireFrame(k: BufferTracking, buffer: Buffer, permanentState: States, state: States, other: Buffer)
    requires other != buffer
    ensures var r := Require(k, buffer, permanentState, state);
            Own(r.pending, other) == Own(k.pending, other) && r.Lookup(other) == k.Lookup(other)
  {
    var r := Require(k, buffer, permanentState, state);
    if IsTrackable(buffer, permanentState) {
      var t := k.Lookup(buffer);
      var first := FirstPending(k.pending, buffer);
      if t.state != state && first < |k.pending| {
        OwnUpdateFirst(k.pending, k.pending[first].(stateAfter := k.pending[first].stateAfter + state), other);
      } else if |r.pending| == |k.pending| {
        assert r.pending == k.pending;
      } else {
        OwnPush(k.pending, BufferBarrier(buffer, t.state, state), other);
      }
    }
  }

  // ---------- Whole batches ----------

  // What may happen to buffers between two commits, re-tracking excepted.
  datatype BufferEvent =
    | RequireEvent(buffer: Buffer, permanentState: States, state: States)
    | SetUavEvent(buffer: Buffer, enabled: bool)

  function Step(k: BufferTracking, e: BufferEvent): BufferTracking {
    match e
    case RequireEvent(buffer, permanentState, state) => Require(k, buffer, permanentState, state)
    case SetUavEvent(buffer, enabled) => SetEnableUavBarriers(k, buffer, enabled)
  }

  function Run(k: BufferTracking, events: seq<BufferEvent>): BufferTracking {
    if events == [] then k else Step(Run(k, events[..|events| - 1]), events[|events| - 1])
  }

  lemma StepKeepsChain(k: BufferTracking, e: BufferEvent, buffer: Buffer, committed: States)
    requires Chain(Own(k.pending, buffer), committed, k.Lookup(buffer).state)
    ensures var r := Step(k, e);
            && Chain(Own(r.pending, buffer), committed, r.Lookup(buffer).state)
            && (Own(k.pending, buffer) != [] ==> Own(r.pending, buffer) != [] && k.Lookup(buffer).state <= r.Lookup(buffer).state)
  {
    if e.RequireEvent? {
      if e.buffer == buffer {
        RequireKeepsChain(k, buffer, e.permanentState, e.state, committed);
      } else {
        RequireFrame(k, e.buffer, e.permanentState, e.state, buffer);
      }
    }
  }

  // In any batch that starts without pending barriers, every buffer keeps its chain
  // from the state it had at the commit to the tracked state.
  lemma {:induction false} RunKeepsChain(k: BufferTracking, events: seq<BufferEvent>, buffer: Buffer)
    requires k.pending == []
    ensures var r := Run(k, events);
            Chain(Own(r.pending, buffer), k.Lookup(buffer).state, r.Lookup(buffer).state)
  {
    if events != [] {
      RunKeepsChain(k, events[..|events| - 1], buffer);
      StepKeepsChain(Run(k, events[..|events| - 1]), events[|events| - 1], buffer, k.Lookup(buffer).state);
    }
  }

  // The tracked state contains every state required since the first barrier of the
  // batch was pushed for the buffer.
  lemma {:induction false} RunContainsRequired(k: BufferTracking, events: seq<BufferEvent>, buffer: Buffer, i: nat)
    requires k.pending == [] && i < |events|
    requires events[i].RequireEvent? && events[i].buffer == buffer && IsTrackable(buffer, events[i].permanentState)
    requires Own(Run(k, events[..i + 1]).pending, buffer) != []
    ensures events[i].state <= Run(k, events).Lookup(buffer).state
    ensures Own(Run(k, events).pending, buffer) != []
  {
    var rest, last := events[..|events| - 1], events[|events| - 1];
    RunKeepsChain(k, rest, buffer);
    if i == |events| - 1 {
      assert events[..i + 1] == events;
      RequireKeepsChain(Run(k, rest), buffer, last.permanentState, last.state, k.Lookup(buffer).state);
    } else {
      assert rest[..i + 1] == events[..i + 1];
      RunContainsRequired(k, rest, buffer, i);
      StepKeepsChain(Run(k, rest), last, buffer, k.Lookup(buffer).state);
    }
  }

  predicate IsUavDue(t: BufferState, state: States) {
    HasUav(state) && (t.enableUavBarriers || !t.firstUavBarrierPlaced)
  }

  // The tracked states of the buffers that have a pending barrier.
  function StatesOf(k: BufferTracking, pending: seq<BufferBarrier>): map<Buffer, States> {
    map x | x in pending :: x.buffer := k.Lookup(x.buffer).state
  }

  // The barriers of a buffer behind its first one.
  function Behind(pending: seq<BufferBarrier>, buffer: Buffer): seq<BufferBarrier> {
    var own := Own(pending, buffer);
    if own == [] then [] else own[1..]
  }

  // This event asks again for the state the buffer is in, an unordered access, while a
  // barrier of the buffer is pending.
  predicate Repeats(k: BufferTracking, events: seq<BufferEvent>, i: nat)
    requires i < |events|
  {
    var e, before := events[i], Run(k, events[..i]);
    && e.RequireEvent? && IsTrackable(e.buffer, e.permanentState)
    && Own(before.pending, e.buffer) != []
    && before.Lookup(e.buffer).state == e.state && IsUavDue(before.Lookup(e.buffer), e.state)
  }

  lemma StepBehind(k: BufferTracking, e: BufferEvent, buffer: Buffer)
    ensures var repeats := && e.RequireEvent? && e.buffer == buffer && IsTrackable(buffer, e.permanentState)
                           && Own(k.pending, buffer) != []
                           && k.Lookup(buffer).state == e.state && IsUavDue(k.Lookup(buffer), e.state);
            Behind(Step(k, e).pending, buffer)
            == Behind(k.pending, buffer) + (if repeats then [BufferBarrier(buffer, e.state, e.state)] else [])
  {
    if e.RequireEvent? && IsTrackable(e.buffer, e.permanentState) {
      if e.buffer != buffer {
        RequireFrame(k, e.buffer, e.permanentState, e.state, buffer);
      } else {
        RequireBehind(k, buffer, e.permanentState, e.state);
      }
    }
  }

  lemma RequireBehind(k: BufferTracking, buffer: Buffer, permanentState: States, state: States)
    requires IsTrackable(buffer, permanentState)
    ensures Behind(Require(k, buffer, permanentState, state).pending, buffer)
            == Behind(k.pending, buffer)
               + (if Own(k.pending, buffer) != [] && k.Lookup(buffer).state == state && IsUavDue(k.Lookup(buffer), state)
                  then [BufferBarrier(buffer, state, state)] else [])
  {
    var t, first := k.Lookup(buffer), FirstPending(k.pending, buffer);
    OwnEmptyIff(k.pending, buffer);
    if t.state != state && first < |k.pending| {
      OwnUpdateFirst(k.pending, k.pending[first].(stateAfter := k.pending[first].stateAfter + state), buffer);
    } else {
      OwnPush(k.pending, BufferBarrier(buffer, t.state, state), buffer);
      assert k.pending + [] == k.pending;
    }
  }

  // A self-barrier waits behind the first pending barrier of a buffer exactly when a
  // repeated unordered access asked for its state.
  lemma {:induction false} BehindIffRepeated(k: BufferTracking, events: seq<BufferEvent>, buffer: Buffer, x: BufferBarrier)
    requires k.pending == []
    ensures x in Behind(Run(k, events).pending, buffer)
            <==> exists i :: && 0 <= i < |events| && Repeats(k, events, i)
                             && events[i].buffer == buffer && x == BufferBarrier(buffer, events[i].state, events[i].state)
  {
    if events != [] {
      var rest, last := events[..|events| - 1], events[|events| - 1];
      BehindIffRepeated(k, rest, buffer, x);
      StepBehind(Run(k, rest), last, buffer);
      forall i | 0 <= i < |rest| ensures Repeats(k, events, i) <==> Repeats(k, rest, i) {
        assert rest[..i] == events[..i];
      }
      assert Repeats(k, events, |rest|) ==> events[|rest|] == last;
    }
  }

  // ---------- Closing a command list ----------

  // keepBufferInitialStates, for one tracked buffer.
  function KeepInitialState(k: BufferTracking, buffer: Buffer, permanentState: States): BufferTracking {
    if buffer.desc.keepInitialState && permanentState == UNKNOWN && !buffer.desc.isVolatile && !k.Lookup(buffer).permanentTransition
    then Require(k, buffer, permanentState, buffer.desc.initialState)
    else k
  }

  // Closing returns a keepInitialState buffer to its initial state exactly when no
  // barrier of it is pending, or its tracked flags are all part of that state:
  // otherwise the return is merged into the pending barrier.
  lemma CloseReturnsToInitialIff(k: BufferTracking, buffer: Buffer, committed: States)
    requires buffer.desc.keepInitialState && IsTrackable(buffer, UNKNOWN) && !k.Lookup(buffer).permanentTransition
    requires Chain(Own(k.pending, buffer), committed, k.Lookup(buffer).state)
    ensures KeepInitialState(k, buffer, UNKNOWN).Lookup(buffer).state == buffer.desc.initialState
       <==> Own(k.pending, buffer) == [] || k.Lookup(buffer).state <= buffer.desc.initialState
  {
    RequireKeepsChain(k, buffer, UNKNOWN, buffer.desc.initialState, committed);
  }

  // Whether a barrier is pending for the buffer after a requirement.
  lemma PendingAfterRequire(k: BufferTracking, buffer: Buffer, state: States, committed: States)
    requires IsTrackable(buffer, UNKNOWN) && Chain(Own(k.pending, buffer), committed, k.Lookup(buffer).state)
    ensures Own(Require(k, buffer, UNKNOWN, state).pending, buffer) == []
            <==> Own(k.pending, buffer) == [] && k.Lookup(buffer).state == state && !IsUavDue(k.Lookup(buffer), state)
  {
    RequireKeepsChain(k, buffer, UNKNOWN, state, committed);
    OwnEmptyIff(k.pending, buffer);
    OwnPush(k.pending, BufferBarrier(buffer, k.Lookup(buffer).state, state), buffer);
    assert k.pending + [] == k.pending;
  }

  // setPermanentBufferState does not mark the record, so closing still applies the
  // initial state. Whatever was announced, committed or required before: with the tracker
  // as it is on closing, a kept buffer ends up in a state exactly when that is the initial
  // state, or, while a barrier is pending, the initial state merged into the tracked one.
  lemma PermanentStateSurvivesCloseIff(k: BufferTracking, buffer: Buffer, state: States, committed: States)
    requires buffer.desc.keepInitialState && IsTrackable(buffer, UNKNOWN) && !k.Lookup(buffer).permanentTransition
    requires Chain(Own(k.pending, buffer), committed, k.Lookup(buffer).state)
    ensures var initial := buffer.desc.initialState;
            KeepInitialState(k, buffer, UNKNOWN).Lookup(buffer).state == state
            <==> if Own(k.pending, buffer) == [] then initial == state else k.Lookup(buffer).state + initial == state
  {
    RequireKeepsChain(k, buffer, UNKNOWN, buffer.desc.initialState, committed);
  }

  // Without a commit between the announcement and closing: the announced state is the final
  // one exactly when what it is merged with adds nothing to it.
  lemma AnnouncedLastSurvivesIff(k: BufferTracking, buffer: Buffer, state: States, committed: States)
    requires buffer.desc.keepInitialState && IsTrackable(buffer, UNKNOWN) && !k.Lookup(buffer).permanentTransition
    requires Chain(Own(k.pending, buffer), committed, k.Lookup(buffer).state)
    ensures (KeepInitialState(Require(k, buffer, UNKNOWN, state), buffer, UNKNOWN).Lookup(buffer).state == state)
       <==> var t, initial := k.Lookup(buffer), buffer.desc.initialState;
            if Own(k.pending, buffer) != [] then t.state + initial <= state
            else if t.state != state || IsUavDue(t, state) then initial <= state
            else initial == state
  {
    RequireKeepsChain(k, buffer, UNKNOWN, state, committed);
    PendingAfterRequire(k, buffer, state, committed);
    PermanentStateSurvivesCloseIff(Require(k, buffer, UNKNOWN, state), buffer, state, committed);
  }

  // ---------- What a batch asks for ----------

  // Told from the events alone: `record` is the buffer's record at the last commit with the
  // UAV settings made since, and `asked` is nothing until a requirement asks for another
  // state or a UAV barrier is due, and from then on every flag required.
  datatype Demand = Demand(record: BufferState, asked: Option<States>)

  function Demanded(t: BufferState, events: seq<BufferEvent>, buffer: Buffer): Demand {
    if events == [] then Demand(t, None)
    else
      var before := Demanded(t, events[..|events| - 1], buffer);
      match events[|events| - 1]
      case SetUavEvent(b, enabled) =>
        if b != buffer then before
        else before.(record := before.record.(enableUavBarriers := enabled, firstUavBarrierPlaced := false))
      case RequireEvent(b, permanentState, state) =>
        if b != buffer || !IsTrackable(b, permanentState) then before
        else if before.asked.Some? then before.(asked := Some(before.asked.value + state))
        else if state != before.record.state || IsUavDue(before.record, state) then before.(asked := Some(state))
        else before
  }

  // What is pending and tracked at the end of a batch is what the batch asked for.
  ghost predicate Meets(k: BufferTracking, buffer: Buffer, d: Demand) {
    && (Own(k.pending, buffer) == [] <==> d.asked == None)
    && (d.asked == None ==> k.Lookup(buffer) == d.record)
    && (d.asked.Some? ==> k.Lookup(buffer).state == d.asked.value)
  }

  lemma RequireMeets(k: BufferTracking, buffer: Buffer, permanentState: States, state: States, committed: States, d: Demand)
    requires IsTrackable(buffer, permanentState) && Meets(k, buffer, d)
    requires Chain(Own(k.pending, buffer), committed, k.Lookup(buffer).state)
    ensures var r := Require(k, buffer, permanentState, state);
            if d.asked.Some? then Meets(r, buffer, d.(asked := Some(d.asked.value + state)))
            else if state != d.record.state || IsUavDue(d.record, state) then Meets(r, buffer, d.(asked := Some(state)))
            else Meets(r, buffer, d)
  {
    RequireKeepsChain(k, buffer, permanentState, state, committed);
    if d.asked == None {
      OwnEmptyIff(k.pending, buffer);
      OwnPush(k.pending, BufferBarrier(buffer, k.Lookup(buffer).state, state), buffer);
      assert k.pending + [] == k.pending;
    }
  }

  lemma {:induction false} RunMeetsDemand(k: BufferTracking, events: seq<BufferEvent>, buffer: Buffer)
    requires k.pending == []
    ensures Meets(Run(k, events), buffer, Demanded(k.Lookup(buffer), events, buffer))
  {
    if events != [] {
      var rest, last := events[..|events| - 1], events[|events| - 1];
      RunMeetsDemand(k, rest, buffer);
      RunKeepsChain(k, rest, buffer);
      if last.RequireEvent? {
        if last.buffer != buffer {
          RequireFrame(Run(k, rest), last.buffer, last.permanentState, last.state, buffer);
        } else if IsTrackable(buffer, last.permanentState) {
          RequireMeets(Run(k, rest), buffer, last.permanentState, last.state, k.Lookup(buffer).state,
                       Demanded(k.Lookup(buffer), rest, buffer));
        }
      }
    }
  }

  // The state that closing leaves a buffer in, from what was asked since the last commit.
  function ClosedState(desc: BufferDesc, d: Demand): States {
    if desc.keepInitialState then (if d.asked.Some? then d.asked.value + desc.initialState else desc.initialState)
    else if d.asked.Some? then d.asked.value
    else d.record.state
  }

  lemma ClosedStateIsAsked(k: BufferTracking, events: seq<BufferEvent>, buffer: Buffer)
    requires k.pending == [] && IsTrackable(buffer, UNKNOWN) && !Run(k, events).Lookup(buffer).permanentTransition
    ensures KeepInitialState(Run(k, events), buffer, UNKNOWN).Lookup(buffer).state
            == ClosedState(buffer.desc, Demanded(k.Lookup(buffer), events, buffer))
  {
    RunMeetsDemand(k, events, buffer);
    RunKeepsChain(k, events, buffer);
    RequireKeepsChain(Run(k, events), buffer, UNKNOWN, buffer.desc.initialState, k.Lookup(buffer).state);
  }

  // ---------- Concrete inputs ----------

  const NOTHING_TRACKED := BufferTracking(map[], [])

  // A kept copy destination that is used as a vertex buffer: closing widens the pending
  // barrier, and the buffer is left in both states.
  lemma MergedCloseExample(buffer: Buffer)
    requires buffer.desc == BufferDesc(false, NoAccess, {CopyDest}, true)
    ensures var used := Require(NOTHING_TRACKED, buffer, UNKNOWN, {VertexBuffer});
            KeepInitialState(used, buffer, UNKNOWN).Lookup(buffer).state == {VertexBuffer, CopyDest}
  {
    RequireKeepsChain(NOTHING_TRACKED, buffer, UNKNOWN, {VertexBuffer}, {CopyDest});
    var used := Require(NOTHING_TRACKED, buffer, UNKNOWN, {VertexBuffer});
    PendingAfterRequire(NOTHING_TRACKED, buffer, {VertexBuffer}, {CopyDest});
    RequireKeepsChain(used, buffer, UNKNOWN, {CopyDest}, {CopyDest});
  }

  // The same buffer made permanent after it was used as an index buffer in the batch: it
  // is left in three states, although its initial state adds nothing.
  lemma LostPermanentExample(buffer: Buffer)
    requires buffer.desc == BufferDesc(false, NoAccess, {CopyDest}, true)
    ensures var used := Require(NOTHING_TRACKED, buffer, UNKNOWN, {IndexBuffer});
            var permanent := Require(used, buffer, UNKNOWN, {VertexBuffer, CopyDest});
            KeepInitialState(permanent, buffer, UNKNOWN).Lookup(buffer).state == {IndexBuffer, VertexBuffer, CopyDest}
  {
    var used := Require(NOTHING_TRACKED, buffer, UNKNOWN, {IndexBuffer});
    var permanent := Require(used, buffer, UNKNOWN, {VertexBuffer, CopyDest});
    RequireKeepsChain(NOTHING_TRACKED, buffer, UNKNOWN, {IndexBuffer}, {CopyDest});
    PendingAfterRequire(NOTHING_TRACKED, buffer, {IndexBuffer}, {CopyDest});
    RequireKeepsChain(used, buffer, UNKNOWN, {VertexBuffer, CopyDest}, {CopyDest});
    RequireKeepsChain(permanent, buffer, UNKNOWN, {CopyDest}, {CopyDest});
  }
}
