/**
 Whole runs of the buffer tracker: any number of command lists, each recorded, closed and
 submitted before the next one is opened, over any number of buffers.

 The device executes a batch of barriers when it is committed and rejects one that does not
 start from the actual state. Buffers fare worse than textures: what closing a list adds to
 a pending barrier does not return a buffer to its initial state, and closing ignores that a
 permanent state was announced. `RunIsConsistentIff` and `PermanentIsActualIff` say exactly
 when the tracker is right about the device nevertheless.
 */
module BufferRuns {
  import opened Wrappers
  import opened Resources
  import opened ResourceStates
  import opened BufferStates
  import opened TextureTracking
  import opened StateTracker

  type BufferDevice = map<Buffer, States>

  datatype World = World(
    permanents: map<Buffer, States>,     // the extension objects, shared by all command lists
    tracking: BufferTracking,            // the tracker of the list being recorded
    announced: seq<(Buffer, States)>,    // permanent states announced in that list
    device: BufferDevice,                // actual states, after the last commit
    closed: bool,                        // the list is closed and waits for submission
    rejected: bool)                      // some committed batch did not fit

  datatype Event =
    | RequireEvent(buffer: Buffer, state: States)
    | PermanentEvent(buffer: Buffer, state: States)
    | BeginEvent(buffer: Buffer, state: States)
    | SetUavEvent(buffer: Buffer, enabled: bool)
    | CommitEvent
    | CloseEvent(order: seq<Buffer>)
    | SubmitEvent

  // What the barriers of one buffer, executed as a batch, make of its actual state: the
  // first must start there and ends in the merged state, the others stay within it.
  function Executed(own: seq<BufferBarrier>, actual: States): Option<States> {
    if own == [] then Some(actual)
    else if Chain(own, actual, own[0].stateAfter) then Some(own[0].stateAfter)
    else None
  }

  predicate Fits(device: BufferDevice, pending: seq<BufferBarrier>) {
    forall b :: b in device ==> Executed(Own(pending, b), device[b]).Some?
  }

  function Execute(device: BufferDevice, pending: seq<BufferBarrier>): BufferDevice {
    map b | b in device :: var r := Executed(Own(pending, b), device[b]); if r.Some? then r.value else device[b]
  }

  function Commit(w: World): World {
    w.(tracking := w.tracking.(pending := []),
       device := Execute(w.device, w.tracking.pending),
       rejected := w.rejected || !Fits(w.device, w.tracking.pending))
  }

  predicate Typed(w: World) {
    && w.device.Keys == w.permanents.Keys
    && w.tracking.states.Keys <= w.permanents.Keys
    && (forall x :: x in w.tracking.pending ==> x.buffer in w.permanents)
    && (forall p :: p in w.announced ==> p.0 in w.permanents && p.1 != UNKNOWN)
  }

  predicate Concerns(w: World, e: Event) {
    match e
    case RequireEvent(b, _) => b in w.permanents
    case PermanentEvent(b, _) => b in w.permanents
    case BeginEvent(b, _) => b in w.permanents
    case SetUavEvent(b, _) => b in w.permanents
    case CommitEvent => true
    case CloseEvent(order) => forall b :: b in order ==> b in w.permanents
    case SubmitEvent => true
  }

  function Kept(w: World, order: seq<Buffer>): World
    requires forall b :: b in order ==> b in w.permanents
  {
    w.(tracking := KeepBuffers(w.tracking, order, w.permanents))
  }

  function Closed(w: World, order: seq<Buffer>): World
    requires forall b :: b in order ==> b in w.permanents
  {
    Commit(Kept(w, order)).(closed := true)
  }

  function Step(w: World, e: Event): World
    requires Typed(w) && Concerns(w, e)
  {
    match e
    case RequireEvent(b, state) => w.(tracking := Require(w.tracking, b, w.permanents[b], state))
    case PermanentEvent(b, state) =>
      w.(tracking := Require(w.tracking, b, w.permanents[b], state), announced := w.announced + [(b, state)])
    case BeginEvent(b, state) =>
      w.(tracking := w.tracking.(states := w.tracking.states[b := w.tracking.Lookup(b).(state := state)]))
    case SetUavEvent(b, enabled) => w.(tracking := SetEnableUavBarriers(w.tracking, b, enabled))
    case CommitEvent => Commit(w)
    case CloseEvent(order) => Closed(w, order)
    case SubmitEvent =>
      w.(permanents := SubmitBuffers(w.permanents, w.announced),
         tracking := w.tracking.(states := map[]), announced := [], closed := false)
  }

  // The barriers an event hands to the device.
  function Recorded(w: World, e: Event): seq<BufferBarrier>
    requires Concerns(w, e)
  {
    match e
    case CommitEvent => w.tracking.pending
    case CloseEvent(order) => Kept(w, order).tracking.pending
    case _ => []
  }

  // The tracker knows the prior state of what is required. A kept buffer is always known.
  predicate KnownBefore(w: World, b: Buffer)
    requires b in w.permanents
  {
    IsTrackable(b, w.permanents[b]) ==> w.tracking.Lookup(b).state != UNKNOWN
  }

  // What the application owes the library: it names real states and tells the truth when
  // it begins tracking by hand, which it does between batches.
  ghost predicate Legal(w: World, e: Event) {
    && Typed(w) && Concerns(w, e) && (w.closed <==> e.SubmitEvent?)
    && match e
       case RequireEvent(b, state) => state != UNKNOWN && KnownBefore(w, b)
       case PermanentEvent(b, state) => state != UNKNOWN && KnownBefore(w, b)
       case BeginEvent(b, state) => state != UNKNOWN && w.device[b] == state && Own(w.tracking.pending, b) == []
       case SetUavEvent(_, _) => true
       case CommitEvent => true
       case CloseEvent(order) => VisitsOnce(order, w.tracking.states.Keys)
       case SubmitEvent => true
  }

  // ---------- The invariant ----------

  // The state a buffer had at the last commit, as far as the tracker knows.
  function Start(k: BufferTracking, b: Buffer): States {
    var own := Own(k.pending, b);
    if own == [] then k.Lookup(b).state else own[0].stateBefore
  }

  ghost predicate Shaped(k: BufferTracking, b: Buffer, permanentState: States) {
    && !k.Lookup(b).permanentTransition
    && (b.desc.keepInitialState ==> k.Lookup(b).state != UNKNOWN)
    && Chain(Own(k.pending, b), Start(k, b), k.Lookup(b).state)
    && (Own(k.pending, b) != [] ==>
          IsTrackable(b, permanentState) && Start(k, b) != UNKNOWN && k.Lookup(b).state != UNKNOWN)
  }

  ghost predicate DescsValid(permanents: map<Buffer, States>) {
    forall b :: b in permanents && b.desc.keepInitialState ==> b.desc.initialState != UNKNOWN
  }

  ghost predicate AnnouncedTracked(w: World) {
    forall p :: p in w.announced && p.0 in w.permanents && IsTrackable(p.0, w.permanents[p.0]) ==>
      p.0 in w.tracking.states && w.tracking.Lookup(p.0).state != UNKNOWN
  }

  ghost predicate Inv(w: World) {
    && Typed(w) && DescsValid(w.permanents) && AnnouncedTracked(w)
    && (forall b :: b in w.permanents ==> Shaped(w.tracking, b, w.permanents[b]))
    && (w.closed ==> w.tracking.pending == [])
  }

  // What the tracker takes for the state at the last commit is the actual one.
  ghost predicate Truthful(w: World, b: Buffer)
    requires b in w.permanents && b in w.device
  {
    IsTrackable(b, w.permanents[b]) && w.tracking.Lookup(b).state != UNKNOWN ==> Start(w.tracking, b) == w.device[b]
  }

  ghost predicate Consistent(w: World)
    requires Typed(w)
  {
    !w.rejected && forall b :: b in w.permanents ==> Truthful(w, b)
  }

  ghost predicate Init(w: World) {
    && w.device.Keys == w.permanents.Keys && DescsValid(w.permanents)
    && w.tracking == NOTHING_TRACKED && w.announced == [] && !w.closed && !w.rejected
    && forall b :: b in w.permanents ==> w.permanents[b] == UNKNOWN && (b.desc.keepInitialState ==> w.device[b] == b.desc.initialState)
  }

  lemma InitConsistent(w: World)
    requires Init(w)
    ensures Inv(w) && Consistent(w)
  {
  }

  // ---------- Steps ----------

  // A requirement leaves what the tracker takes for the committed state.
  lemma RequireShaped(k: BufferTracking, b: Buffer, permanentState: States, state: States)
    requires Shaped(k, b, permanentState) && state != UNKNOWN
    requires IsTrackable(b, permanentState) ==> k.Lookup(b).state != UNKNOWN
    ensures var r := Require(k, b, permanentState, state);
            && Shaped(r, b, permanentState) && Start(r, b) == Start(k, b)
            && (IsTrackable(b, permanentState) ==>
                  && r.Lookup(b).state == (if Own(k.pending, b) == [] then state else k.Lookup(b).state + state)
                  && r.Lookup(b).state != UNKNOWN)
  {
    RequireKeepsChain(k, b, permanentState, state, Start(k, b));
    assert state != UNKNOWN ==> k.Lookup(b).state + state != UNKNOWN;
  }

  // One buffer's record or barriers changed, and nothing of the other buffers.
  ghost predicate OnlyChanges(buffers: set<Buffer>, before: BufferTracking, after: BufferTracking, b: Buffer) {
    && before.states.Keys <= after.states.Keys <= before.states.Keys + {b}
    && (forall x :: x in after.pending ==> x.buffer == b || x in before.pending)
    && forall other :: other in buffers && other != b ==>
         Own(after.pending, other) == Own(before.pending, other) && after.Lookup(other) == before.Lookup(other)
  }

  lemma UpdateOne(w: World, k: BufferTracking, b: Buffer)
    requires Inv(w) && !w.closed && b in w.permanents
    requires OnlyChanges(w.permanents.Keys, w.tracking, k, b) && Shaped(k, b, w.permanents[b])
    requires w.tracking.Lookup(b).state != UNKNOWN ==> k.Lookup(b).state != UNKNOWN
    ensures Inv(w.(tracking := k))
    ensures Consistent(w) && Truthful(w.(tracking := k), b) ==> Consistent(w.(tracking := k))
  {
    var r := w.(tracking := k);
    forall other | other in w.permanents
      ensures Shaped(k, other, w.permanents[other])
      ensures Consistent(w) && Truthful(r, b) ==> Truthful(r, other)
    {
      if other != b {
        assert Shaped(w.tracking, other, w.permanents[other]);
        assert Consistent(w) ==> Truthful(w, other);
      }
    }
  }

  lemma RequireOnlyChanges(buffers: set<Buffer>, k: BufferTracking, b: Buffer, permanentState: States, state: States)
    ensures var r := Require(k, b, permanentState, state);
            OnlyChanges(buffers, k, r, b) && (IsTrackable(b, permanentState) ==> b in r.states)
  {
    forall other | other in buffers && other != b
      ensures var r := Require(k, b, permanentState, state);
              Own(r.pending, other) == Own(k.pending, other) && r.Lookup(other) == k.Lookup(other)
    {
      RequireFrame(k, b, permanentState, state, other);
    }
  }

  lemma RequireKeeps(w: World, b: Buffer, state: States)
    requires Inv(w) && Legal(w, Event.RequireEvent(b, state))
    ensures var k := Require(w.tracking, b, w.permanents[b], state);
            && Inv(w.(tracking := k)) && (Consistent(w) ==> Consistent(w.(tracking := k)))
            && (IsTrackable(b, w.permanents[b]) ==> b in k.states && k.Lookup(b).state != UNKNOWN)
  {
    var k := Require(w.tracking, b, w.permanents[b], state);
    RequireOnlyChanges(w.permanents.Keys, w.tracking, b, w.permanents[b], state);
    assert Shaped(w.tracking, b, w.permanents[b]);
    assert Consistent(w) ==> Truthful(w, b);
    RequireShaped(w.tracking, b, w.permanents[b], state);
    UpdateOne(w, k, b);
  }

  lemma AnnounceKeeps(w: World, b: Buffer, state: States)
    requires Inv(w) && b in w.permanents && state != UNKNOWN && !w.closed
    requires IsTrackable(b, w.permanents[b]) ==> b in w.tracking.states && w.tracking.Lookup(b).state != UNKNOWN
    ensures var r := w.(announced := w.announced + [(b, state)]); Inv(r) && (Consistent(w) ==> Consistent(r))
  {
    var r := w.(announced := w.announced + [(b, state)]);
    assert Consistent(w) ==> forall other :: other in r.permanents ==> Truthful(w, other) && Truthful(r, other);
  }

  lemma BeginKeeps(w: World, b: Buffer, state: States)
    requires Inv(w) && Legal(w, BeginEvent(b, state))
    ensures var r := Step(w, BeginEvent(b, state)); Inv(r) && (Consistent(w) ==> Consistent(r))
  {
    assert Shaped(w.tracking, b, w.permanents[b]);
    UpdateOne(w, w.tracking.(states := w.tracking.states[b := w.tracking.Lookup(b).(state := state)]), b);
  }

  lemma SetUavShaped(buffers: set<Buffer>, k: BufferTracking, b: Buffer, permanentState: States, enabled: bool)
    requires Shaped(k, b, permanentState)
    ensures var r := SetEnableUavBarriers(k, b, enabled);
            && OnlyChanges(buffers, k, r, b) && Shaped(r, b, permanentState) && Start(r, b) == Start(k, b)
            && r.Lookup(b).state == k.Lookup(b).state
  {
  }

  lemma SetUavKeeps(w: World, b: Buffer, enabled: bool)
    requires Inv(w) && Legal(w, Event.SetUavEvent(b, enabled))
    ensures var r := Step(w, Event.SetUavEvent(b, enabled)); Inv(r) && (Consistent(w) ==> Consistent(r))
  {
    assert Consistent(w) ==> Truthful(w, b);
    SetUavShaped(w.permanents.Keys, w.tracking, b, w.permanents[b], enabled);
    UpdateOne(w, SetEnableUavBarriers(w.tracking, b, enabled), b);
  }

  // A commit of a consistent world fits and takes every buffer to its tracked state.
  lemma CommitKeeps(w: World)
    requires Inv(w)
    ensures var r := Commit(w);
            && Inv(r) && (Consistent(w) ==> Consistent(r))
            && forall b :: b in w.permanents ==>
                 && (Own(w.tracking.pending, b) == [] ==> r.device[b] == w.device[b])
                 && (Consistent(w) && Own(w.tracking.pending, b) != [] ==> r.device[b] == w.tracking.Lookup(b).state)
  {
    var r := Commit(w);
    forall b | b in w.permanents
      ensures Shaped(r.tracking, b, w.permanents[b])
      ensures Own(w.tracking.pending, b) == [] ==> r.device[b] == w.device[b]
      ensures Consistent(w) ==> Truthful(r, b) && Executed(Own(w.tracking.pending, b), w.device[b]).Some?
      ensures Consistent(w) && Own(w.tracking.pending, b) != [] ==> r.device[b] == w.tracking.Lookup(b).state
    {
      assert Shaped(w.tracking, b, w.permanents[b]);
      assert Consistent(w) ==> Truthful(w, b);
    }
  }

  // ---------- Closing ----------

  // The state closing leaves a tracked buffer in, from its barriers and record.
  function Returned(k: BufferTracking, b: Buffer, permanentState: States): States {
    if !b.desc.keepInitialState || !IsTrackable(b, permanentState) then k.Lookup(b).state
    else if Own(k.pending, b) == [] then b.desc.initialState
    else k.Lookup(b).state + b.desc.initialState
  }

  lemma KeepOne(k: BufferTracking, b: Buffer, permanentState: States)
    requires Shaped(k, b, permanentState) && (b.desc.keepInitialState ==> b.desc.initialState != UNKNOWN)
    ensures var r := KeepInitialState(k, b, permanentState);
            Shaped(r, b, permanentState) && Start(r, b) == Start(k, b) && r.Lookup(b).state == Returned(k, b, permanentState)
  {
    if b.desc.keepInitialState {
      RequireShaped(k, b, permanentState, b.desc.initialState);
    }
  }

  lemma KeepOther(k: BufferTracking, x: Buffer, permanentState: States, b: Buffer)
    requires x != b
    ensures var r := KeepInitialState(k, x, permanentState);
            Own(r.pending, b) == Own(k.pending, b) && r.Lookup(b) == k.Lookup(b)
  {
    RequireFrame(k, x, permanentState, x.desc.initialState, b);
  }

  lemma {:induction false} KeepAll(k: BufferTracking, order: seq<Buffer>, permanents: map<Buffer, States>, b: Buffer)
    requires (forall x :: x in order ==> x in permanents) && b in permanents
    requires forall i, j :: 0 <= i < j < |order| ==> order[i] != order[j]
    requires Shaped(k, b, permanents[b]) && (b.desc.keepInitialState ==> b.desc.initialState != UNKNOWN)
    ensures var r := KeepBuffers(k, order, permanents);
            && Shaped(r, b, permanents[b]) && Start(r, b) == Start(k, b)
            && (b in order ==> r.Lookup(b).state == Returned(k, b, permanents[b]))
            && (b !in order ==> Own(r.pending, b) == Own(k.pending, b) && r.Lookup(b) == k.Lookup(b))
  {
    if order != [] {
      var rest, last := order[..|order| - 1], order[|order| - 1];
      KeepAll(k, rest, permanents, b);
      var before := KeepBuffers(k, rest, permanents);
      if last == b {
        KeepOne(before, b, permanents[b]);
      } else {
        KeepOther(before, last, permanents[last], b);
        assert b in order <==> b in rest;
      }
    }
  }

  lemma {:induction false} KeepTyped(k: BufferTracking, order: seq<Buffer>, permanents: map<Buffer, States>)
    requires (forall x :: x in order ==> x in permanents && x in k.states)
    requires (forall x :: x in k.pending ==> x.buffer in permanents)
    ensures var r := KeepBuffers(k, order, permanents);
            r.states.Keys == k.states.Keys && forall x :: x in r.pending ==> x.buffer in permanents
  {
    if order != [] {
      var rest, last := order[..|order| - 1], order[|order| - 1];
      KeepTyped(k, rest, permanents);
      RequireOnlyChanges(permanents.Keys, KeepBuffers(k, rest, permanents), last, permanents[last], last.desc.initialState);
    }
  }

  lemma KeptKeeps(w: World, order: seq<Buffer>)
    requires Inv(w) && Legal(w, CloseEvent(order))
    ensures var r := Kept(w, order);
            && Inv(r) && (Consistent(w) ==> Consistent(r))
            && forall b :: b in w.permanents ==>
                 && (b in w.tracking.states ==> r.tracking.Lookup(b).state == Returned(w.tracking, b, w.permanents[b]))
                 && (!IsTrackable(b, w.permanents[b]) ==> Own(r.tracking.pending, b) == [])
  {
    var r := Kept(w, order);
    KeepTyped(w.tracking, order, w.permanents);
    forall b | b in w.permanents
      ensures Shaped(r.tracking, b, w.permanents[b])
      ensures b in w.tracking.states ==> r.tracking.Lookup(b).state == Returned(w.tracking, b, w.permanents[b])
      ensures Consistent(w) ==> Truthful(r, b)
    {
      assert Shaped(w.tracking, b, w.permanents[b]);
      assert Consistent(w) ==> Truthful(w, b);
      KeepAll(w.tracking, order, w.permanents, b);
      KeepKnown(w.tracking, b, w.permanents[b]);
    }
  }

  // Closing makes no unknown state known, and no known one unknown.
  lemma KeepKnown(k: BufferTracking, b: Buffer, permanentState: States)
    requires Shaped(k, b, permanentState) && (b.desc.keepInitialState ==> b.desc.initialState != UNKNOWN)
    ensures k.Lookup(b).state == UNKNOWN <==> Returned(k, b, permanentState) == UNKNOWN
  {
  }

  lemma CommitAndClose(w: World)
    requires Inv(w)
    ensures var r := Commit(w).(closed := true); Inv(r) && (Consistent(w) ==> Consistent(r))
  {
    CommitKeeps(w);
    MarkClosed(Commit(w));
  }

  lemma MarkClosed(w: World)
    requires Inv(w) && w.tracking.pending == []
    ensures var r := w.(closed := true); Inv(r) && (Consistent(w) ==> Consistent(r))
  {
    var r := w.(closed := true);
    assert Consistent(w) ==> forall b :: b in r.permanents ==> Truthful(w, b) && Truthful(r, b);
  }

  lemma CloseKeeps(w: World, order: seq<Buffer>)
    requires Inv(w) && Legal(w, CloseEvent(order))
    ensures var r := Closed(w, order);
            && Inv(r) && (Consistent(w) ==> Consistent(r))
            && forall b :: b in w.tracking.states ==>
                 r.tracking.Lookup(b).state == Returned(w.tracking, b, w.permanents[b])
  {
    KeptKeeps(w, order);
    CommitAndClose(Kept(w, order));
  }

  // ---------- Submission ----------

  lemma {:induction false} SubmitBuffersAt(permanents: map<Buffer, States>, announced: seq<(Buffer, States)>, b: Buffer)
    requires (forall p :: p in announced ==> p.0 in permanents && p.1 != UNKNOWN) && b in permanents
    ensures var first := FirstAnnounced(announced, b);
            && SubmitBuffers(permanents, announced)[b] == (if permanents[b] != UNKNOWN || first == None then permanents[b] else first.value)
            && (first.Some? ==> first.value != UNKNOWN && exists p :: p in announced && p.0 == b)
  {
    if announced != [] {
      var rest, last := announced[..|announced| - 1], announced[|announced| - 1];
      assert announced == rest + [last];
      SubmitBuffersAt(permanents, rest, b);
      FirstAnnouncedPush(rest, last, b);
    }
  }

  lemma SubmitKeeps(w: World)
    requires Inv(w) && Legal(w, SubmitEvent)
    ensures Inv(Step(w, SubmitEvent))
  {
  }

  // The buffers a list should leave in their initial states: those it tracks, keeps and
  // does not make permanent.
  predicate IsDue(w: World, b: Buffer)
    requires Typed(w)
  {
    && b in w.tracking.states && b.desc.keepInitialState && IsTrackable(b, w.permanents[b])
    && FirstAnnounced(w.announced, b) == None
  }

  ghost predicate AllReturned(w: World)
    requires Typed(w)
  {
    forall b :: b in w.tracking.states && IsDue(w, b) ==> w.tracking.Lookup(b).state == b.desc.initialState
  }

  lemma SubmitConsistentIff(w: World)
    requires Inv(w) && Legal(w, SubmitEvent) && Consistent(w)
    ensures Inv(Step(w, SubmitEvent))
    ensures Consistent(Step(w, SubmitEvent)) <==> AllReturned(w)
  {
    SubmitKeeps(w);
    var r := Step(w, SubmitEvent);
    forall b | b in w.permanents
      ensures Truthful(r, b) <==> (IsDue(w, b) ==> w.tracking.Lookup(b).state == b.desc.initialState)
    {
      SubmitBuffersAt(w.permanents, w.announced, b);
      assert Truthful(w, b) && Shaped(w.tracking, b, w.permanents[b]);
    }
  }

  // The condition of CloseReturnsToInitialIff, for every such buffer.
  ghost predicate ClosesWell(w: World)
    requires Typed(w)
  {
    forall b :: b in w.tracking.states && IsDue(w, b) ==>
      Own(w.tracking.pending, b) == [] || w.tracking.Lookup(b).state <= b.desc.initialState
  }

  lemma AllReturnedIff(w: World, r: World)
    requires Inv(w) && Typed(r)
    requires r.permanents == w.permanents && r.announced == w.announced && r.tracking.states.Keys == w.tracking.states.Keys
    requires forall b :: b in w.tracking.states ==> r.tracking.Lookup(b).state == Returned(w.tracking, b, w.permanents[b])
    ensures ClosesWell(w) <==> AllReturned(r)
  {
    forall b | b in w.tracking.states && IsDue(w, b)
      ensures r.tracking.Lookup(b).state == b.desc.initialState
              <==> Own(w.tracking.pending, b) == [] || w.tracking.Lookup(b).state <= b.desc.initialState
    {
      assert r.tracking.Lookup(b).state == Returned(w.tracking, b, w.permanents[b]);
    }
    assert forall b :: b in w.tracking.states ==> (IsDue(w, b) <==> IsDue(r, b));
  }

  lemma ClosesWellIff(w: World, order: seq<Buffer>)
    requires Inv(w) && Legal(w, CloseEvent(order))
    ensures Inv(Step(w, CloseEvent(order)))
    ensures ClosesWell(w) <==> AllReturned(Step(w, CloseEvent(order)))
  {
    CloseKeeps(w, order);
    KeepTyped(w.tracking, order, w.permanents);
    AllReturnedIff(w, Step(w, CloseEvent(order)));
  }

  lemma StepKeeps(w: World, e: Event)
    requires Inv(w) && Legal(w, e)
    ensures Inv(Step(w, e))
    ensures Consistent(w) && !e.SubmitEvent? ==> Consistent(Step(w, e))
  {
    match e
    case RequireEvent(b, state) => RequireKeeps(w, b, state);
    case PermanentEvent(b, state) =>
      RequireKeeps(w, b, state);
      AnnounceKeeps(w.(tracking := Require(w.tracking, b, w.permanents[b], state)), b, state);
    case BeginEvent(b, state) => BeginKeeps(w, b, state);
    case SetUavEvent(b, enabled) => SetUavKeeps(w, b, enabled);
    case CommitEvent => CommitKeeps(w);
    case CloseEvent(order) => CloseKeeps(w, order);
    case SubmitEvent => SubmitKeeps(w);
  }

  // ---------- Runs ----------

  ghost predicate Goes(w: World, e: Event, r: World) {
    Legal(w, e) && r == Step(w, e)
  }

  ghost predicate Follows(worlds: seq<World>, events: seq<Event>, i: nat)
    requires i < |events| && i + 1 < |worlds|
  {
    Goes(worlds[i], events[i], worlds[i + 1])
  }

  // The worlds before, between and after a sequence of legal events.
  ghost predicate IsRun(worlds: seq<World>, events: seq<Event>) {
    && |worlds| == |events| + 1
    && Init(worlds[0])
    && forall i: nat :: i < |events| ==> Follows(worlds, events, i)
  }

  lemma RunStep(worlds: seq<World>, events: seq<Event>, i: nat)
    requires IsRun(worlds, events) && i < |events| && Inv(worlds[i])
    ensures Inv(worlds[i + 1])
    ensures Consistent(worlds[i]) && !events[i].SubmitEvent? ==> Consistent(worlds[i + 1])
  {
    assert Follows(worlds, events, i);
    StepKeeps(worlds[i], events[i]);
  }

  lemma {:induction false} RunKeepsInvariant(worlds: seq<World>, events: seq<Event>, n: nat)
    requires IsRun(worlds, events) && n < |worlds|
    ensures Inv(worlds[n])
  {
    if n == 0 {
      InitConsistent(worlds[0]);
    } else {
      RunKeepsInvariant(worlds, events, n - 1);
      RunStep(worlds, events, n - 1);
    }
  }

  ghost predicate ConsistentUpTo(worlds: seq<World>, n: nat) {
    forall m :: 0 <= m <= n && m < |worlds| ==> Typed(worlds[m]) && Consistent(worlds[m])
  }

  // Every list that was closed and submitted by then met the condition when it was closed.
  ghost predicate ClosedWellUpTo(worlds: seq<World>, events: seq<Event>, n: nat) {
    forall i :: 0 <= i && i + 2 <= n && n < |worlds| && i < |events| && events[i].CloseEvent? ==> Typed(worlds[i]) && ClosesWell(worlds[i])
  }

  // A world is closed by the event before it.
  lemma ClosedByEvent(worlds: seq<World>, events: seq<Event>, n: nat)
    requires IsRun(worlds, events) && n < |events|
    ensures worlds[n].closed ==> 0 < n && events[n - 1].CloseEvent?
    ensures events[n].SubmitEvent? <==> worlds[n].closed
    ensures 0 < n && events[n - 1].CloseEvent? ==> worlds[n].closed
  {
    assert Follows(worlds, events, n);
    assert 0 < n ==> Follows(worlds, events, n - 1);
  }

  // A list that is closed and submitted.
  lemma CloseAndSubmitIff(w: World, order: seq<Buffer>)
    requires Inv(w) && Legal(w, CloseEvent(order)) && Inv(Closed(w, order)) && Consistent(Closed(w, order))
    ensures Legal(Closed(w, order), SubmitEvent)
    ensures var r := Step(Closed(w, order), SubmitEvent); Inv(r) && (Consistent(r) <==> ClosesWell(w))
  {
    ClosesWellIff(w, order);
    SubmitConsistentIff(Closed(w, order));
  }

  lemma RunSubmits(worlds: seq<World>, events: seq<Event>, i: nat)
    requires IsRun(worlds, events) && i + 1 < |events| && events[i].CloseEvent?
    requires Inv(worlds[i]) && Inv(worlds[i + 1]) && Consistent(worlds[i + 1])
    ensures Inv(worlds[i + 2]) && (Consistent(worlds[i + 2]) <==> ClosesWell(worlds[i]))
  {
    ClosedByEvent(worlds, events, i + 1);
    assert Follows(worlds, events, i) && Follows(worlds, events, i + 1);
    CloseAndSubmitIff(worlds[i], events[i].order);
  }

  // The last event of a run keeps consistency, unless it submits a list that closed badly.
  lemma LastKeepsIff(worlds: seq<World>, events: seq<Event>, n: nat)
    requires IsRun(worlds, events) && n < |events|
    requires Inv(worlds[n]) && Consistent(worlds[n])
    ensures Inv(worlds[n + 1])
    ensures Consistent(worlds[n + 1])
            <==> (events[n].SubmitEvent? ==> 0 < n && Typed(worlds[n - 1]) && ClosesWell(worlds[n - 1]))
  {
    if events[n].SubmitEvent? {
      ClosedByEvent(worlds, events, n);
      LastSubmitsIff(worlds, events, n - 1);
    } else {
      RunStep(worlds, events, n);
    }
  }

  lemma LastSubmitsIff(worlds: seq<World>, events: seq<Event>, i: nat)
    requires IsRun(worlds, events) && i + 1 < |events| && events[i].CloseEvent?
    requires Inv(worlds[i + 1]) && Consistent(worlds[i + 1])
    ensures Inv(worlds[i]) && Inv(worlds[i + 2]) && (Consistent(worlds[i + 2]) <==> ClosesWell(worlds[i]))
  {
    RunKeepsInvariant(worlds, events, i);
    RunSubmits(worlds, events, i);
  }

  lemma ClosedWellExtends(worlds: seq<World>, events: seq<Event>, n: nat)
    requires IsRun(worlds, events) && n < |events|
    ensures ClosedWellUpTo(worlds, events, n + 1)
            <==> ClosedWellUpTo(worlds, events, n) && (events[n].SubmitEvent? ==> 0 < n && Typed(worlds[n - 1]) && ClosesWell(worlds[n - 1]))
  {
    ClosedByEvent(worlds, events, n);
  }

  // Over any run: no batch is ever rejected, and what the tracker takes for the state of a
  // buffer always is its state, exactly when every list, at the time it is closed, has no
  // barrier pending for the kept buffers it tracks, or tracks them in part of their
  // initial state, unless it makes them permanent.
  lemma {:induction false} RunIsConsistentIff(worlds: seq<World>, events: seq<Event>, n: nat)
    requires IsRun(worlds, events) && n < |worlds|
    ensures ConsistentUpTo(worlds, n) <==> ClosedWellUpTo(worlds, events, n)
  {
    RunKeepsInvariant(worlds, events, n);
    if n == 0 {
      InitConsistent(worlds[0]);
    } else {
      RunIsConsistentIff(worlds, events, n - 1);
      RunKeepsInvariant(worlds, events, n - 1);
      ClosedWellExtends(worlds, events, n - 1);
      assert ConsistentUpTo(worlds, n) <==> ConsistentUpTo(worlds, n - 1) && Consistent(worlds[n]);
      if ConsistentUpTo(worlds, n - 1) {
        LastKeepsIff(worlds, events, n - 1);
      }
    }
  }

  // Everything an event of a consistent world records fits and leads to the next device.
  lemma RecordedFits(w: World, e: Event)
    requires Inv(w) && Legal(w, e) && Consistent(w)
    ensures Fits(w.device, Recorded(w, e)) && Step(w, e).device == Execute(w.device, Recorded(w, e))
    ensures forall x :: x in Recorded(w, e) ==> x.buffer in w.device
  {
    match e
    case CommitEvent => CommitKeeps(w);
    case CloseEvent(order) =>
      KeptKeeps(w, order);
      CommitKeeps(Kept(w, order));
    case _ =>
  }

  lemma RunFits(worlds: seq<World>, events: seq<Event>, n: nat)
    requires IsRun(worlds, events) && n < |events| && ClosedWellUpTo(worlds, events, n)
    ensures Concerns(worlds[n], events[n])
    ensures var recorded := Recorded(worlds[n], events[n]);
            && Fits(worlds[n].device, recorded) && worlds[n + 1].device == Execute(worlds[n].device, recorded)
            && forall x :: x in recorded ==> x.buffer in worlds[n].device
  {
    RunIsConsistentIff(worlds, events, n);
    RunKeepsInvariant(worlds, events, n);
    assert Follows(worlds, events, n);
    RecordedFits(worlds[n], events[n]);
  }

  lemma ClosedWellBefore(worlds: seq<World>, events: seq<Event>, n: nat)
    requires IsRun(worlds, events) && n < |events| && ClosedWellUpTo(worlds, events, n + 1)
    ensures ClosedWellUpTo(worlds, events, n)
  {
    ClosedWellExtends(worlds, events, n);
  }

  // ---------- Permanent states ----------

  // No event moves a buffer that has a permanent state, or gives it another one.
  lemma StepFreezes(w: World, e: Event, b: Buffer)
    requires Inv(w) && Legal(w, e) && b in w.permanents && w.permanents[b] != UNKNOWN
    ensures var r := Step(w, e);
            b in r.permanents && b in r.device && r.permanents[b] == w.permanents[b] && r.device[b] == w.device[b]
  {
    assert Shaped(w.tracking, b, w.permanents[b]);
    match e
    case CommitEvent => CommitKeeps(w);
    case CloseEvent(order) =>
      KeptKeeps(w, order);
      CommitKeeps(Kept(w, order));
    case SubmitEvent => SubmitBuffersAt(w.permanents, w.announced, b);
    case _ =>
  }

  lemma RunFreezes(worlds: seq<World>, events: seq<Event>, i: nat, b: Buffer)
    requires IsRun(worlds, events) && i < |events| && Inv(worlds[i])
    requires b in worlds[i].permanents && worlds[i].permanents[b] != UNKNOWN
    ensures b in worlds[i + 1].permanents && worlds[i + 1].permanents[b] == worlds[i].permanents[b]
    ensures b in worlds[i + 1].device && worlds[i + 1].device[b] == worlds[i].device[b]
  {
    assert Follows(worlds, events, i);
    StepFreezes(worlds[i], events[i], b);
  }

  lemma {:induction false} PermanentForEver(worlds: seq<World>, events: seq<Event>, i: nat, n: nat, b: Buffer)
    requires IsRun(worlds, events) && i <= n < |worlds|
    requires b in worlds[i].permanents && b in worlds[i].device && worlds[i].permanents[b] != UNKNOWN
    ensures b in worlds[n].permanents && worlds[n].permanents[b] == worlds[i].permanents[b]
    ensures b in worlds[n].device && worlds[n].device[b] == worlds[i].device[b]
  {
    if i < n {
      PermanentForEver(worlds, events, i, n - 1, b);
      RunKeepsInvariant(worlds, events, n - 1);
      RunFreezes(worlds, events, n - 1, b);
    }
  }

  // With the world as it is when the list is closed: the announced state is the one the
  // buffer is left in.
  predicate Survives(w: World, b: Buffer, state: States)
    requires b in w.permanents && b in w.device
  {
    if !IsTrackable(b, w.permanents[b]) then w.device[b] == state
    else if !b.desc.keepInitialState then w.tracking.Lookup(b).state == state
    else if Own(w.tracking.pending, b) == [] then b.desc.initialState == state
    else w.tracking.Lookup(b).state + b.desc.initialState == state
  }

  lemma SurvivesIff(w: World, order: seq<Buffer>, b: Buffer, state: States)
    requires Inv(w) && Legal(w, CloseEvent(order)) && Consistent(w)
    requires b in w.permanents && FirstAnnounced(w.announced, b) == Some(state)
    ensures b in Step(w, CloseEvent(order)).device
    ensures Step(w, CloseEvent(order)).device[b] == state <==> Survives(w, b, state)
  {
    var kept := Kept(w, order);
    KeptKeeps(w, order);
    CommitKeeps(kept);
    SubmitBuffersAt(w.permanents, w.announced, b);
    assert Truthful(kept, b) && Shaped(w.tracking, b, w.permanents[b]);
    KeepKnown(w.tracking, b, w.permanents[b]);
  }

  lemma BecomesPermanent(w: World, order: seq<Buffer>, b: Buffer, state: States)
    requires Inv(w) && Legal(w, CloseEvent(order)) && Consistent(w)
    requires b in w.permanents && w.permanents[b] == UNKNOWN && FirstAnnounced(w.announced, b) == Some(state)
    ensures Legal(Closed(w, order), SubmitEvent) && state != UNKNOWN
    ensures var r := Step(Closed(w, order), SubmitEvent);
            && b in r.permanents && r.permanents[b] == state
            && b in r.device && (r.device[b] == state <==> Survives(w, b, state))
  {
    CloseKeeps(w, order);
    SurvivesIff(w, order, b, state);
    SubmitBuffersAt(w.permanents, w.announced, b);
  }

  lemma RunMakesPermanent(worlds: seq<World>, events: seq<Event>, i: nat, b: Buffer, state: States)
    requires IsRun(worlds, events) && i + 1 < |events| && events[i].CloseEvent?
    requires Inv(worlds[i]) && Consistent(worlds[i])
    requires b in worlds[i].permanents && worlds[i].permanents[b] == UNKNOWN && FirstAnnounced(worlds[i].announced, b) == Some(state)
    ensures state != UNKNOWN && b in worlds[i + 2].permanents && worlds[i + 2].permanents[b] == state
    ensures b in worlds[i + 2].device && (worlds[i + 2].device[b] == state <==> Survives(worlds[i], b, state))
  {
    ClosedByEvent(worlds, events, i + 1);
    assert Follows(worlds, events, i) && Follows(worlds, events, i + 1);
    BecomesPermanent(worlds[i], events[i].order, b, state);
  }

  // Over any run whose world is consistent when a list is closed: the state announced
  // first for a buffer becomes permanent when the list is submitted, and from then on it
  // is the actual state exactly when it survives the closing of the list.
  lemma PermanentIsActualIff(worlds: seq<World>, events: seq<Event>, i: nat, n: nat, b: Buffer, state: States)
    requires IsRun(worlds, events) && i + 2 <= n < |worlds| && events[i].CloseEvent?
    requires Typed(worlds[i]) && Consistent(worlds[i])
    requires b in worlds[i].permanents && worlds[i].permanents[b] == UNKNOWN && FirstAnnounced(worlds[i].announced, b) == Some(state)
    ensures b in worlds[n].permanents && worlds[n].permanents[b] == state
    ensures b in worlds[n].device && (worlds[n].device[b] == state <==> Survives(worlds[i], b, state))
  {
    RunKeepsInvariant(worlds, events, i);
    RunMakesPermanent(worlds, events, i, b, state);
    PermanentForEver(worlds, events, i + 2, n, b);
  }

  // Volatile and CPU-visible buffers are never moved by any run.
  lemma {:induction false} OthersAreNeverMoved(worlds: seq<World>, events: seq<Event>, n: nat, b: Buffer)
    requires IsRun(worlds, events) && n < |worlds| && b in worlds[0].permanents && b in worlds[0].device
    requires b.desc.isVolatile || b.desc.cpuAccess != NoAccess
    ensures b in worlds[n].device && worlds[n].device[b] == worlds[0].device[b]
    ensures b in worlds[n].permanents && Own(worlds[n].tracking.pending, b) == []
  {
    RunKeepsInvariant(worlds, events, n);
    if n != 0 {
      OthersAreNeverMoved(worlds, events, n - 1, b);
      RunKeepsInvariant(worlds, events, n - 1);
      RunLeaves(worlds, events, n - 1, b);
    }
    assert Shaped(worlds[n].tracking, b, worlds[n].permanents[b]);
  }

  lemma RunLeaves(worlds: seq<World>, events: seq<Event>, i: nat, b: Buffer)
    requires IsRun(worlds, events) && i < |events| && Inv(worlds[i])
    requires b in worlds[i].permanents && (b.desc.isVolatile || b.desc.cpuAccess != NoAccess)
    ensures b in worlds[i + 1].permanents && b in worlds[i + 1].device && worlds[i + 1].device[b] == worlds[i].device[b]
  {
    assert Follows(worlds, events, i);
    StepLeaves(worlds[i], events[i], b);
  }

  lemma StepLeaves(w: World, e: Event, b: Buffer)
    requires Inv(w) && Legal(w, e) && b in w.permanents && (b.desc.isVolatile || b.desc.cpuAccess != NoAccess)
    ensures var r := Step(w, e); b in r.permanents && b in r.device && r.device[b] == w.device[b]
  {
    assert Shaped(w.tracking, b, w.permanents[b]);
    match e
    case CommitEvent => CommitKeeps(w);
    case CloseEvent(order) =>
      KeptKeeps(w, order);
      CommitKeeps(Kept(w, order));
    case _ =>
  }

  // Submission reports an error exactly when some announced state did not become, or stay,
  // the permanent one.
  lemma {:induction false} SubmitReportsIff(permanents: map<Buffer, States>, announced: seq<(Buffer, States)>)
    requires forall p :: p in announced ==> p.0 in permanents && p.1 != UNKNOWN
    ensures SubmitBufferMessages(permanents, announced) == []
            <==> forall p :: p in announced ==> SubmitBuffers(permanents, announced)[p.0] == p.1
  {
    if announced != [] {
      var rest, last := announced[..|announced| - 1], announced[|announced| - 1];
      assert announced == rest + [last];
      SubmitReportsIff(permanents, rest);
      SubmitBuffersAt(permanents, rest, last.0);
      forall p | p in rest ensures SubmitBuffers(permanents, announced)[p.0] == SubmitBuffers(permanents, rest)[p.0] {
        SubmitBuffersAt(permanents, rest, p.0);
        AnnouncedIsFirst(rest, p);
      }
    }
  }

  lemma {:induction false} AnnouncedIsFirst(announced: seq<(Buffer, States)>, p: (Buffer, States))
    requires p in announced
    ensures FirstAnnounced(announced, p.0).Some?
  {
    if announced[0].0 != p.0 {
      AnnouncedIsFirst(announced[1..], p);
    }
  }

  // A requirement reports an unknown state exactly when it concerns a buffer the tracker
  // moves, and would move from a state nobody told.
  lemma RequireReportsIff(k: BufferTracking, b: Buffer, permanentState: States, state: States)
    ensures RequireBufferMessages(k, b, permanentState, state) == [UnknownBufferState(b)]
            <==> !b.desc.isVolatile && b.desc.cpuAccess == NoAccess && permanentState == UNKNOWN && k.Lookup(b).state == UNKNOWN
    ensures RequireBufferMessages(k, b, permanentState, state) == []
            <==> b.desc.isVolatile || (if permanentState != UNKNOWN then state <= permanentState
                                       else b.desc.cpuAccess != NoAccess || k.Lookup(b).state != UNKNOWN)
  {
  }

  // ---------- In terms of the requirements since the last commit ----------

  predicate InBatch(permanents: map<Buffer, States>, e: Event) {
    (e.RequireEvent? || e.PermanentEvent? || e.SetUavEvent?) && e.buffer in permanents
  }

  predicate AreBatch(permanents: map<Buffer, States>, events: seq<Event>) {
    forall e :: e in events ==> InBatch(permanents, e)
  }

  // What these events are to the tracker of buffers.
  function Translated(permanents: map<Buffer, States>, e: Event): BufferEvent
    requires InBatch(permanents, e)
  {
    if e.SetUavEvent? then BufferEvent.SetUavEvent(e.buffer, e.enabled)
    else BufferEvent.RequireEvent(e.buffer, permanents[e.buffer], e.state)
  }

  function Batch(permanents: map<Buffer, States>, events: seq<Event>): seq<BufferEvent>
    requires AreBatch(permanents, events)
  {
    if events == [] then []
    else
      var e := events[|events| - 1];
      assert e in events;
      Batch(permanents, events[..|events| - 1]) + [Translated(permanents, e)]
  }

  lemma BatchPush(permanents: map<Buffer, States>, k: BufferTracking, events: seq<Event>, e: Event)
    requires AreBatch(permanents, events) && InBatch(permanents, e)
    ensures AreBatch(permanents, events + [e])
    ensures BufferStates.Run(k, Batch(permanents, events + [e]))
            == BufferStates.Step(BufferStates.Run(k, Batch(permanents, events)), Translated(permanents, e))
  {
    assert (events + [e])[..|events|] == events;
    var batch := Batch(permanents, events);
    assert (batch + [Translated(permanents, e)])[..|batch|] == batch;
  }

  lemma BatchStep(w: World, e: Event)
    requires Legal(w, e) && InBatch(w.permanents, e)
    ensures var r := Step(w, e);
            r.permanents == w.permanents && r.tracking == BufferStates.Step(w.tracking, Translated(w.permanents, e))
  {
  }

  lemma PrefixIsBatch(permanents: map<Buffer, States>, rest: seq<Event>, e: Event)
    requires AreBatch(permanents, rest + [e])
    ensures AreBatch(permanents, rest)
  {
    assert forall x :: x in rest ==> x in rest + [e];
  }

  lemma BatchLast(start: World, w: World, rest: seq<Event>, e: Event)
    requires AreBatch(start.permanents, rest) && AreBatch(start.permanents, rest + [e])
    requires Legal(w, e) && w.permanents == start.permanents
    requires w.tracking == BufferStates.Run(start.tracking, Batch(start.permanents, rest))
    ensures var r := Step(w, e);
            r.permanents == start.permanents && r.tracking == BufferStates.Run(start.tracking, Batch(start.permanents, rest + [e]))
  {
    assert e in rest + [e];
    BatchPush(start.permanents, start.tracking, rest, e);
    BatchStep(w, e);
  }

  lemma {:induction false} BatchRuns(worlds: seq<World>, events: seq<Event>, from: nat, to: nat)
    requires IsRun(worlds, events) && from <= to < |worlds|
    requires AreBatch(worlds[from].permanents, events[from..to])
    ensures worlds[to].permanents == worlds[from].permanents
    ensures worlds[to].tracking == BufferStates.Run(worlds[from].tracking, Batch(worlds[from].permanents, events[from..to]))
  {
    if from == to {
      assert events[from..to] == [];
    } else {
      var rest, e := events[from..to - 1], events[to - 1];
      assert events[from..to] == rest + [e];
      PrefixIsBatch(worlds[from].permanents, rest, e);
      BatchRuns(worlds, events, from, to - 1);
      assert Follows(worlds, events, to - 1);
      BatchLast(worlds[from], worlds[to - 1], rest, e);
    }
  }

  // From the last commit on, or from the opening of the list: the announced state
  // survives exactly when it is what the requirements since then add up to, from the first
  // that was due, together with the initial state; and when none was due, whatever was
  // required before the commit, only the initial state itself survives.
  lemma SurvivesByDemand(worlds: seq<World>, events: seq<Event>, commit: nat, i: nat, b: Buffer, state: States)
    requires IsRun(worlds, events) && commit <= i < |worlds| && worlds[commit].tracking.pending == []
    requires AreBatch(worlds[commit].permanents, events[commit..i])
    requires b in worlds[i].permanents && b in worlds[i].device && IsTrackable(b, worlds[i].permanents[b])
    ensures var d := Demanded(worlds[commit].tracking.Lookup(b), Batch(worlds[commit].permanents, events[commit..i]), b);
            Survives(worlds[i], b, state) <==> ClosedState(b.desc, d) == state
  {
    BatchRuns(worlds, events, commit, i);
    RunMeetsDemand(worlds[commit].tracking, Batch(worlds[commit].permanents, events[commit..i]), b);
  }

  // ---------- Concrete runs ----------

  const KEPT_COPY_DEST := BufferDesc(false, NoAccess, {CopyDest}, true)

  // A record without UAV settings, the only one.
  function TrackedIn(b: Buffer, state: States, pending: seq<BufferBarrier>): BufferTracking {
    BufferTracking(map[b := BufferState(state, true, false, false)], pending)
  }

  function Fresh(b: Buffer, actual: States): World {
    World(map[b := UNKNOWN], NOTHING_TRACKED, [], map[b := actual], false, false)
  }

  lemma RunOn(worlds: seq<World>, events: seq<Event>, e: Event, r: World)
    requires IsRun(worlds, events) && Goes(worlds[|events|], e, r)
    ensures IsRun(worlds + [r], events + [e])
  {
    var longer, more := worlds + [r], events + [e];
    forall i: nat | i < |more| ensures Follows(longer, more, i) {
      if i < |events| {
        assert Follows(worlds, events, i);
        assert longer[i] == worlds[i] && longer[i + 1] == worlds[i + 1] && more[i] == events[i];
      }
    }
  }

  lemma FourSteps(w0: World, e0: Event, w1: World, e1: Event, w2: World, e2: Event, w3: World, e3: Event, w4: World)
    requires Init(w0) && Goes(w0, e0, w1) && Goes(w1, e1, w2) && Goes(w2, e2, w3) && Goes(w3, e3, w4)
    ensures IsRun([w0, w1, w2, w3, w4], [e0, e1, e2, e3])
  {
    TwoSteps(w0, e0, w1, e1, w2);
    RunOn([w0, w1, w2], [e0, e1], e2, w3);
    assert [w0, w1, w2] + [w3] == [w0, w1, w2, w3] && [e0, e1] + [e2] == [e0, e1, e2];
    RunOn([w0, w1, w2, w3], [e0, e1, e2], e3, w4);
    assert [w0, w1, w2, w3] + [w4] == [w0, w1, w2, w3, w4] && [e0, e1, e2] + [e3] == [e0, e1, e2, e3];
  }

  lemma TwoSteps(w0: World, e0: Event, w1: World, e1: Event, w2: World)
    requires Init(w0) && Goes(w0, e0, w1) && Goes(w1, e1, w2)
    ensures IsRun([w0, w1, w2], [e0, e1])
  {
    RunOn([w0], [], e0, w1);
    assert [w0] + [w1] == [w0, w1] && [] + [e0] == [e0];
    RunOn([w0, w1], [e0], e1, w2);
    assert [w0, w1] + [w2] == [w0, w1, w2] && [e0] + [e1] == [e0, e1];
  }

  // Requiring another state, with nothing pending.
  lemma RequireAnew(k: BufferTracking, b: Buffer, before: States, state: States)
    requires b.desc == KEPT_COPY_DEST && before != state
    requires k == TrackedIn(b, before, []) || (k == NOTHING_TRACKED && before == {CopyDest})
    ensures Require(k, b, UNKNOWN, state) == TrackedIn(b, state, [BufferBarrier(b, before, state)])
  {
  }

  lemma RequireMerged(b: Buffer, before: States, state: States, more: States)
    requires b.desc == KEPT_COPY_DEST && state != more
    ensures Require(TrackedIn(b, state, [BufferBarrier(b, before, state)]), b, UNKNOWN, more)
            == TrackedIn(b, state + more, [BufferBarrier(b, before, state + more)])
  {
    assert [BufferBarrier(b, before, state)][0 := BufferBarrier(b, before, state + more)] == [BufferBarrier(b, before, state + more)];
  }

  lemma CommitStep(w: World, b: Buffer, before: States, after: States)
    requires Typed(w) && !w.closed && w.device == map[b := before] && w.tracking.pending == [BufferBarrier(b, before, after)]
    ensures Goes(w, CommitEvent, w.(tracking := w.tracking.(pending := []), device := map[b := after]))
  {
    CommitOne(w, b, before, after);
  }

  lemma CommitOne(w: World, b: Buffer, before: States, after: States)
    requires w.device == map[b := before] && w.tracking.pending == [BufferBarrier(b, before, after)]
    ensures Commit(w) == w.(tracking := w.tracking.(pending := []), device := map[b := after])
  {
    OwnPush([], BufferBarrier(b, before, after), b);
    assert [] + [BufferBarrier(b, before, after)] == w.tracking.pending;
  }

  // Closing a list that tracks one buffer.
  lemma CloseOne(w: World, b: Buffer, before: States, after: States)
    requires Typed(w) && !w.closed && w.tracking.states.Keys == {b} && w.device == map[b := before] && b in w.permanents
    requires b.desc == KEPT_COPY_DEST && w.permanents[b] == UNKNOWN && !w.tracking.states[b].permanentTransition
    requires Require(w.tracking, b, UNKNOWN, {CopyDest}) == TrackedIn(b, after, [BufferBarrier(b, before, after)])
    ensures Goes(w, CloseEvent([b]), w.(tracking := TrackedIn(b, after, []), device := map[b := after], closed := true))
  {
    assert [b][..0] == [];
    assert KeepBuffers(w.tracking, [], w.permanents) == w.tracking;
    var kept := Kept(w, [b]);
    assert kept == w.(tracking := TrackedIn(b, after, [BufferBarrier(b, before, after)]));
    CommitOne(kept, b, before, after);
  }

  lemma SubmitOne(w: World, b: Buffer, state: States)
    requires Typed(w) && w.closed && w.permanents == map[b := UNKNOWN] && w.announced == [(b, state)] && w.tracking.pending == []
    ensures Goes(w, SubmitEvent, w.(permanents := map[b := state], tracking := NOTHING_TRACKED, announced := [], closed := false))
  {
    SubmitBuffersAt(w.permanents, w.announced, b);
  }

  lemma SubmitPlain(b: Buffer, actual: States, k: BufferTracking)
    requires k.pending == [] && k.states.Keys == {b}
    ensures Goes(World(map[b := UNKNOWN], k, [], map[b := actual], true, false), SubmitEvent, Fresh(b, actual))
  {
  }

  lemma UseFresh(b: Buffer, actual: States, state: States)
    requires b.desc == KEPT_COPY_DEST && state != {CopyDest} && state != UNKNOWN
    ensures var used := TrackedIn(b, state, [BufferBarrier(b, {CopyDest}, state)]);
            && Goes(Fresh(b, actual), Event.RequireEvent(b, state), Fresh(b, actual).(tracking := used))
            && Goes(Fresh(b, actual), PermanentEvent(b, state), Fresh(b, actual).(tracking := used, announced := [(b, state)]))
  {
    RequireAnew(NOTHING_TRACKED, b, {CopyDest}, state);
  }

  // A kept copy destination is announced as a permanent vertex buffer and copy destination.
  // Nothing is merged and the initial state adds nothing, but the list commits before it
  // is closed: the buffer is permanent in a state it is not in.
  lemma LostByCommitExample(b: Buffer) returns (worlds: seq<World>)
    requires b.desc == KEPT_COPY_DEST
    ensures IsRun(worlds, [PermanentEvent(b, {VertexBuffer, CopyDest}), CommitEvent, CloseEvent([b]), SubmitEvent])
    ensures worlds[4].permanents == map[b := {VertexBuffer, CopyDest}] && worlds[4].device == map[b := {CopyDest}]
  {
    var state, initial := {VertexBuffer, CopyDest}, {CopyDest};
    var w0 := Fresh(b, initial);
    var w1 := w0.(tracking := TrackedIn(b, state, [BufferBarrier(b, initial, state)]), announced := [(b, state)]);
    var w2 := w1.(tracking := TrackedIn(b, state, []), device := map[b := state]);
    var w3 := w2.(tracking := TrackedIn(b, initial, []), device := map[b := initial], closed := true);
    var w4 := w3.(permanents := map[b := state], tracking := NOTHING_TRACKED, announced := [], closed := false);
    UseFresh(b, initial, state);
    CommitStep(w1, b, initial, state);
    RequireAnew(w2.tracking, b, state, initial);
    CloseOne(w2, b, state, initial);
    SubmitOne(w3, b, state);
    FourSteps(w0, PermanentEvent(b, state), w1, CommitEvent, w2, CloseEvent([b]), w3, SubmitEvent, w4);
    worlds := [w0, w1, w2, w3, w4];
  }

  lemma UseAndClose(b: Buffer, state: States) returns (w1: World, w2: World)
    requires b.desc == KEPT_COPY_DEST && CopyDest !in state && state != UNKNOWN
    ensures Goes(Fresh(b, {CopyDest}), Event.RequireEvent(b, state), w1)
    ensures Goes(w1, CloseEvent([b]), w2) && Goes(w2, SubmitEvent, Fresh(b, state + {CopyDest}))
  {
    var both := state + {CopyDest};
    w1 := Fresh(b, {CopyDest}).(tracking := TrackedIn(b, state, [BufferBarrier(b, {CopyDest}, state)]));
    w2 := w1.(tracking := TrackedIn(b, both, []), device := map[b := both], closed := true);
    UseFresh(b, {CopyDest}, state);
    RequireMerged(b, {CopyDest}, state, {CopyDest});
    CloseOne(w1, b, {CopyDest}, both);
    SubmitPlain(b, both, TrackedIn(b, both, []));
  }

  // A kept copy destination is used as a vertex buffer in two lists: the first leaves it in
  // both states, and the barrier of the second does not fit.
  lemma SecondUseExample(b: Buffer) returns (worlds: seq<World>)
    requires b.desc == KEPT_COPY_DEST
    ensures var use := Event.RequireEvent(b, {VertexBuffer});
            IsRun(worlds, [use, CloseEvent([b]), SubmitEvent, use]) && Commit(worlds[4]).rejected
  {
    var both, use := {VertexBuffer} + {CopyDest}, Event.RequireEvent(b, {VertexBuffer});
    var w1, w2 := UseAndClose(b, {VertexBuffer});
    var w4 := Fresh(b, both).(tracking := TrackedIn(b, {VertexBuffer}, [BufferBarrier(b, {CopyDest}, {VertexBuffer})]));
    UseFresh(b, both, {VertexBuffer});
    MisfitIsRejected(w4, b, {CopyDest}, both, {VertexBuffer});
    FourSteps(Fresh(b, {CopyDest}), use, w1, CloseEvent([b]), w2, SubmitEvent, Fresh(b, both), use, w4);
    worlds := [Fresh(b, {CopyDest}), w1, w2, Fresh(b, both), w4];
  }

  lemma MisfitIsRejected(w: World, b: Buffer, before: States, actual: States, after: States)
    requires w.device == map[b := actual] && w.tracking.pending == [BufferBarrier(b, before, after)]
    requires before < actual
    ensures Commit(w).rejected
  {
    OwnPush([], BufferBarrier(b, before, after), b);
    assert [] + [BufferBarrier(b, before, after)] == w.tracking.pending;
    assert Executed(Own(w.tracking.pending, b), actual) == None;
  }
}
