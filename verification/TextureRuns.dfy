/**
 Whole runs of the texture tracker: any number of command lists, each recorded, closed
 (src/d3d12/d3d12-commandlist.cpp, `close`) and submitted before the next one is opened,
 over any number of textures.

 The device executes the barriers of a list when they are committed and rejects one
 whose `stateBefore` is not the actual state. The main theorem, `RunIsConsistent`, says
 that in a legal run no barrier is ever rejected, that tracking of a keepInitialState
 texture always starts from its actual state, and that a permanent state is the actual
 state for ever after.
 */
module TextureRuns {
  import opened Wrappers
  import opened Resources
  import opened ResourceStates
  import opened Subresources
  import opened TextureStates
  import opened TextureTracking

  datatype World = World(
    exts: TextureExts,    // the extension objects, shared by all command lists
    tracking: Tracking,   // the tracker of the list being recorded
    device: Device,       // actual states, after the last commit
    closed: bool,         // the list is closed and waits for submission
    rejected: bool)       // some committed barrier did not fit

  datatype Event =
    | BeginEvent(texture: Texture, subresources: TextureSubresourceSet, state: States)
    | RequireEvent(texture: Texture, subresources: TextureSubresourceSet, state: States)
    | PermanentEvent(texture: Texture, subresources: TextureSubresourceSet, state: States)
    | SetUavEvent(texture: Texture, enabled: bool)
    | CommitEvent
    | CloseEvent(order: seq<Texture>)
    | SubmitEvent

  ghost predicate Typed(w: World) {
    && w.tracking.Valid()
    && w.exts.Keys == w.device.Keys
    && w.tracking.states.Keys <= w.exts.Keys
    && (forall p :: p in w.tracking.permanents ==> p.0 in w.exts)
  }

  ghost predicate Concerns(w: World, e: Event) {
    match e
    case BeginEvent(texture, _, _) => texture in w.exts
    case RequireEvent(texture, _, _) => texture in w.exts
    case PermanentEvent(texture, _, _) => texture in w.exts
    case SetUavEvent(texture, _) => texture in w.exts
    case CommitEvent => true
    case CloseEvent(order) => (forall t :: t in order ==> t in w.tracking.states) && forall t :: t in w.tracking.states ==> t in order
    case SubmitEvent => true
  }

  // The actual states once the pending barriers have executed.
  function Now(w: World): Device {
    var now := Replay(w.device, w.tracking.pending);
    if now.Some? then now.value else w.device
  }

  function Commit(w: World): World {
    w.(tracking := w.tracking.(pending := []),
       device := Now(w),
       rejected := w.rejected || Replay(w.device, w.tracking.pending).None?)
  }

  function Submit(w: World): World
    requires forall p :: p in w.tracking.permanents ==> p.0 in w.exts
  {
    var exts := SubmitPermanents(w.exts, w.tracking.permanents);
    w.(exts := SubmitInitialized(exts, w.tracking.states.Keys),
       tracking := EMPTY.(pending := w.tracking.pending,
                          messages := w.tracking.messages + SubmitMessages(w.exts, w.tracking.permanents)),
       closed := false)
  }

  function Step(w: World, e: Event): World
    requires Typed(w) && Concerns(w, e)
  {
    match e
    case BeginEvent(t, subresources, state) => w.(tracking := w.tracking.Begin(t, w.exts[t], subresources, state))
    case RequireEvent(t, subresources, state) => w.(tracking := w.tracking.Require(t, w.exts[t], subresources, state))
    case PermanentEvent(t, subresources, state) => w.(tracking := w.tracking.SetPermanent(t, w.exts[t], subresources, state))
    case SetUavEvent(t, enabled) => w.(tracking := w.tracking.SetEnableUav(t, w.exts[t], enabled))
    case CommitEvent => Commit(w)
    case CloseEvent(order) => Commit(w.(tracking := w.tracking.KeepInitials(order, w.exts), closed := true))
    case SubmitEvent => Submit(w)
  }

  // The barriers an event hands to the device: those pending at a commit, and with them
  // the returns to initial states when a list is closed.
  function Recorded(w: World, e: Event): seq<TextureBarrier>
    requires Typed(w) && Concerns(w, e)
  {
    match e
    case CommitEvent => w.tracking.pending
    case CloseEvent(order) => w.tracking.KeepInitials(order, w.exts).pending
    case _ => []
  }

  // ---------- The invariant ----------

  // Where the tracker knows a state, it is the actual one.
  predicate Agrees(states: seq<States>, actual: seq<States>) {
    |states| == |actual| && forall i :: 0 <= i < |states| && states[i] != UNKNOWN ==> actual[i] == states[i]
  }

  predicate AllKnown(states: seq<States>) {
    forall i :: 0 <= i < |states| ==> states[i] != UNKNOWN
  }

  // One texture: its extension, its tracking record, the states announced as permanent
  // in the list being recorded, and its actual state once the pending barriers execute.
  ghost predicate Consistent(t: Texture, ext: TextureExt, tracked: Option<TextureState>, announced: set<States>, actual: seq<States>) {
    && |actual| == t.desc.NumSubresources()
    && if ext.permanentState != UNKNOWN then actual == Uniform(|actual|, ext.permanentState)
       else if tracked.None? then
         && announced == {}
         && (t.desc.keepInitialState ==> actual == Uniform(|actual|, StartState(t.desc, ext.stateInitialized)))
       else
         && tracked.value.ValidFor(t.desc)
         && Agrees(Denote(t.desc, tracked.value), actual)
         && (t.desc.keepInitialState ==> AllKnown(Denote(t.desc, tracked.value)))
         && (tracked.value.permanentTransition <==> announced != {})
         && (forall s :: s in announced ==> s != UNKNOWN && Denote(t.desc, tracked.value) == Uniform(|actual|, s))
  }

  // Every texture is consistent with the device `now` that the pending barriers lead to.
  ghost predicate AllConsistent(exts: TextureExts, tracking: Tracking, now: Device) {
    && now.Keys == exts.Keys
    && forall t :: t in exts ==>
         Consistent(t, exts[t], tracking.Tracked(t), Announced(tracking.permanents, t), now[t])
  }

  // A keepInitialState texture has an initial state to keep (src/validation checks it).
  ghost predicate DescsValid(exts: TextureExts) {
    forall t :: t in exts && t.desc.keepInitialState ==> t.desc.initialState != UNKNOWN
  }

  // What closing establishes for a texture it returns to its initial state.
  ghost predicate Returned(t: Texture, ext: TextureExt, tracking: Tracking)
    requires tracking.Valid()
  {
    (t in tracking.states && t.desc.keepInitialState && ext.permanentState == UNKNOWN && !tracking.states[t].permanentTransition)
    ==> Denote(t.desc, tracking.states[t]) == Uniform(t.desc.NumSubresources(), t.desc.initialState)
  }

  ghost predicate Inv(w: World) {
    && Typed(w)
    && DescsValid(w.exts)
    && !w.rejected
    && Replay(w.device, w.tracking.pending).Some?
    && AllConsistent(w.exts, w.tracking, Replay(w.device, w.tracking.pending).value)
    && (forall p :: p in w.tracking.permanents ==> p.1 != UNKNOWN)
    && (w.closed ==> w.tracking.pending == [] && forall t :: t in w.exts ==> Returned(t, w.exts[t], w.tracking))
  }

  ghost predicate Init(w: World) {
    && w.exts.Keys == w.device.Keys
    && DescsValid(w.exts)
    && w.tracking == EMPTY && !w.closed && !w.rejected
    && forall t :: t in w.exts ==>
         && |w.device[t]| == t.desc.NumSubresources()
         && w.exts[t].permanentState == UNKNOWN
         && (t.desc.keepInitialState ==>
               w.device[t] == Uniform(t.desc.NumSubresources(), StartState(t.desc, w.exts[t].stateInitialized)))
  }

  // ---------- Legal runs ----------

  // No other state is announced as permanent for this texture in the list being recorded.
  ghost predicate NoOtherAnnouncement(w: World, t: Texture, state: States) {
    Announced(w.tracking.permanents, t) <= {state}
  }

  // The tracker knows the prior state of everything required, so it reports no error.
  // A texture with keepInitialState is always known, so nothing is asked for it.
  ghost predicate KnownBefore(w: World, t: Texture, subresources: TextureSubresourceSet, state: States)
    requires Typed(w) && t in w.exts
  {
    w.exts[t].permanentState == UNKNOWN && !t.desc.keepInitialState ==>
      RequireState(t, w.tracking.Lookup(t, w.exts[t]), subresources, state).messages == []
  }

  // The range is actually in the given state.
  ghost predicate AlreadyIn(now: Device, t: Texture, subresources: TextureSubresourceSet, state: States) {
    t in now && forall i :: 0 <= i < |now[t]| && Covers(t.desc, subresources, i) ==> now[t][i] == state
  }

  // What the application owes the library: it names real states, tells the truth when
  // it begins tracking by hand, and does not contradict a permanent state it announced
  // earlier in the same list.
  ghost predicate Legal(w: World, e: Event) {
    && Typed(w)
    && Concerns(w, e)
    && match e
       case BeginEvent(t, subresources, state) =>
         && !w.closed && state != UNKNOWN
         && AlreadyIn(Now(w), t, subresources, state)
       case RequireEvent(t, subresources, state) =>
         !w.closed && state != UNKNOWN && NoOtherAnnouncement(w, t, state) && KnownBefore(w, t, subresources, state)
       case PermanentEvent(t, subresources, state) =>
         !w.closed && state != UNKNOWN && NoOtherAnnouncement(w, t, state) && KnownBefore(w, t, subresources, state)
       case SetUavEvent(t, enabled) => !w.closed
       case CommitEvent => !w.closed
       case CloseEvent(order) => !w.closed
       case SubmitEvent => w.closed
  }

  // ---------- Steps keep the invariant ----------

  // Creating the record of a texture assumes nothing that is not so.
  lemma LookupConsistent(t: Texture, ext: TextureExt, tracking: Tracking, announced: set<States>, actual: seq<States>)
    requires t.desc.keepInitialState ==> t.desc.initialState != UNKNOWN
    requires Consistent(t, ext, tracking.Tracked(t), announced, actual)
    ensures Consistent(t, ext, Some(tracking.Lookup(t, ext)), announced, actual)
  {
  }

  // Requiring a state of one consistent texture leaves it consistent.
  lemma RequireStateConsistent(device: Device, t: Texture, ext: TextureExt, record: TextureState, announced: set<States>,
                               subresources: TextureSubresourceSet, state: States)
    requires t in device && ext.permanentState == UNKNOWN && state != UNKNOWN
    requires Consistent(t, ext, Some(record), announced, device[t])
    requires announced <= {state}
    requires t.desc.keepInitialState || RequireState(t, record, subresources, state).messages == []
    ensures var u := RequireState(t, record, subresources, state);
            var actual := Overwrite(t.desc, device[t], subresources, state);
            && Replay(device, u.barriers) == Some(device[t := actual])
            && Consistent(t, ext, Some(u.tracking), announced, actual)
            && Denote(t.desc, u.tracking) == Overwrite(t.desc, Denote(t.desc, record), subresources, state)
  {
    var states := Denote(t.desc, record);
    RequireReportsIff(t, record, subresources, state);
    forall i | 0 <= i < |device[t]| && Covers(t.desc, subresources, i)
      ensures device[t][i] == states[i]
    {
      assert states[i] != UNKNOWN;
    }
    RequireReplays(device, t, record, subresources, state);
    RequireMeans(t, record, subresources, state);
    var actual := Overwrite(t.desc, device[t], subresources, state);
    forall s | s in announced
      ensures Overwrite(t.desc, states, subresources, state) == Uniform(|actual|, s)
    {
      assert s == state;
    }
  }

  // Changing the record, announcements and actual state of one texture consistently
  // leaves all textures consistent.
  lemma UpdateOne(exts: TextureExts, before: Tracking, after: Tracking, t: Texture, now: Device, actual: seq<States>)
    requires AllConsistent(exts, before, now) && t in exts
    requires t in after.states && after.states == before.states[t := after.states[t]]
    requires forall other :: other in exts && other != t ==>
               Announced(after.permanents, other) == Announced(before.permanents, other)
    requires Consistent(t, exts[t], Some(after.states[t]), Announced(after.permanents, t), actual)
    ensures AllConsistent(exts, after, now[t := actual])
  {
  }

  ghost predicate Ready(exts: TextureExts, device: Device, k: Tracking) {
    && k.Valid()
    && k.states.Keys <= exts.Keys
    && DescsValid(exts)
    && Replay(device, k.pending).Some?
    && AllConsistent(exts, k, Replay(device, k.pending).value)
  }

  lemma RequireKeeps(exts: TextureExts, device: Device, k: Tracking, t: Texture, subresources: TextureSubresourceSet, state: States)
    requires Ready(exts, device, k) && t in exts && state != UNKNOWN
    requires Announced(k.permanents, t) <= {state}
    requires exts[t].permanentState == UNKNOWN && !t.desc.keepInitialState ==>
               RequireState(t, k.Lookup(t, exts[t]), subresources, state).messages == []
    ensures var r := k.Require(t, exts[t], subresources, state);
            && Ready(exts, device, r) && r.permanents == k.permanents
            && (exts[t].permanentState == UNKNOWN ==>
                  && r.states == k.states[t := RequireState(t, k.Lookup(t, exts[t]), subresources, state).tracking]
                  && Denote(t.desc, r.states[t]) == Overwrite(t.desc, Denote(t.desc, k.Lookup(t, exts[t])), subresources, state))
  {
    var r := k.Require(t, exts[t], subresources, state);
    var now := Replay(device, k.pending).value;
    if exts[t].permanentState != UNKNOWN {
      assert forall other :: other in exts ==> r.Tracked(other) == k.Tracked(other);
    } else {
      var record := k.Lookup(t, exts[t]);
      LookupConsistent(t, exts[t], k, Announced(k.permanents, t), now[t]);
      RequireStateConsistent(now, t, exts[t], record, Announced(k.permanents, t), subresources, state);
      ReplayConcat(device, k.pending, RequireState(t, record, subresources, state).barriers);
      UpdateOne(exts, k, r, t, now, Overwrite(t.desc, now[t], subresources, state));
    }
  }

  lemma BeginKeeps(exts: TextureExts, device: Device, k: Tracking, t: Texture, subresources: TextureSubresourceSet, state: States)
    requires Ready(exts, device, k) && t in exts && state != UNKNOWN
    requires AlreadyIn(Replay(device, k.pending).value, t, subresources, state)
    ensures Ready(exts, device, k.Begin(t, exts[t], subresources, state))
  {
    var r := k.Begin(t, exts[t], subresources, state);
    var now := Replay(device, k.pending).value;
    var record := k.Lookup(t, exts[t]);
    LookupConsistent(t, exts[t], k, Announced(k.permanents, t), now[t]);
    BeginTrackingMeans(t.desc, record, subresources, state);
    if exts[t].permanentState == UNKNOWN {
      forall s | s in Announced(k.permanents, t)
        ensures Denote(t.desc, r.states[t]) == Uniform(|now[t]|, s)
      {
        assert Denote(t.desc, record) == Uniform(|now[t]|, s);
      }
    }
    UpdateOne(exts, k, r, t, now, now[t]);
    assert now[t := now[t]] == now;
  }

  lemma SetUavKeeps(exts: TextureExts, device: Device, k: Tracking, t: Texture, enabled: bool)
    requires Ready(exts, device, k) && t in exts
    ensures Ready(exts, device, k.SetEnableUav(t, exts[t], enabled))
  {
    var r := k.SetEnableUav(t, exts[t], enabled);
    var now := Replay(device, k.pending).value;
    LookupConsistent(t, exts[t], k, Announced(k.permanents, t), now[t]);
    UpdateOne(exts, k, r, t, now, now[t]);
    assert now[t := now[t]] == now;
  }

  // Announcing a permanent state, once the texture is in that state everywhere.
  lemma AnnounceKeeps(exts: TextureExts, device: Device, k: Tracking, t: Texture, state: States)
    requires Ready(exts, device, k) && t in exts && state != UNKNOWN
    requires Announced(k.permanents, t) <= {state}
    requires exts[t].permanentState == UNKNOWN ==>
               t in k.states && Denote(t.desc, k.states[t]) == Uniform(t.desc.NumSubresources(), state)
    ensures Ready(exts, device, k.(permanents := k.permanents + [(t, state)],
                                   states := k.states[t := k.Lookup(t, exts[t]).(permanentTransition := true)]))
  {
    var r := k.(permanents := k.permanents + [(t, state)],
                states := k.states[t := k.Lookup(t, exts[t]).(permanentTransition := true)]);
    var now := Replay(device, k.pending).value;
    LookupConsistent(t, exts[t], k, Announced(k.permanents, t), now[t]);
    forall other
      ensures Announced(r.permanents, other) == Announced(k.permanents, other) + (if other == t then {state} else {})
    {
      AnnouncedPush(k.permanents, t, state, other);
    }
    UpdateOne(exts, k, r, t, now, now[t]);
    assert now[t := now[t]] == now;
  }

  lemma PermanentKeeps(exts: TextureExts, device: Device, k: Tracking, t: Texture, subresources: TextureSubresourceSet, state: States)
    requires Ready(exts, device, k) && t in exts && state != UNKNOWN
    requires Announced(k.permanents, t) <= {state}
    requires exts[t].permanentState == UNKNOWN && !t.desc.keepInitialState ==>
               RequireState(t, k.Lookup(t, exts[t]), subresources, state).messages == []
    ensures Ready(exts, device, k.SetPermanent(t, exts[t], subresources, state))
  {
    var resolved := subresources.Resolve(t.desc, false);
    ResolveIdempotent(t.desc, subresources, false);
    if !resolved.IsEntireTexture(t.desc) {
      var reported := k.Report(PartialPermanentTransition(t));
      assert forall other :: reported.Tracked(other) == k.Tracked(other);
      RequireKeeps(exts, device, reported, t, resolved, state);
    } else {
      RequireKeeps(exts, device, k, t, resolved, state);
      EntireTextureIff(t.desc, resolved);
      AnnounceKeeps(exts, device, k.Require(t, exts[t], resolved, state), t, state);
    }
  }

  lemma KeepInitialKeeps(exts: TextureExts, device: Device, k: Tracking, t: Texture)
    requires Ready(exts, device, k) && t in k.states
    ensures var r := k.KeepInitial(t, exts[t]);
            && Ready(exts, device, r) && r.permanents == k.permanents
            && Returned(t, exts[t], r)
            && forall other :: other in k.states && other != t ==> r.states[other] == k.states[other]
  {
    if t.desc.keepInitialState && exts[t].permanentState == UNKNOWN && !k.states[t].permanentTransition {
      assert Consistent(t, exts[t], k.Tracked(t), Announced(k.permanents, t), Replay(device, k.pending).value[t]);
      RequireKeeps(exts, device, k, t, ALL_SUBRESOURCES, t.desc.initialState);
      AllSubresourcesIsEntire(t.desc);
      EntireTextureIff(t.desc, ALL_SUBRESOURCES);
    }
  }

  lemma {:induction false} KeepInitialsKeep(exts: TextureExts, device: Device, k: Tracking, order: seq<Texture>)
    requires Ready(exts, device, k)
    requires forall t :: t in order ==> t in k.states
    ensures var r := k.KeepInitials(order, exts);
            && Ready(exts, device, r) && r.permanents == k.permanents
            && forall t :: t in order ==> Returned(t, exts[t], r)
  {
    if order != [] {
      var rest, last := order[..|order| - 1], order[|order| - 1];
      KeepInitialsKeep(exts, device, k, rest);
      KeepInitialKeeps(exts, device, k.KeepInitials(rest, exts), last);
      assert forall t :: t in order <==> t in rest || t == last;
    }
  }

  lemma CommitKeeps(w: World)
    requires Inv(w)
    ensures Inv(Commit(w))
  {
  }

  lemma CloseKeeps(w: World, order: seq<Texture>)
    requires Inv(w) && Legal(w, CloseEvent(order))
    ensures Inv(Step(w, CloseEvent(order)))
  {
    KeepInitialsKeep(w.exts, w.device, w.tracking, order);
    var kept := w.(tracking := w.tracking.KeepInitials(order, w.exts));
    CommitKeeps(kept);
    var r := Step(w, CloseEvent(order));
    forall t | t in r.exts
      ensures Returned(t, r.exts[t], r.tracking)
    {
      if t in w.tracking.states {
        assert t in order;
        assert Returned(t, w.exts[t], kept.tracking);
      }
    }
    assert r == Commit(kept).(closed := true);
  }

  lemma SubmitKeeps(w: World)
    requires Inv(w) && Legal(w, SubmitEvent)
    ensures Inv(Submit(w))
  {
    var r := Submit(w);
    forall t | t in r.exts
      ensures Consistent(t, r.exts[t], r.tracking.Tracked(t), Announced(r.tracking.permanents, t), w.device[t])
    {
      SubmitPermanentsAt(w.exts, w.tracking.permanents, t);
      assert Consistent(t, w.exts[t], w.tracking.Tracked(t), Announced(w.tracking.permanents, t), w.device[t]);
      assert Returned(t, w.exts[t], w.tracking);
    }
  }

  lemma StepKeeps(w: World, e: Event)
    requires Inv(w) && Legal(w, e)
    ensures Inv(Step(w, e))
  {
    match e
    case BeginEvent(t, subresources, state) => BeginKeeps(w.exts, w.device, w.tracking, t, subresources, state);
    case RequireEvent(t, subresources, state) => RequireKeeps(w.exts, w.device, w.tracking, t, subresources, state);
    case PermanentEvent(t, subresources, state) => PermanentKeeps(w.exts, w.device, w.tracking, t, subresources, state);
    case SetUavEvent(t, enabled) => SetUavKeeps(w.exts, w.device, w.tracking, t, enabled);
    case CommitEvent => CommitKeeps(w);
    case CloseEvent(order) => CloseKeeps(w, order);
    case SubmitEvent => SubmitKeeps(w);
  }

  // ---------- Runs ----------

  // The worlds before, between and after a sequence of legal events.
  ghost predicate IsRun(worlds: seq<World>, events: seq<Event>) {
    && |worlds| == |events| + 1
    && Init(worlds[0])
    && forall i :: 0 <= i < |events| ==> Legal(worlds[i], events[i]) && worlds[i + 1] == Step(worlds[i], events[i])
  }

  lemma InitConsistent(w: World)
    requires Init(w)
    ensures Inv(w)
  {
  }

  lemma {:induction false} RunKeepsInvariant(worlds: seq<World>, events: seq<Event>, n: nat)
    requires IsRun(worlds, events) && n < |worlds|
    ensures Inv(worlds[n])
  {
    if n == 0 {
      InitConsistent(worlds[0]);
    } else {
      RunKeepsInvariant(worlds, events, n - 1);
      StepKeeps(worlds[n - 1], events[n - 1]);
    }
  }

  // Everything an event of a legal run records fits the device and takes it to the next.
  lemma RecordedFits(w: World, e: Event)
    requires Inv(w) && Legal(w, e)
    ensures Replay(w.device, Recorded(w, e)) == Some(Step(w, e).device)
  {
    if e.CloseEvent? {
      KeepInitialsKeep(w.exts, w.device, w.tracking, e.order);
    }
  }

  // A texture that is not tracked is in the state its tracking would start from.
  ghost predicate StartsFromActual(w: World, t: Texture)
    requires t in w.exts && t in Now(w)
  {
    t.desc.keepInitialState && t !in w.tracking.states && w.exts[t].permanentState == UNKNOWN ==>
      Now(w)[t] == Denote(t.desc, NewTracking(t.desc, w.exts[t].stateInitialized))
  }

  // A permanent state is the actual one.
  ghost predicate PermanentIsActual(w: World, t: Texture)
    requires t in w.exts && t in Now(w)
  {
    w.exts[t].permanentState != UNKNOWN ==>
      Now(w)[t] == Uniform(t.desc.NumSubresources(), w.exts[t].permanentState)
  }

  // In every world of every legal run: no barrier was rejected and the pending ones fit;
  // tracking of a keepInitialState texture starts from its actual state; and a permanent
  // texture is in its permanent state.
  lemma RunIsConsistent(worlds: seq<World>, events: seq<Event>, n: nat)
    requires IsRun(worlds, events) && n < |worlds|
    ensures var w := worlds[n];
            && !w.rejected && Replay(w.device, w.tracking.pending).Some?
            && w.exts.Keys == Now(w).Keys
            && forall t :: t in w.exts ==> StartsFromActual(w, t) && PermanentIsActual(w, t)
  {
    RunKeepsInvariant(worlds, events, n);
    var w := worlds[n];
    forall t | t in w.exts
      ensures StartsFromActual(w, t) && PermanentIsActual(w, t)
    {
      assert Consistent(t, w.exts[t], w.tracking.Tracked(t), Announced(w.tracking.permanents, t), Now(w)[t]);
    }
  }

  lemma StepKeepsPermanent(w: World, e: Event, t: Texture)
    requires Inv(w) && Legal(w, e)
    requires t in w.exts && w.exts[t].permanentState != UNKNOWN
    ensures t in Step(w, e).exts && Step(w, e).exts[t].permanentState == w.exts[t].permanentState
  {
    if e.SubmitEvent? {
      SubmitPermanentsAt(w.exts, w.tracking.permanents, t);
    }
  }

  // A permanent state, once acquired, is never given up or exchanged.
  lemma {:induction false} PermanentForEver(worlds: seq<World>, events: seq<Event>, i: nat, n: nat, t: Texture)
    requires IsRun(worlds, events) && i <= n < |worlds|
    requires t in worlds[i].exts && worlds[i].exts[t].permanentState != UNKNOWN
    ensures t in worlds[n].exts && worlds[n].exts[t].permanentState == worlds[i].exts[t].permanentState
  {
    if i < n {
      PermanentForEver(worlds, events, i, n - 1, t);
      RunKeepsInvariant(worlds, events, n - 1);
      StepKeepsPermanent(worlds[n - 1], events[n - 1], t);
    }
  }
}
