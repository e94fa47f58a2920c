/**
 Command lists that are recorded at the same time: each has a tracker of its own
 (src/common/state-tracking.cpp), the extension objects are shared, and a list's barriers
 execute when it is submitted. Tracking of a kept texture starts from what its extension
 object says when the list first uses it (`getTextureStateTracking`), or from where an
 earlier recording of the same list left it, when the list was closed and opened again
 without being executed: `open` does not clear the tracker. Either may not be so any more
 when the list executes.

 `ExecutionFitsIff` says exactly when the barriers of a list fit, `ExecutionIsConsistentIff`
 when the extension objects are right about the device afterwards, and
 `RunIsConsistentIff` when that holds throughout a run.
 */
module InterleavedRuns {
  import opened Wrappers
  import opened Resources
  import opened ResourceStates
  import opened Subresources
  import opened TextureStates
  import opened TextureTracking

  // A list: its tracker, what it has committed, and the states each texture started from.
  datatype Recording = Recording(
    tracking: Tracking,
    recorded: seq<TextureBarrier>,
    assumed: Device,
    closed: bool)

  const NOTHING_RECORDED := Recording(EMPTY, [], map[], false)

  datatype World = World(
    exts: TextureExts,
    device: Device,                // actual states, after the last execution
    lists: map<nat, Recording>,
    rejected: bool)                // some executed barrier did not fit

  datatype Event =
    | RequireEvent(list: nat, texture: Texture, subresources: TextureSubresourceSet, state: States)
    | PermanentEvent(list: nat, texture: Texture, subresources: TextureSubresourceSet, state: States)
    | SetUavEvent(list: nat, texture: Texture, enabled: bool)
    | CommitEvent(list: nat)
    | CloseEvent(list: nat, order: seq<Texture>)
    | ReopenEvent(list: nat)
    | ExecuteEvent(list: nat)

  ghost predicate Legal(w: World, e: Event) {
    && e.list in w.lists
    && (w.lists[e.list].closed <==> e.ReopenEvent? || e.ExecuteEvent?)
    && match e
       case RequireEvent(_, t, _, state) => t in w.exts
       case PermanentEvent(_, t, _, state) => t in w.exts && state != UNKNOWN
       case SetUavEvent(_, t, _) => t in w.exts
       case CloseEvent(l, order) => VisitsOnce(order, w.lists[l].tracking.states.Keys)
       case _ => true
  }

  // The list now tracks like this: what a new record starts from is remembered.
  function Uses(r: Recording, k: Tracking, t: Texture, ext: TextureExt): Recording {
    r.(tracking := k,
       assumed := if t in k.states && t !in r.assumed
                  then r.assumed[t := Denote(t.desc, NewTracking(t.desc, ext.stateInitialized))] else r.assumed)
  }

  function Commit(r: Recording): Recording {
    r.(tracking := r.tracking.(pending := []), recorded := r.recorded + r.tracking.pending)
  }

  // Opened again: nothing is recorded, and the records stay as they are.
  function Reopen(r: Recording): Recording
    requires r.tracking.Valid()
  {
    r.(recorded := [], assumed := Denotes(r.tracking), closed := false)
  }

  function Submitted(exts: TextureExts, k: Tracking): (r: TextureExts)
    requires forall p :: p in k.permanents ==> p.0 in exts
    ensures r.Keys == exts.Keys
  {
    SubmitInitialized(SubmitPermanents(exts, k.permanents), k.states.Keys)
  }

  // commandListSubmitted, after the list's barriers went to the device.
  function Execute(w: World, l: nat): World
    requires l in w.lists && forall p :: p in w.lists[l].tracking.permanents ==> p.0 in w.exts
  {
    var after := Replay(w.device, w.lists[l].recorded);
    World(Submitted(w.exts, w.lists[l].tracking),
          if after.Some? then after.value else w.device,
          w.lists[l := NOTHING_RECORDED],
          w.rejected || after.None?)
  }

  // What an event makes of the list it concerns, execution apart.
  function Next(exts: TextureExts, r: Recording, e: Event): Recording
    requires r.tracking.Valid() && r.tracking.states.Keys <= exts.Keys && !e.ExecuteEvent?
    requires e.RequireEvent? || e.PermanentEvent? || e.SetUavEvent? ==> e.texture in exts
    requires e.CloseEvent? ==> forall t :: t in e.order ==> t in r.tracking.states
  {
    match e
    case RequireEvent(_, t, subresources, state) => Uses(r, r.tracking.Require(t, exts[t], subresources, state), t, exts[t])
    case PermanentEvent(_, t, subresources, state) => Uses(r, r.tracking.SetPermanent(t, exts[t], subresources, state), t, exts[t])
    case SetUavEvent(_, t, enabled) => Uses(r, r.tracking.SetEnableUav(t, exts[t], enabled), t, exts[t])
    case CommitEvent(_) => Commit(r)
    case CloseEvent(_, order) => Commit(r.(tracking := r.tracking.KeepInitials(order, exts), closed := true))
    case ReopenEvent(_) => Reopen(r)
  }

  ghost function Step(w: World, e: Event): World
    requires Inv(w) && Legal(w, e)
  {
    assert RecordingOk(w.exts, w.lists[e.list]);
    if e.ExecuteEvent? then Execute(w, e.list)
    else w.(lists := w.lists[e.list := Next(w.exts, w.lists[e.list], e)])
  }

  // ---------- The same barriers on two devices ----------

  ghost predicate SameShape(a: Device, d: Device) {
    a.Keys <= d.Keys && forall t :: t in a ==> |a[t]| == |d[t]|
  }

  // The devices agree wherever the barriers go.
  ghost predicate AgreeOn(a: Device, d: Device, barriers: seq<TextureBarrier>)
    requires SameShape(a, d)
  {
    forall t, i :: t in a && 0 <= i < |a[t]| && Touches(barriers, t, i) ==> a[t][i] == d[t][i]
  }

  // From where they went on, the second device is as the first, and elsewhere as it was.
  ghost predicate IsOverlay(a: Device, d: Device, barriers: seq<TextureBarrier>, a': Device, d': Device)
    requires SameShape(a, d)
  {
    && a'.Keys == a.Keys && d'.Keys == d.Keys
    && (forall t :: t in a ==> |a'[t]| == |a[t]| && |d'[t]| == |a[t]|)
    && (forall t :: t in d && t !in a ==> d'[t] == d[t])
    && (forall t, i :: t in a && 0 <= i < |a[t]| ==>
          && d'[t][i] == (if Touches(barriers, t, i) then a'[t][i] else d[t][i])
          && (!Touches(barriers, t, i) ==> a'[t][i] == a[t][i]))
  }

  lemma TouchesPush(rest: seq<TextureBarrier>, last: TextureBarrier, t: Texture, i: nat)
    ensures Touches(rest + [last], t, i) <==> Touches(rest, t, i) || BarrierTouches(last, t, i)
  {
  }

  // A barrier that fits the first device fits the second exactly when they agree there.
  lemma ApplyIff(a: Device, d: Device, b: TextureBarrier)
    requires SameShape(a, d) && Apply(a, b).Some?
    requires 0 < |a[b.texture]|
    ensures Apply(d, b).Some? <==> forall i :: 0 <= i < |a[b.texture]| && BarrierTouches(b, b.texture, i) ==> a[b.texture][i] == d[b.texture][i]
  {
    var index := CalcSubresource(b.mipLevel, b.arraySlice, b.texture.desc);
    if Apply(d, b).None? && !b.entireTexture {
      assert BarrierTouches(b, b.texture, index) && a[b.texture][index] != d[b.texture][index];
    }
  }

  lemma OverlayPush(a: Device, d: Device, rest: seq<TextureBarrier>, last: TextureBarrier, va: Device, vd: Device)
    requires SameShape(a, d) && IsOverlay(a, d, rest, va, vd)
    requires Apply(va, last).Some? && Apply(vd, last).Some?
    ensures IsOverlay(a, d, rest + [last], Apply(va, last).value, Apply(vd, last).value)
  {
    forall t, i | t in a && 0 <= i < |a[t]|
      ensures Touches(rest + [last], t, i) <==> Touches(rest, t, i) || BarrierTouches(last, t, i)
    {
      TouchesPush(rest, last, t, i);
    }
  }

  lemma AgreePush(a: Device, d: Device, rest: seq<TextureBarrier>, last: TextureBarrier, va: Device, vd: Device)
    requires SameShape(a, d) && IsOverlay(a, d, rest, va, vd) && AgreeOn(a, d, rest)
    requires last.texture in a
    ensures AgreeOn(a, d, rest + [last])
            <==> forall i :: 0 <= i < |va[last.texture]| && BarrierTouches(last, last.texture, i) ==>
                   va[last.texture][i] == vd[last.texture][i]
  {
    forall t, i | t in a && 0 <= i < |a[t]|
      ensures Touches(rest + [last], t, i) <==> Touches(rest, t, i) || BarrierTouches(last, t, i)
    {
      TouchesPush(rest, last, t, i);
    }
  }

  // Barriers that fit one device fit another exactly when the two agree on every
  // subresource the barriers concern, and then take it to the same states there.
  lemma {:induction false} ReplayElsewhereIff(a: Device, d: Device, barriers: seq<TextureBarrier>)
    requires SameShape(a, d) && (forall t :: t in a ==> 0 < |a[t]|) && Replay(a, barriers).Some?
    ensures Replay(d, barriers).Some? <==> AgreeOn(a, d, barriers)
    ensures Replay(d, barriers).Some? ==> IsOverlay(a, d, barriers, Replay(a, barriers).value, Replay(d, barriers).value)
  {
    if barriers != [] {
      var rest, last := barriers[..|barriers| - 1], barriers[|barriers| - 1];
      assert rest + [last] == barriers;
      ReplayElsewhereIff(a, d, rest);
      if AgreeOn(a, d, rest) {
        var va, vd := Replay(a, rest).value, Replay(d, rest).value;
        ApplyIff(va, vd, last);
        AgreePush(a, d, rest, last, va, vd);
        if Apply(vd, last).Some? {
          OverlayPush(a, d, rest, last, va, vd);
        }
      } else {
        MisfitStays(a, d, rest, last);
      }
    }
  }

  lemma MisfitStays(a: Device, d: Device, rest: seq<TextureBarrier>, last: TextureBarrier)
    requires SameShape(a, d) && !AgreeOn(a, d, rest)
    ensures !AgreeOn(a, d, rest + [last])
  {
    var t, i :| t in a && 0 <= i < |a[t]| && Touches(rest, t, i) && a[t][i] != d[t][i];
    TouchesPush(rest, last, t, i);
  }

  // ---------- The invariant ----------

  predicate IsKept(t: Texture) {
    t.desc.keepInitialState && t.desc.initialState != UNKNOWN
  }

  function Denotes(k: Tracking): Device
    requires k.Valid()
  {
    map t | t in k.states :: Denote(t.desc, k.states[t])
  }

  // On a device in the states assumed, the barriers lead to what is tracked.
  ghost predicate Leads(assumed: Device, barriers: seq<TextureBarrier>, k: Tracking)
    requires k.Valid()
  {
    Replay(assumed, barriers) == Some(Denotes(k))
  }

  ghost predicate ShapeOk(k: Tracking, assumed: Device) {
    && k.Valid() && assumed.Keys == k.states.Keys
    && (forall t :: t in assumed ==> IsKept(t) && |assumed[t]| == t.desc.NumSubresources())
    && (forall t :: t in k.states ==> (k.states[t].permanentTransition <==> FirstAnnounced(k.permanents, t).Some?))
    && (forall p :: p in k.permanents ==> p.0 in k.states && p.1 != UNKNOWN)
  }

  ghost predicate AtInitial(k: Tracking, t: Texture)
    requires k.Valid()
  {
    t in k.states && Denote(t.desc, k.states[t]) == Uniform(t.desc.NumSubresources(), t.desc.initialState)
  }

  // What closing establishes.
  ghost predicate Returned(exts: TextureExts, k: Tracking, t: Texture)
    requires k.Valid()
  {
    t in k.states && t in exts && exts[t].permanentState == UNKNOWN && !k.states[t].permanentTransition ==> AtInitial(k, t)
  }

  ghost predicate RecordingOk(exts: TextureExts, r: Recording) {
    && ShapeOk(r.tracking, r.assumed) && r.tracking.states.Keys <= exts.Keys
    && Leads(r.assumed, r.recorded + r.tracking.pending, r.tracking)
    && (r.closed ==> r.tracking.pending == [] && forall t :: t in r.tracking.states ==> Returned(exts, r.tracking, t))
  }

  ghost predicate Inv(w: World) {
    && w.exts.Keys == w.device.Keys
    && (forall t :: t in w.exts ==> IsKept(t) && |w.device[t]| == t.desc.NumSubresources())
    && (forall l :: l in w.lists ==> RecordingOk(w.exts, w.lists[l]))
  }

  // The state the extension object promises.
  function Promised(t: Texture, ext: TextureExt): States {
    if ext.permanentState != UNKNOWN then ext.permanentState else StartState(t.desc, ext.stateInitialized)
  }

  // The extension objects are right about the device.
  ghost predicate Consistent(w: World)
    requires Inv(w)
  {
    !w.rejected && forall t :: t in w.exts ==> w.device[t] == Uniform(t.desc.NumSubresources(), Promised(t, w.exts[t]))
  }

  // ---------- Recording ----------

  lemma DenotesUpdate(k: Tracking, t: Texture, record: TextureState)
    requires k.Valid() && record.ValidFor(t.desc)
    ensures Denotes(k.(states := k.states[t := record])) == Denotes(k)[t := Denote(t.desc, record)]
  {
  }

  // A texture that takes no part joins both sides.
  lemma ReplayJoin(part: Device, now: Device, barriers: seq<TextureBarrier>, t: Texture, states: seq<States>)
    requires Replay(part, barriers) == Some(now) && t !in part && forall x :: x in part ==> 0 < |part[x]|
    ensures Replay(part[t := states], barriers) == Some(now[t := states])
  {
    var whole := part[t := states];
    ReplayElsewhereIff(part, whole, barriers);
    var after := Replay(whole, barriers).value;
    forall x | x in part ensures after[x] == now[x] {
      assert forall i :: 0 <= i < |part[x]| ==> (if Touches(barriers, x, i) then after[x][i] == now[x][i] else after[x][i] == now[x][i]);
    }
    assert after == now[t := states];
  }

  lemma NoneEmpty(k: Tracking, assumed: Device)
    requires ShapeOk(k, assumed)
    ensures forall x :: x in assumed ==> 0 < |assumed[x]|
  {
  }

  // A texture that was not tracked yet joins the part of the device the list is about.
  lemma TrackLeads(assumed: Device, barriers: seq<TextureBarrier>, k: Tracking, t: Texture, record: TextureState)
    requires k.Valid() && Leads(assumed, barriers, k) && t !in assumed && record.ValidFor(t.desc)
    requires forall x :: x in assumed ==> 0 < |assumed[x]|
    ensures Leads(assumed[t := Denote(t.desc, record)], barriers, k.(states := k.states[t := record]))
  {
    DenotesUpdate(k, t, record);
    ReplayJoin(assumed, Denotes(k), barriers, t, Denote(t.desc, record));
  }

  // More barriers change what is tracked of one texture.
  lemma RequireLeads(assumed: Device, barriers: seq<TextureBarrier>, k: Tracking, t: Texture,
                     record: TextureState, added: seq<TextureBarrier>)
    requires k.Valid() && Leads(assumed, barriers, k) && record.ValidFor(t.desc)
    requires Replay(Denotes(k), added) == Some(Denotes(k)[t := Denote(t.desc, record)])
    ensures Leads(assumed, barriers + added, k.(states := k.states[t := record]))
  {
    ReplayConcat(assumed, barriers, added);
    DenotesUpdate(k, t, record);
  }

  lemma LeadsSame(assumed: Device, barriers: seq<TextureBarrier>, k: Tracking, other: Tracking)
    requires k.Valid() && other.Valid() && other.states == k.states && Leads(assumed, barriers, k)
    ensures Leads(assumed, barriers, other)
  {
  }

  // The record that a list has of a texture once it uses it.
  function Tracked(r: Recording, t: Texture, ext: TextureExt): Recording {
    Uses(r, r.tracking.(states := r.tracking.states[t := r.tracking.Lookup(t, ext)]), t, ext)
  }

  lemma NotAnnounced(k: Tracking, t: Texture)
    requires t !in k.states && forall p :: p in k.permanents ==> p.0 in k.states
    ensures FirstAnnounced(k.permanents, t) == None
  {
    FirstIsAnnounced(k.permanents, t);
  }

  lemma {:induction false} FirstIsAnnounced(permanents: Permanents, t: Texture)
    ensures FirstAnnounced(permanents, t).Some? <==> exists p :: p in permanents && p.0 == t
  {
    if permanents != [] {
      FirstIsAnnounced(permanents[1..], t);
      assert permanents == [permanents[0]] + permanents[1..];
    }
  }

  lemma TrackKeeps(exts: TextureExts, r: Recording, t: Texture)
    requires RecordingOk(exts, r) && !r.closed && IsKept(t) && t in exts
    ensures RecordingOk(exts, Tracked(r, t, exts[t]))
    ensures t in Tracked(r, t, exts[t]).tracking.states && !Tracked(r, t, exts[t]).closed
  {
    if t in r.assumed {
      assert r.tracking.states[t := r.tracking.states[t]] == r.tracking.states;
      assert Tracked(r, t, exts[t]) == r;
    } else {
      NotAnnounced(r.tracking, t);
      NoneEmpty(r.tracking, r.assumed);
      TrackLeads(r.assumed, r.recorded + r.tracking.pending, r.tracking, t, r.tracking.Lookup(t, exts[t]));
    }
  }

  // Requiring a state of a texture that is tracked.
  lemma RequireReplaysDenoted(k: Tracking, t: Texture, subresources: TextureSubresourceSet, state: States)
    requires k.Valid() && t in k.states
    ensures var u := RequireState(t, k.states[t], subresources, state);
            && Replay(Denotes(k), u.barriers) == Some(Denotes(k)[t := Denote(t.desc, u.tracking)])
            && u.tracking.permanentTransition == k.states[t].permanentTransition
  {
    RequireReplays(Denotes(k), t, k.states[t], subresources, state);
    RequireMeans(t, k.states[t], subresources, state);
  }

  // One record was replaced and the barriers that lead there were added.
  lemma UpdatedKeeps(exts: TextureExts, r: Recording, after: Tracking, t: Texture, record: TextureState, added: seq<TextureBarrier>)
    requires RecordingOk(exts, r) && !r.closed && t in r.tracking.states
    requires record.ValidFor(t.desc)
    requires after.states == r.tracking.states[t := record] && after.pending == r.tracking.pending + added
    requires ShapeOk(after, r.assumed)
    requires Replay(Denotes(r.tracking), added) == Some(Denotes(r.tracking)[t := Denote(t.desc, record)])
    ensures RecordingOk(exts, r.(tracking := after))
  {
    var k := r.tracking;
    RequireLeads(r.assumed, r.recorded + k.pending, k, t, record, added);
    assert r.recorded + after.pending == r.recorded + k.pending + added;
    LeadsSame(r.assumed, r.recorded + after.pending, k.(states := k.states[t := record]), after);
  }

  lemma RequireTrackedKeeps(exts: TextureExts, r: Recording, t: Texture, subresources: TextureSubresourceSet, state: States)
    requires RecordingOk(exts, r) && !r.closed && t in r.tracking.states && exts[t].permanentState == UNKNOWN
    ensures RecordingOk(exts, r.(tracking := r.tracking.Require(t, exts[t], subresources, state)))
  {
    var u := RequireState(t, r.tracking.states[t], subresources, state);
    RequireReplaysDenoted(r.tracking, t, subresources, state);
    UpdatedKeeps(exts, r, r.tracking.Require(t, exts[t], subresources, state), t, u.tracking, u.barriers);
  }

  // Messages do not matter.
  lemma ReportKeeps(exts: TextureExts, r: Recording, messages: seq<Message>)
    requires RecordingOk(exts, r)
    ensures RecordingOk(exts, r.(tracking := r.tracking.(messages := messages)))
  {
    LeadsSame(r.assumed, r.recorded + r.tracking.pending, r.tracking, r.tracking.(messages := messages));
  }

  // Whether the record exists already makes no difference to the requirement.
  lemma SameRequire(k: Tracking, t: Texture, ext: TextureExt, subresources: TextureSubresourceSet, state: States)
    requires k.Valid() && ext.permanentState == UNKNOWN
    ensures k.(states := k.states[t := k.Lookup(t, ext)]).Require(t, ext, subresources, state) == k.Require(t, ext, subresources, state)
  {
  }

  lemma RequireKeeps(exts: TextureExts, r: Recording, t: Texture, subresources: TextureSubresourceSet, state: States)
    requires RecordingOk(exts, r) && !r.closed && t in exts && IsKept(t)
    ensures var after := Uses(r, r.tracking.Require(t, exts[t], subresources, state), t, exts[t]);
            && RecordingOk(exts, after)
            && (exts[t].permanentState == UNKNOWN ==> t in after.tracking.states)
  {
    var k := r.tracking.Require(t, exts[t], subresources, state);
    if exts[t].permanentState != UNKNOWN {
      ReportKeeps(exts, r, k.messages);
      assert Uses(r, k, t, exts[t]) == r.(tracking := r.tracking.(messages := k.messages));
    } else {
      TrackKeeps(exts, r, t);
      RequireTrackedKeeps(exts, Tracked(r, t, exts[t]), t, subresources, state);
      SameRequire(r.tracking, t, exts[t], subresources, state);
    }
  }

  function Announce(k: Tracking, t: Texture, state: States): Tracking
    requires t in k.states
  {
    k.(permanents := k.permanents + [(t, state)], states := k.states[t := k.states[t].(permanentTransition := true)])
  }

  lemma AnnounceShape(k: Tracking, assumed: Device, t: Texture, state: States)
    requires ShapeOk(k, assumed) && t in k.states && state != UNKNOWN
    ensures ShapeOk(Announce(k, t, state), assumed)
  {
    forall x | x in k.states
      ensures Announce(k, t, state).states[x].permanentTransition <==> FirstAnnounced(Announce(k, t, state).permanents, x).Some?
    {
      FirstAnnouncedPush(k.permanents, (t, state), x);
    }
  }

  lemma AnnounceKeeps(exts: TextureExts, r: Recording, t: Texture, state: States)
    requires RecordingOk(exts, r) && !r.closed && t in r.tracking.states && state != UNKNOWN
    ensures RecordingOk(exts, r.(tracking := Announce(r.tracking, t, state)))
  {
    var k, after := r.tracking, Announce(r.tracking, t, state);
    AnnounceShape(k, r.assumed, t, state);
    assert Denotes(k)[t := Denote(t.desc, after.states[t])] == Denotes(k);
    assert after.pending == k.pending + [];
    UpdatedKeeps(exts, r, after, t, after.states[t], []);
  }

  lemma SetPermanentKeeps(exts: TextureExts, r: Recording, t: Texture, subresources: TextureSubresourceSet, state: States)
    requires RecordingOk(exts, r) && !r.closed && t in exts && IsKept(t) && state != UNKNOWN
    ensures RecordingOk(exts, Uses(r, r.tracking.SetPermanent(t, exts[t], subresources, state), t, exts[t]))
  {
    var resolved := subresources.Resolve(t.desc, false);
    if !resolved.IsEntireTexture(t.desc) {
      var reported := r.(tracking := r.tracking.Report(PartialPermanentTransition(t)));
      ReportKeeps(exts, r, reported.tracking.messages);
      RequireKeeps(exts, reported, t, resolved, state);
    } else {
      RequireKeeps(exts, r, t, resolved, state);
      var required := Uses(r, r.tracking.Require(t, exts[t], resolved, state), t, exts[t]);
      TrackKeeps(exts, required, t);
      AnnounceKeeps(exts, Tracked(required, t, exts[t]), t, state);
      SamePermanent(r, t, exts[t], subresources, state);
    }
  }

  lemma SamePermanent(r: Recording, t: Texture, ext: TextureExt, subresources: TextureSubresourceSet, state: States)
    requires r.tracking.Valid() && subresources.Resolve(t.desc, false).IsEntireTexture(t.desc)
    ensures var resolved := subresources.Resolve(t.desc, false);
            var tracked := Tracked(Uses(r, r.tracking.Require(t, ext, resolved, state), t, ext), t, ext);
            && t in tracked.tracking.states
            && Uses(r, r.tracking.SetPermanent(t, ext, subresources, state), t, ext)
               == tracked.(tracking := Announce(tracked.tracking, t, state))
  {
  }

  lemma SetUavTrackedKeeps(exts: TextureExts, r: Recording, t: Texture, enabled: bool)
    requires RecordingOk(exts, r) && !r.closed && t in r.tracking.states && t in exts
    ensures RecordingOk(exts, r.(tracking := r.tracking.SetEnableUav(t, exts[t], enabled)))
  {
    var k, after := r.tracking, r.tracking.SetEnableUav(t, exts[t], enabled);
    assert Denotes(k)[t := Denote(t.desc, after.states[t])] == Denotes(k);
    assert after.pending == k.pending + [];
    UpdatedKeeps(exts, r, after, t, after.states[t], []);
  }

  lemma SetUavKeeps(exts: TextureExts, r: Recording, t: Texture, enabled: bool)
    requires RecordingOk(exts, r) && !r.closed && t in exts && IsKept(t)
    ensures RecordingOk(exts, Uses(r, r.tracking.SetEnableUav(t, exts[t], enabled), t, exts[t]))
  {
    TrackKeeps(exts, r, t);
    SetUavTrackedKeeps(exts, Tracked(r, t, exts[t]), t, enabled);
    SameSetUav(r, t, exts[t], enabled);
  }

  lemma SameSetUav(r: Recording, t: Texture, ext: TextureExt, enabled: bool)
    ensures var tracked := Tracked(r, t, ext);
            Uses(r, r.tracking.SetEnableUav(t, ext, enabled), t, ext)
            == tracked.(tracking := tracked.tracking.SetEnableUav(t, ext, enabled))
  {
  }

  lemma CommitKeeps(exts: TextureExts, r: Recording)
    requires RecordingOk(exts, r)
    ensures RecordingOk(exts, Commit(r))
  {
    assert Commit(r).recorded + [] == r.recorded + r.tracking.pending;
  }

  lemma KeepInitialKeeps(exts: TextureExts, r: Recording, t: Texture)
    requires RecordingOk(exts, r) && !r.closed && t in r.tracking.states
    ensures var k := r.tracking.KeepInitial(t, exts[t]);
            && RecordingOk(exts, r.(tracking := k)) && Returned(exts, k, t)
            && forall other :: other != t && Returned(exts, r.tracking, other) ==> Returned(exts, k, other)
  {
    if exts[t].permanentState == UNKNOWN && !r.tracking.states[t].permanentTransition {
      RequireTrackedKeeps(exts, r, t, ALL_SUBRESOURCES, t.desc.initialState);
      AllSubresourcesIsEntire(t.desc);
      EntireTextureIff(t.desc, ALL_SUBRESOURCES);
      RequireMeans(t, r.tracking.states[t], ALL_SUBRESOURCES, t.desc.initialState);
    }
  }

  lemma {:induction false} KeepInitialsKeep(exts: TextureExts, r: Recording, order: seq<Texture>)
    requires RecordingOk(exts, r) && !r.closed && forall t :: t in order ==> t in r.tracking.states
    ensures var k := r.tracking.KeepInitials(order, exts);
            RecordingOk(exts, r.(tracking := k)) && forall t :: t in order ==> Returned(exts, k, t)
  {
    if order != [] {
      var rest, last := order[..|order| - 1], order[|order| - 1];
      KeepInitialsKeep(exts, r, rest);
      KeepInitialKeeps(exts, r.(tracking := r.tracking.KeepInitials(rest, exts)), last);
    }
  }

  lemma CloseKeeps(exts: TextureExts, r: Recording, order: seq<Texture>)
    requires RecordingOk(exts, r) && !r.closed && VisitsOnce(order, r.tracking.states.Keys)
    ensures RecordingOk(exts, Commit(r.(tracking := r.tracking.KeepInitials(order, exts), closed := true)))
  {
    KeepInitialsKeep(exts, r, order);
    var kept := r.(tracking := r.tracking.KeepInitials(order, exts));
    CommitKeeps(exts, kept);
    forall t | t in kept.tracking.states ensures Returned(exts, kept.tracking.(pending := []), t) {
      assert t in order && Returned(exts, kept.tracking, t);
    }
  }

  lemma ReopenKeeps(exts: TextureExts, r: Recording)
    requires RecordingOk(exts, r) && r.closed
    ensures RecordingOk(exts, Reopen(r))
  {
  }

  lemma NextKeeps(w: World, e: Event)
    requires Inv(w) && Legal(w, e) && !e.ExecuteEvent?
    ensures RecordingOk(w.exts, w.lists[e.list])
    ensures RecordingOk(w.exts, Next(w.exts, w.lists[e.list], e))
  {
    var r := w.lists[e.list];
    assert RecordingOk(w.exts, r);
    match e
    case RequireEvent(_, t, subresources, state) => RequireKeeps(w.exts, r, t, subresources, state);
    case PermanentEvent(_, t, subresources, state) => SetPermanentKeeps(w.exts, r, t, subresources, state);
    case SetUavEvent(_, t, enabled) => SetUavKeeps(w.exts, r, t, enabled);
    case CommitEvent(_) => CommitKeeps(w.exts, r);
    case CloseEvent(_, order) => CloseKeeps(w.exts, r, order);
    case ReopenEvent(_) => ReopenKeeps(w.exts, r);
  }

  // ---------- Execution ----------

  // The barriers of a list fit exactly when the device is, wherever they go, in the states
  // the list started from.
  lemma ExecutionFitsIff(w: World, l: nat)
    requires Inv(w) && Legal(w, ExecuteEvent(l))
    ensures var r := w.lists[l];
            && SameShape(r.assumed, w.device)
            && (Replay(w.device, r.recorded).Some? <==> AgreeOn(r.assumed, w.device, r.recorded))
            && Replay(r.assumed, r.recorded) == Some(Denotes(r.tracking))
            && (Replay(w.device, r.recorded).Some? ==>
                  IsOverlay(r.assumed, w.device, r.recorded, Denotes(r.tracking), Replay(w.device, r.recorded).value))
  {
    assert RecordingOk(w.exts, w.lists[l]);
    RecordingFitsIff(w.exts, w.lists[l], w.device);
  }

  lemma RecordingFitsIff(exts: TextureExts, r: Recording, device: Device)
    requires RecordingOk(exts, r) && r.closed && SameShape(r.assumed, device)
    ensures Replay(device, r.recorded).Some? <==> AgreeOn(r.assumed, device, r.recorded)
    ensures Replay(r.assumed, r.recorded) == Some(Denotes(r.tracking))
    ensures Replay(device, r.recorded).Some? ==>
              IsOverlay(r.assumed, device, r.recorded, Denotes(r.tracking), Replay(device, r.recorded).value)
  {
    assert r.recorded + r.tracking.pending == r.recorded;
    NoneEmpty(r.tracking, r.assumed);
    ReplayElsewhereIff(r.assumed, device, r.recorded);
  }

  // What submission makes of one extension object.
  lemma SubmittedAt(exts: TextureExts, k: Tracking, t: Texture)
    requires (forall p :: p in k.permanents ==> p.0 in exts && p.0 in k.states && p.1 != UNKNOWN) && t in exts
    ensures var first, next := FirstAnnounced(k.permanents, t), Submitted(exts, k)[t];
            && next.permanentState == (if exts[t].permanentState != UNKNOWN || first == None then exts[t].permanentState else first.value)
            && (first.Some? ==> first.value != UNKNOWN && t in k.states)
            && next.stateInitialized == (exts[t].stateInitialized || (t in k.states && t.desc.keepInitialState))
            && (t !in k.states ==> next == exts[t])
  {
    SubmitPermanentsAt(exts, k.permanents, t);
    FirstIsAnnounced(k.permanents, t);
  }

  lemma NothingRecordedOk(exts: TextureExts)
    ensures RecordingOk(exts, NOTHING_RECORDED)
  {
    assert Denotes(EMPTY) == map[];
    assert NOTHING_RECORDED.recorded + EMPTY.pending == [];
  }

  // Submission makes textures permanent and initializes them, and never undoes either.
  lemma SubmissionKeeps(exts: TextureExts, k: Tracking, r: Recording)
    requires (forall p :: p in k.permanents ==> p.0 in exts && p.0 in k.states && p.1 != UNKNOWN) && RecordingOk(exts, r)
    ensures RecordingOk(Submitted(exts, k), r)
  {
    forall t | t in r.tracking.states && Returned(exts, r.tracking, t) ensures Returned(Submitted(exts, k), r.tracking, t) {
      SubmittedAt(exts, k, t);
    }
  }

  lemma ExecuteKeeps(w: World, l: nat)
    requires Inv(w) && Legal(w, ExecuteEvent(l))
    ensures forall p :: p in w.lists[l].tracking.permanents ==> p.0 in w.exts
    ensures Inv(Execute(w, l))
  {
    assert RecordingOk(w.exts, w.lists[l]);
    ExecutionFitsIff(w, l);
    ShapeStays(w.device, w.lists[l].recorded);
    NothingRecordedOk(Submitted(w.exts, w.lists[l].tracking));
    forall other | other in w.lists ensures RecordingOk(Submitted(w.exts, w.lists[l].tracking), w.lists[other]) {
      SubmissionKeeps(w.exts, w.lists[l].tracking, w.lists[other]);
    }
  }

  lemma {:induction false} ShapeStays(d: Device, barriers: seq<TextureBarrier>)
    ensures Replay(d, barriers).Some? ==> SameShape(d, Replay(d, barriers).value) && Replay(d, barriers).value.Keys == d.Keys
  {
    if barriers != [] {
      ShapeStays(d, barriers[..|barriers| - 1]);
    }
  }

  // What is promised of a texture before and after was assumed and is reached,
  // subresource by subresource, or is untouched and does not change.
  ghost predicate Meets(r: Recording, t: Texture, before: States, after: States)
    requires r.tracking.Valid() && t in r.tracking.states && t in r.assumed && |r.assumed[t]| == t.desc.NumSubresources()
  {
    forall i :: 0 <= i < t.desc.NumSubresources() ==>
      if Touches(r.recorded, t, i) then r.assumed[t][i] == before && Denote(t.desc, r.tracking.states[t])[i] == after
      else before == after
  }

  ghost predicate StaysTrue(w: World, l: nat, t: Texture)
    requires Inv(w) && Legal(w, ExecuteEvent(l)) && t in w.lists[l].assumed
  {
    ExecuteKeeps(w, l);
    assert RecordingOk(w.exts, w.lists[l]);
    Meets(w.lists[l], t, Promised(t, w.exts[t]), Promised(t, Submitted(w.exts, w.lists[l].tracking)[t]))
  }

  ghost predicate AllStayTrue(w: World, l: nat)
    requires Inv(w) && Legal(w, ExecuteEvent(l))
  {
    forall t :: t in w.lists[l].assumed ==> StaysTrue(w, l, t)
  }

  // As long as the extension objects are right about the device: they still are after a
  // list has executed exactly when that holds for every texture it used.
  lemma ExecutionIsConsistentIff(w: World, l: nat)
    requires Inv(w) && Consistent(w) && Legal(w, ExecuteEvent(l))
    ensures forall p :: p in w.lists[l].tracking.permanents ==> p.0 in w.exts
    ensures Inv(Execute(w, l))
    ensures Consistent(Execute(w, l)) <==> AllStayTrue(w, l)
  {
    ExecuteKeeps(w, l);
    ExecutionFitsIff(w, l);
    if AllStayTrue(w, l) {
      AllTrueExecutes(w, l);
    } else {
      var t :| t in w.lists[l].assumed && !StaysTrue(w, l, t);
      if Replay(w.device, w.lists[l].recorded).Some? {
        FalseIsInconsistent(w, l, t);
      }
    }
  }

  lemma MeetsReaches(r: Recording, t: Texture, actual: seq<States>, after: seq<States>, before: States, promised: States)
    requires r.tracking.Valid() && t in r.tracking.states && t in r.assumed
    requires |after| == |actual| == |r.assumed[t]| == t.desc.NumSubresources()
    requires actual == Uniform(|actual|, before) && Meets(r, t, before, promised)
    requires forall i :: 0 <= i < |after| ==>
               after[i] == if Touches(r.recorded, t, i) then Denote(t.desc, r.tracking.states[t])[i] else actual[i]
    ensures after == Uniform(t.desc.NumSubresources(), promised)
  {
  }

  lemma AllTrueExecutes(w: World, l: nat)
    requires Inv(w) && Consistent(w) && Legal(w, ExecuteEvent(l)) && AllStayTrue(w, l)
    ensures forall p :: p in w.lists[l].tracking.permanents ==> p.0 in w.exts
    ensures Inv(Execute(w, l)) && Consistent(Execute(w, l))
  {
    ExecuteKeeps(w, l);
    ExecutionFitsIff(w, l);
    var r := w.lists[l];
    assert RecordingOk(w.exts, r);
    forall t, i | t in r.assumed && 0 <= i < |r.assumed[t]| && Touches(r.recorded, t, i)
      ensures r.assumed[t][i] == w.device[t][i]
    {
      assert StaysTrue(w, l, t);
    }
    var next := Execute(w, l);
    forall t | t in w.exts ensures next.device[t] == Uniform(t.desc.NumSubresources(), Promised(t, next.exts[t])) {
      SubmittedAt(w.exts, r.tracking, t);
      if t in r.assumed {
        assert StaysTrue(w, l, t);
        MeetsReaches(r, t, w.device[t], next.device[t], Promised(t, w.exts[t]), Promised(t, next.exts[t]));
      }
    }
  }

  lemma FalseIsInconsistent(w: World, l: nat, t: Texture)
    requires Inv(w) && Consistent(w) && Legal(w, ExecuteEvent(l)) && t in w.lists[l].assumed && !StaysTrue(w, l, t)
    requires Replay(w.device, w.lists[l].recorded).Some?
    ensures forall p :: p in w.lists[l].tracking.permanents ==> p.0 in w.exts
    ensures Inv(Execute(w, l)) && !Consistent(Execute(w, l))
  {
    ExecuteKeeps(w, l);
    ExecutionFitsIff(w, l);
    var r, next := w.lists[l], Execute(w, l);
    assert RecordingOk(w.exts, r);
    var before, after := Promised(t, w.exts[t]), Promised(t, next.exts[t]);
    var i :| 0 <= i < t.desc.NumSubresources()
             && !(if Touches(r.recorded, t, i) then r.assumed[t][i] == before && Denote(t.desc, r.tracking.states[t])[i] == after
                  else before == after);
    assert next.device[t][i] != after;
  }

  // ---------- Textures that no one makes permanent ----------

  predicate IsPlain(exts: TextureExts, r: Recording, t: Texture) {
    t in r.tracking.states && t in exts && exts[t].permanentState == UNKNOWN && !r.tracking.states[t].permanentTransition
  }

  // The list started from the state that the extension object promises now.
  predicate StartIsCurrent(exts: TextureExts, r: Recording, t: Texture)
    requires t in r.assumed && t in exts
  {
    r.assumed[t] == Uniform(t.desc.NumSubresources(), StartState(t.desc, exts[t].stateInitialized))
  }

  // A texture stays as promised exactly when its tracking would still start from the same
  // state: unless it was initialized since by another list, or is not initialized although
  // an earlier recording of this list took it to its initial state.
  lemma PlainStaysTrueIff(w: World, l: nat, t: Texture)
    requires Inv(w) && Consistent(w) && Legal(w, ExecuteEvent(l)) && IsPlain(w.exts, w.lists[l], t)
    ensures t in w.lists[l].assumed && (StaysTrue(w, l, t) <==> StartIsCurrent(w.exts, w.lists[l], t))
  {
    var r := w.lists[l];
    PlainEnds(w.exts, r, t);
    SubmittedAt(w.exts, r.tracking, t);
    PlainMeetsIff(r, t, StartState(t.desc, w.exts[t].stateInitialized));
  }

  lemma UntouchedEnds(r: Recording, t: Texture)
    requires ShapeOk(r.tracking, r.assumed) && Leads(r.assumed, r.recorded, r.tracking) && t in r.assumed
    ensures forall i :: 0 <= i < |r.assumed[t]| && !Touches(r.recorded, t, i) ==>
              r.assumed[t][i] == Denote(t.desc, r.tracking.states[t])[i]
  {
    ReplayElsewhereIff(r.assumed, r.assumed, r.recorded);
  }

  lemma PlainEnds(exts: TextureExts, r: Recording, t: Texture)
    requires RecordingOk(exts, r) && r.closed && IsPlain(exts, r, t)
    ensures r.tracking.Valid() && t in r.assumed && |r.assumed[t]| == t.desc.NumSubresources() && AtInitial(r.tracking, t)
    ensures IsKept(t) && FirstAnnounced(r.tracking.permanents, t) == None
    ensures forall i :: 0 <= i < |r.assumed[t]| && !Touches(r.recorded, t, i) ==> r.assumed[t][i] == t.desc.initialState
  {
    assert r.recorded + r.tracking.pending == r.recorded;
    assert Returned(exts, r.tracking, t);
    UntouchedEnds(r, t);
  }

  lemma PlainMeetsIff(r: Recording, t: Texture, promised: States)
    requires t in r.assumed && |r.assumed[t]| == t.desc.NumSubresources() && r.tracking.Valid() && AtInitial(r.tracking, t)
    requires forall i :: 0 <= i < |r.assumed[t]| && !Touches(r.recorded, t, i) ==> r.assumed[t][i] == t.desc.initialState
    ensures r.assumed[t] == Uniform(t.desc.NumSubresources(), promised) <==> Meets(r, t, promised, t.desc.initialState)
  {
    var n := t.desc.NumSubresources();
    if r.assumed[t] == Uniform(n, promised) {
      forall i | 0 <= i < n
        ensures if Touches(r.recorded, t, i) then r.assumed[t][i] == promised else promised == t.desc.initialState
      {
        assert r.assumed[t][i] == promised;
      }
    }
  }

  // Two lists that both used a texture before it was initialized: once one of them has
  // executed, the other does not fit any more, unless the initial state is Common.
  lemma SecondListIsRejected(w: World, first: nat, second: nat, t: Texture)
    requires Inv(w) && Consistent(w) && first != second
    requires Legal(w, ExecuteEvent(first)) && Legal(w, ExecuteEvent(second)) && AllStayTrue(w, first)
    requires IsPlain(w.exts, w.lists[first], t) && IsPlain(w.exts, w.lists[second], t)
    requires t in w.lists[second].assumed && w.lists[second].assumed[t] == Uniform(t.desc.NumSubresources(), COMMON)
    requires t.desc.initialState != COMMON
    ensures Inv(Execute(w, first)) && Consistent(Execute(w, first))
    ensures Legal(Execute(w, first), ExecuteEvent(second)) && Execute(Execute(w, first), second).rejected
  {
    ExecutionIsConsistentIff(w, first);
    PlainEnds(w.exts, w.lists[first], t);
    SubmittedAt(w.exts, w.lists[first].tracking, t);
    StaleIsRejected(Execute(w, first), second, t);
  }

  // A list that moves a texture to its initial state does not fit when it is there already.
  lemma StaleIsRejected(w: World, l: nat, t: Texture)
    requires Inv(w) && Legal(w, ExecuteEvent(l)) && IsPlain(w.exts, w.lists[l], t) && t in w.lists[l].assumed
    requires w.lists[l].assumed[t] == Uniform(t.desc.NumSubresources(), COMMON) && t.desc.initialState != COMMON
    requires w.device[t] == Uniform(t.desc.NumSubresources(), t.desc.initialState)
    ensures Replay(w.device, w.lists[l].recorded).None?
  {
    ExecutionFitsIff(w, l);
    StaleDisagrees(w.exts, w.lists[l], w.device, t);
  }

  lemma StaleDisagrees(exts: TextureExts, r: Recording, device: Device, t: Texture)
    requires RecordingOk(exts, r) && r.closed && IsPlain(exts, r, t) && SameShape(r.assumed, device) && t in r.assumed
    requires r.assumed[t] == Uniform(t.desc.NumSubresources(), COMMON) && t.desc.initialState != COMMON
    requires device[t] == Uniform(t.desc.NumSubresources(), t.desc.initialState)
    ensures !AgreeOn(r.assumed, device, r.recorded)
  {
    PlainEnds(exts, r, t);
    UniformDisagrees(r.assumed, device, r.recorded, t, COMMON, t.desc.initialState);
  }

  lemma UniformDisagrees(a: Device, d: Device, barriers: seq<TextureBarrier>, t: Texture, state: States, other: States)
    requires SameShape(a, d) && t in a && 0 < |a[t]| && state != other
    requires a[t] == Uniform(|a[t]|, state) && d[t] == Uniform(|a[t]|, other)
    requires !Touches(barriers, t, 0) ==> a[t][0] == other
    ensures !AgreeOn(a, d, barriers)
  {
    assert a[t][0] == state && d[t][0] == other;
    assert Touches(barriers, t, 0);
  }

  // A closed list that is opened again starts from the initial states of its textures.
  lemma ReopenedStarts(w: World, l: nat, t: Texture)
    requires Inv(w) && Legal(w, ReopenEvent(l)) && IsPlain(w.exts, w.lists[l], t)
    ensures var r := Step(w, ReopenEvent(l)).lists[l];
            t in r.assumed && r.assumed[t] == Uniform(t.desc.NumSubresources(), t.desc.initialState)
  {
    assert RecordingOk(w.exts, w.lists[l]) && Returned(w.exts, w.lists[l].tracking, t);
  }

  // Whatever else is recorded, what was assumed of a texture stays.
  lemma AssumedStays(exts: TextureExts, r: Recording, e: Event, t: Texture)
    requires RecordingOk(exts, r) && t in r.assumed && !e.ExecuteEvent? && !e.ReopenEvent?
    requires e.RequireEvent? || e.PermanentEvent? || e.SetUavEvent? ==> e.texture in exts
    requires e.CloseEvent? ==> forall x :: x in e.order ==> x in r.tracking.states
    ensures var next := Next(exts, r, e); t in next.assumed && next.assumed[t] == r.assumed[t]
  {
  }

  // So a list that was opened again without being executed leaves a texture in a state it
  // is not promised in, if no other list has initialized it and its initial state is not Common.
  lemma ReopenedIsStale(w: World, l: nat, t: Texture)
    requires Inv(w) && Consistent(w) && Legal(w, ExecuteEvent(l)) && IsPlain(w.exts, w.lists[l], t) && t in w.lists[l].assumed
    requires w.lists[l].assumed[t] == Uniform(t.desc.NumSubresources(), t.desc.initialState)
    requires !w.exts[t].stateInitialized && t.desc.initialState != COMMON
    ensures forall p :: p in w.lists[l].tracking.permanents ==> p.0 in w.exts
    ensures Inv(Execute(w, l)) && !Consistent(Execute(w, l))
  {
    ReopenedIsNotCurrent(w, l, t);
    ExecutionIsConsistentIff(w, l);
  }

  lemma ReopenedIsNotCurrent(w: World, l: nat, t: Texture)
    requires Inv(w) && Consistent(w) && Legal(w, ExecuteEvent(l)) && IsPlain(w.exts, w.lists[l], t) && t in w.lists[l].assumed
    requires w.lists[l].assumed[t] == Uniform(t.desc.NumSubresources(), t.desc.initialState)
    requires !w.exts[t].stateInitialized && t.desc.initialState != COMMON
    ensures !StaysTrue(w, l, t)
  {
    PlainStaysTrueIff(w, l, t);
    ReopenedStartIsNotCurrent(w.exts, w.lists[l], t);
  }

  lemma ReopenedStartIsNotCurrent(exts: TextureExts, r: Recording, t: Texture)
    requires RecordingOk(exts, r) && t in r.assumed && t in exts
    requires r.assumed[t] == Uniform(t.desc.NumSubresources(), t.desc.initialState)
    requires !exts[t].stateInitialized && t.desc.initialState != COMMON
    ensures !StartIsCurrent(exts, r, t)
  {
    assert IsKept(t);
    NotUniform(t.desc.NumSubresources(), t.desc.initialState, COMMON);
  }

  lemma NotUniform(n: nat, state: States, other: States)
    requires 0 < n && state != other
    ensures Uniform(n, state) != Uniform(n, other)
  {
    assert Uniform(n, state)[0] != Uniform(n, other)[0];
  }

  // A texture that has become permanent meanwhile stays as promised exactly when the list,
  // wherever its barriers go, started and ends in the permanent state.
  lemma PermanentStaysTrueIff(w: World, l: nat, t: Texture)
    requires Inv(w) && Legal(w, ExecuteEvent(l)) && t in w.lists[l].assumed
    requires t in w.exts && w.exts[t].permanentState != UNKNOWN
    ensures var r := w.lists[l];
            && r.tracking.Valid() && t in r.tracking.states && |r.assumed[t]| == t.desc.NumSubresources()
            && (StaysTrue(w, l, t) <==> forall i :: 0 <= i < |r.assumed[t]| && Touches(r.recorded, t, i) ==>
                  r.assumed[t][i] == w.exts[t].permanentState == Denote(t.desc, r.tracking.states[t])[i])
  {
    assert RecordingOk(w.exts, w.lists[l]);
    SubmittedAt(w.exts, w.lists[l].tracking, t);
  }

  // ---------- Runs ----------

  ghost predicate Init(w: World) {
    && w.exts.Keys == w.device.Keys && !w.rejected
    && (forall l :: l in w.lists ==> w.lists[l] == NOTHING_RECORDED)
    && forall t :: t in w.exts ==>
         IsKept(t) && w.device[t] == Uniform(t.desc.NumSubresources(), Promised(t, w.exts[t]))
  }

  lemma InitConsistent(w: World)
    requires Init(w)
    ensures Inv(w) && Consistent(w)
  {
    NothingRecordedOk(w.exts);
  }

  lemma StepKeeps(w: World, e: Event)
    requires Inv(w) && Legal(w, e)
    ensures Inv(Step(w, e))
    ensures !e.ExecuteEvent? && Consistent(w) ==> Consistent(Step(w, e))
  {
    if e.ExecuteEvent? {
      ExecuteKeeps(w, e.list);
    } else {
      NextKeeps(w, e);
    }
  }

  ghost predicate CanRun(w: World, events: seq<Event>)
    requires Inv(w)
    decreases |events|
  {
    events != [] ==>
      && Legal(w, events[0])
      && (StepKeeps(w, events[0]); CanRun(Step(w, events[0]), events[1..]))
  }

  ghost function Run(w: World, events: seq<Event>): (r: World)
    requires Inv(w) && CanRun(w, events)
    ensures Inv(r)
    decreases |events|
  {
    if events == [] then w
    else
      StepKeeps(w, events[0]);
      Run(Step(w, events[0]), events[1..])
  }

  // The extension objects are right about the device in every world of the run.
  ghost predicate AlwaysConsistent(w: World, events: seq<Event>)
    requires Inv(w) && CanRun(w, events)
    decreases |events|
  {
    && Consistent(w)
    && (events != [] ==> (StepKeeps(w, events[0]); AlwaysConsistent(Step(w, events[0]), events[1..])))
  }

  // Every list of the run, when it executes, meets the condition for all its textures.
  ghost predicate AlwaysTrue(w: World, events: seq<Event>)
    requires Inv(w) && CanRun(w, events)
    decreases |events|
  {
    events != [] ==>
      && (events[0].ExecuteEvent? ==> AllStayTrue(w, events[0].list))
      && (StepKeeps(w, events[0]); AlwaysTrue(Step(w, events[0]), events[1..]))
  }

  // Consistency survives an interleaving of any lists exactly when every list that is
  // executed meets the condition then.
  lemma {:induction false} RunIsConsistentIff(w: World, events: seq<Event>)
    requires Inv(w) && Consistent(w) && CanRun(w, events)
    ensures AlwaysConsistent(w, events) <==> AlwaysTrue(w, events)
    decreases |events|
  {
    if events != [] {
      StepKeeps(w, events[0]);
      var next := Step(w, events[0]);
      if events[0].ExecuteEvent? {
        ExecutionIsConsistentIff(w, events[0].list);
      }
      if Consistent(next) {
        RunIsConsistentIff(next, events[1..]);
      }
    }
  }

  // Every list of the run, when it executes, finds the device in the states it started
  // from, wherever its barriers go.
  ghost predicate AlwaysAgrees(w: World, events: seq<Event>)
    requires Inv(w) && CanRun(w, events)
    decreases |events|
  {
    events != [] ==>
      && (events[0].ExecuteEvent? ==> ListAgrees(w, events[0].list))
      && (StepKeeps(w, events[0]); AlwaysAgrees(Step(w, events[0]), events[1..]))
  }

  ghost predicate ListAgrees(w: World, l: nat)
    requires Inv(w) && Legal(w, ExecuteEvent(l))
  {
    ExecutionFitsIff(w, l);
    AgreeOn(w.lists[l].assumed, w.device, w.lists[l].recorded)
  }

  // No barrier of a run is rejected exactly when that is so.
  lemma {:induction false} RunFitsIff(w: World, events: seq<Event>)
    requires Inv(w) && CanRun(w, events)
    ensures !Run(w, events).rejected <==> !w.rejected && AlwaysAgrees(w, events)
    decreases |events|
  {
    if events != [] {
      StepKeeps(w, events[0]);
      if events[0].ExecuteEvent? {
        ExecutionFitsIff(w, events[0].list);
      }
      RunFitsIff(Step(w, events[0]), events[1..]);
    }
  }

  lemma RunFirst(w: World, e: Event, rest: seq<Event>)
    requires Inv(w) && Legal(w, e)
    requires Inv(Step(w, e)) && CanRun(Step(w, e), rest)
    ensures CanRun(w, [e] + rest) && Run(w, [e] + rest) == Run(Step(w, e), rest)
  {
    assert ([e] + rest)[1..] == rest;
  }

  // ---------- Concrete runs ----------

  // The list has used one texture, which it found in this state, and announced nothing.
  predicate HasUsed(r: Recording, t: Texture, start: States, closed: bool) {
    && r.tracking.permanents == [] && r.tracking.states.Keys == {t}
    && r.assumed == map[t := Uniform(t.desc.NumSubresources(), start)] && r.closed == closed
  }

  lemma UseOnce(exts: TextureExts, t: Texture, l: nat, state: States)
    requires exts == map[t := TextureExt(UNKNOWN, false)] && IsKept(t)
    ensures HasUsed(Next(exts, NOTHING_RECORDED, RequireEvent(l, t, ALL_SUBRESOURCES, state)), t, COMMON, false)
  {
  }

  lemma CloseOnce(exts: TextureExts, r: Recording, t: Texture, l: nat, start: States)
    requires r.tracking.Valid() && HasUsed(r, t, start, false) && t in exts
    ensures HasUsed(Next(exts, r, CloseEvent(l, [t])), t, start, true)
  {
    assert [t][..0] == [];
    assert r.tracking.KeepInitials([], exts) == r.tracking;
    assert r.tracking.KeepInitials([t], exts) == r.tracking.KeepInitial(t, exts[t]);
  }

  lemma UsedIsPlain(exts: TextureExts, r: Recording, t: Texture, start: States)
    requires RecordingOk(exts, r) && HasUsed(r, t, start, true) && t in exts && exts[t].permanentState == UNKNOWN
    ensures IsPlain(exts, r, t)
  {
    assert FirstAnnounced(r.tracking.permanents, t) == None;
  }

  const USE := {RenderTarget}

  // A new shader resource that a list renders to; then the list is closed.
  function UseAndClose(l: nat, t: Texture, rest: seq<Event>): seq<Event> {
    [RequireEvent(l, t, ALL_SUBRESOURCES, USE)] + ([CloseEvent(l, [t])] + rest)
  }

  lemma UsedAndClosed(w: World, l: nat, t: Texture) returns (w1: World, w2: World)
    requires Inv(w) && Consistent(w) && w.exts == map[t := TextureExt(UNKNOWN, false)]
    requires l in w.lists && w.lists[l] == NOTHING_RECORDED
    ensures Legal(w, RequireEvent(l, t, ALL_SUBRESOURCES, USE)) && w1 == Step(w, RequireEvent(l, t, ALL_SUBRESOURCES, USE))
    ensures Inv(w1) && Legal(w1, CloseEvent(l, [t])) && w2 == Step(w1, CloseEvent(l, [t]))
    ensures Inv(w2) && Consistent(w2) && w2.exts == w.exts && w2.lists.Keys == w.lists.Keys
    ensures HasUsed(w2.lists[l], t, COMMON, true) && forall m :: m in w.lists && m != l ==> w2.lists[m] == w.lists[m]
  {
    assert IsKept(t);
    UseOnce(w.exts, t, l, USE);
    StepKeeps(w, RequireEvent(l, t, ALL_SUBRESOURCES, USE));
    w1 := Step(w, RequireEvent(l, t, ALL_SUBRESOURCES, USE));
    CloseOnce(w1.exts, w1.lists[l], t, l, COMMON);
    StepKeeps(w1, CloseEvent(l, [t]));
    w2 := Step(w1, CloseEvent(l, [t]));
  }

  lemma UseRuns(w: World, w1: World, w2: World, l: nat, t: Texture, rest: seq<Event>)
    requires Inv(w) && Legal(w, RequireEvent(l, t, ALL_SUBRESOURCES, USE)) && w1 == Step(w, RequireEvent(l, t, ALL_SUBRESOURCES, USE))
    requires Inv(w1) && Legal(w1, CloseEvent(l, [t])) && w2 == Step(w1, CloseEvent(l, [t])) && Inv(w2) && CanRun(w2, rest)
    ensures CanRun(w, UseAndClose(l, t, rest)) && Run(w, UseAndClose(l, t, rest)) == Run(w2, rest)
  {
    RunFirst(w1, CloseEvent(l, [t]), rest);
    RunFirst(w, RequireEvent(l, t, ALL_SUBRESOURCES, USE), [CloseEvent(l, [t])] + rest);
  }

  lemma SubmittedTwice(w: World, t: Texture)
    requires Inv(w) && Consistent(w) && w.exts == map[t := TextureExt(UNKNOWN, false)] && t.desc.initialState == {PixelShaderResource}
    requires w.lists.Keys == {0, 1} && HasUsed(w.lists[0], t, COMMON, true) && HasUsed(w.lists[1], t, COMMON, true)
    ensures CanRun(w, [ExecuteEvent(0)] + ([ExecuteEvent(1)] + []))
    ensures Run(w, [ExecuteEvent(0)] + ([ExecuteEvent(1)] + [])).rejected
  {
    UsedIsPlain(w.exts, w.lists[0], t, COMMON);
    UsedIsPlain(w.exts, w.lists[1], t, COMMON);
    PlainStaysTrueIff(w, 0, t);
    SecondListIsRejected(w, 0, 1, t);
    var next := Step(w, ExecuteEvent(0));
    StepKeeps(w, ExecuteEvent(0));
    StepKeeps(next, ExecuteEvent(1));
    RunFirst(next, ExecuteEvent(1), []);
    RunFirst(w, ExecuteEvent(0), [ExecuteEvent(1)] + []);
  }

  // Two lists render to the same new shader resource, are closed and submitted one after
  // the other: the second does not fit.
  lemma SharedTargetExample(w: World, t: Texture)
    requires Init(w) && w.lists.Keys == {0, 1} && w.exts == map[t := TextureExt(UNKNOWN, false)]
    requires t.desc.initialState == {PixelShaderResource}
    ensures Inv(w)
    ensures var events := UseAndClose(0, t, UseAndClose(1, t, [ExecuteEvent(0)] + ([ExecuteEvent(1)] + [])));
            CanRun(w, events) && Run(w, events).rejected
  {
    InitConsistent(w);
    var w1, w2 := UsedAndClosed(w, 0, t);
    var w3, w4 := UsedAndClosed(w2, 1, t);
    var executions := [ExecuteEvent(0)] + ([ExecuteEvent(1)] + []);
    SubmittedTwice(w4, t);
    UseRuns(w2, w3, w4, 1, t, executions);
    UseRuns(w, w1, w2, 0, t, UseAndClose(1, t, executions));
  }

  lemma ReopenedOnce(w: World, t: Texture) returns (w1: World, w2: World)
    requires Inv(w) && Consistent(w) && w.exts == map[t := TextureExt(UNKNOWN, false)] && 0 in w.lists
    requires HasUsed(w.lists[0], t, COMMON, true)
    ensures Legal(w, ReopenEvent(0)) && w1 == Step(w, ReopenEvent(0))
    ensures Inv(w1) && Legal(w1, CloseEvent(0, [t])) && w2 == Step(w1, CloseEvent(0, [t]))
    ensures Inv(w2) && Consistent(w2) && w2.exts == w.exts && 0 in w2.lists && HasUsed(w2.lists[0], t, t.desc.initialState, true)
  {
    UsedIsPlain(w.exts, w.lists[0], t, COMMON);
    ReopenedStarts(w, 0, t);
    StepKeeps(w, ReopenEvent(0));
    w1 := Step(w, ReopenEvent(0));
    CloseOnce(w1.exts, w1.lists[0], t, 0, t.desc.initialState);
    StepKeeps(w1, CloseEvent(0, [t]));
    w2 := Step(w1, CloseEvent(0, [t]));
  }

  // A list renders to a new shader resource, is closed, and is opened again instead of
  // being executed. Once it is closed again and executed, the extension object promises a
  // state that the texture is not in.
  lemma ReopenedExample(w: World, t: Texture)
    requires Init(w) && w.lists.Keys == {0} && w.exts == map[t := TextureExt(UNKNOWN, false)]
    requires t.desc.initialState == {PixelShaderResource}
    ensures Inv(w)
    ensures var events := UseAndClose(0, t, [ReopenEvent(0)] + ([CloseEvent(0, [t])] + ([ExecuteEvent(0)] + [])));
            CanRun(w, events) && !Consistent(Run(w, events))
  {
    InitConsistent(w);
    var w1, w2 := UsedAndClosed(w, 0, t);
    var w3, w4 := ReopenedOnce(w2, t);
    UsedIsPlain(w4.exts, w4.lists[0], t, t.desc.initialState);
    ReopenedIsStale(w4, 0, t);
    RunFirst(w4, ExecuteEvent(0), []);
    RunFirst(w3, CloseEvent(0, [t]), [ExecuteEvent(0)] + []);
    RunFirst(w2, ReopenEvent(0), [CloseEvent(0, [t])] + ([ExecuteEvent(0)] + []));
    UseRuns(w, w1, w2, 0, t, [ReopenEvent(0)] + ([CloseEvent(0, [t])] + ([ExecuteEvent(0)] + [])));
  }
}
