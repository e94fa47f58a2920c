/**
 The texture half of CommandListResourceStateTracker (src/common/state-tracking.cpp) for
 all textures at once, as functions on values.
 */
module TextureTracking {
  import opened Wrappers
  import opened Resources
  import opened ResourceStates
  import opened Subresources
  import opened TextureStates

  // The mutable part of a texture's extension object.
  datatype TextureExt = TextureExt(permanentState: States, stateInitialized: bool)
  type TextureExts = map<Texture, TextureExt>

  type Permanents = seq<(Texture, States)>

  datatype Tracking = Tracking(
    states: map<Texture, TextureState>,
    pending: seq<TextureBarrier>,
    permanents: Permanents,
    messages: seq<Message>)
  {
    ghost predicate Valid() {
      forall t :: t in states ==> states[t].ValidFor(t.desc)
    }

    function Tracked(texture: Texture): Option<TextureState> {
      if texture in states then Some(states[texture]) else None
    }

    // getTextureStateTracking(texture, true)
    function Lookup(texture: Texture, ext: TextureExt): TextureState {
      if texture in states then states[texture] else NewTracking(texture.desc, ext.stateInitialized)
    }

    function Report(message: Message): Tracking {
      this.(messages := messages + [message])
    }

    function SetEnableUav(texture: Texture, ext: TextureExt, enabled: bool): Tracking {
      this.(states := states[texture := Lookup(texture, ext).(enableUavBarriers := enabled, firstUavBarrierPlaced := false)])
    }

    function Begin(texture: Texture, ext: TextureExt, subresources: TextureSubresourceSet, state: States): Tracking
      requires Valid()
    {
      this.(states := states[texture := BeginTracking(texture.desc, Lookup(texture, ext), subresources, state)])
    }

    function Require(texture: Texture, ext: TextureExt, subresources: TextureSubresourceSet, state: States): (r: Tracking)
      requires Valid()
      ensures r.Valid()
    {
      if ext.permanentState != UNKNOWN then
        this.(messages := messages + VerifyPermanent(true, ext.permanentState, state))
      else
        var u := RequireState(texture, Lookup(texture, ext), subresources, state);
        this.(states := states[texture := u.tracking],
              pending := pending + u.barriers,
              messages := messages + u.messages)
    }

    function SetPermanent(texture: Texture, ext: TextureExt, subresources: TextureSubresourceSet, state: States): (r: Tracking)
      requires Valid()
      ensures r.Valid()
    {
      var resolved := subresources.Resolve(texture.desc, false);
      if !resolved.IsEntireTexture(texture.desc) then
        Report(PartialPermanentTransition(texture)).Require(texture, ext, resolved, state)
      else
        var required := Require(texture, ext, resolved, state);
        required.(permanents := permanents + [(texture, state)],
                  states := required.states[texture := required.Lookup(texture, ext).(permanentTransition := true)])
    }

    // One iteration of keepTextureInitialStates.
    function KeepInitial(texture: Texture, ext: TextureExt): (r: Tracking)
      requires Valid() && texture in states
      ensures r.Valid() && r.states.Keys == states.Keys
    {
      if texture.desc.keepInitialState && ext.permanentState == UNKNOWN && !states[texture].permanentTransition
      then Require(texture, ext, ALL_SUBRESOURCES, texture.desc.initialState)
      else this
    }

    // keepTextureInitialStates, visiting the tracked textures in the order the hash map
    // happens to list them.
    function KeepInitials(order: seq<Texture>, exts: TextureExts): (r: Tracking)
      requires Valid() && forall t :: t in order ==> t in states && t in exts
      ensures r.Valid() && r.states.Keys == states.Keys
    {
      if order == [] then this
      else
        var before := KeepInitials(order[..|order| - 1], exts);
        before.KeepInitial(order[|order| - 1], exts[order[|order| - 1]])
    }
  }

  const EMPTY := Tracking(map[], [], [], [])

  // commandListSubmitted: an announced state becomes permanent unless another one is.
  predicate Contradicts(ext: TextureExt, state: States) {
    ext.permanentState != UNKNOWN && ext.permanentState != state
  }

  function SubmitPermanent(exts: TextureExts, texture: Texture, state: States): (r: TextureExts)
    requires texture in exts
    ensures r.Keys == exts.Keys
  {
    if Contradicts(exts[texture], state) then exts else exts[texture := exts[texture].(permanentState := state)]
  }

  function SubmitMessage(exts: TextureExts, texture: Texture, state: States): seq<Message>
    requires texture in exts
  {
    if Contradicts(exts[texture], state) then [SwitchPermanentTexture(texture, state)] else []
  }

  function SubmitPermanents(exts: TextureExts, permanents: Permanents): (r: TextureExts)
    requires forall p :: p in permanents ==> p.0 in exts
    ensures r.Keys == exts.Keys
  {
    if permanents == [] then exts
    else
      var last := permanents[|permanents| - 1];
      SubmitPermanent(SubmitPermanents(exts, permanents[..|permanents| - 1]), last.0, last.1)
  }

  function SubmitMessages(exts: TextureExts, permanents: Permanents): seq<Message>
    requires forall p :: p in permanents ==> p.0 in exts
  {
    if permanents == [] then []
    else
      var rest, last := permanents[..|permanents| - 1], permanents[|permanents| - 1];
      SubmitMessages(exts, rest) + SubmitMessage(SubmitPermanents(exts, rest), last.0, last.1)
  }

  function SubmitInitialized(exts: TextureExts, tracked: set<Texture>): (r: TextureExts)
    ensures r.Keys == exts.Keys
  {
    map t | t in exts :: if t in tracked && t.desc.keepInitialState then exts[t].(stateInitialized := true) else exts[t]
  }

  function Announced(permanents: Permanents, texture: Texture): set<States> {
    set p | p in permanents && p.0 == texture :: p.1
  }

  // The first state announced for a texture or buffer.
  function FirstAnnounced<T(==)>(permanents: seq<(T, States)>, resource: T): Option<States> {
    if permanents == [] then None
    else if permanents[0].0 == resource then Some(permanents[0].1)
    else FirstAnnounced(permanents[1..], resource)
  }

  lemma {:induction false} FirstAnnouncedPush<T>(permanents: seq<(T, States)>, p: (T, States), resource: T)
    ensures FirstAnnounced(permanents + [p], resource)
            == if FirstAnnounced(permanents, resource).Some? then FirstAnnounced(permanents, resource)
               else if p.0 == resource then Some(p.1) else None
  {
    var longer := permanents + [p];
    if permanents == [] {
      assert longer[1..] == [];
    } else {
      assert longer[0] == permanents[0] && longer[1..] == permanents[1..] + [p];
      FirstAnnouncedPush(permanents[1..], p, resource);
    }
  }

  // What submission makes of one texture: the first state announced for it becomes
  // permanent, if none was before.
  lemma {:induction false} SubmitPermanentsAt(exts: TextureExts, permanents: Permanents, texture: Texture)
    requires forall p :: p in permanents ==> p.0 in exts && p.1 != UNKNOWN
    requires texture in exts
    ensures var first := FirstAnnounced(permanents, texture);
            && SubmitPermanents(exts, permanents)[texture]
               == (if exts[texture].permanentState != UNKNOWN || first == None then exts[texture]
                   else exts[texture].(permanentState := first.value))
            && (first == None ==> Announced(permanents, texture) == {})
            && (first.Some? ==> first.value in Announced(permanents, texture) && first.value != UNKNOWN)
  {
    if permanents != [] {
      var rest, last := permanents[..|permanents| - 1], permanents[|permanents| - 1];
      assert permanents == rest + [last];
      SubmitPermanentsAt(exts, rest, texture);
      FirstAnnouncedPush(rest, last, texture);
      assert Announced(permanents, texture) == Announced(rest, texture) + (if last.0 == texture then {last.1} else {});
    }
  }

  // A permanent transition is announced exactly when it covers every subresource; otherwise
  // the first error it reports says that it does not. Either way the range is required.
  lemma SetPermanentAnnouncesIff(k: Tracking, texture: Texture, ext: TextureExt, subresources: TextureSubresourceSet, state: States)
    requires k.Valid()
    ensures var r, required := k.SetPermanent(texture, ext, subresources, state), k.Require(texture, ext, subresources, state);
            && r.pending == required.pending
            && if forall i: nat :: i < texture.desc.NumSubresources() ==> Covers(texture.desc, subresources, i)
               then r.permanents == k.permanents + [(texture, state)] && r.messages == required.messages
               else && r.permanents == k.permanents && r.states == required.states
                    && |k.messages| < |r.messages| && r.messages[|k.messages|] == PartialPermanentTransition(texture)
  {
    ResolveIdempotent(texture.desc, subresources, false);
    EntireTextureIff(texture.desc, subresources);
    RequireResolved(texture, k.Lookup(texture, ext), subresources, state);
  }

  // Requiring a range or the resolved range is the same.
  lemma RequireResolved(texture: Texture, t: TextureState, subresources: TextureSubresourceSet, state: States)
    requires t.ValidFor(texture.desc)
    ensures RequireState(texture, t, subresources.Resolve(texture.desc, false), state) == RequireState(texture, t, subresources, state)
  {
    ResolveIdempotent(texture.desc, subresources, false);
  }

  // Submission reports an error exactly when some announced state did not become, or stay,
  // the permanent one.
  lemma {:induction false} SubmitReportsIff(exts: TextureExts, permanents: Permanents)
    requires forall p :: p in permanents ==> p.0 in exts && p.1 != UNKNOWN
    ensures SubmitMessages(exts, permanents) == []
            <==> forall p :: p in permanents ==> SubmitPermanents(exts, permanents)[p.0].permanentState == p.1
  {
    if permanents != [] {
      var rest, last := permanents[..|permanents| - 1], permanents[|permanents| - 1];
      assert permanents == rest + [last];
      SubmitReportsIff(exts, rest);
      SubmitPermanentsAt(exts, rest, last.0);
      forall p | p in rest ensures SubmitPermanents(exts, permanents)[p.0] == SubmitPermanents(exts, rest)[p.0] {
        SubmitPermanentsAt(exts, rest, p.0);
        FirstAnnouncedIs(rest, p);
      }
    }
  }

  lemma {:induction false} FirstAnnouncedIs(permanents: Permanents, p: (Texture, States))
    requires p in permanents
    ensures FirstAnnounced(permanents, p.0).Some?
  {
    if permanents[0].0 != p.0 {
      FirstAnnouncedIs(permanents[1..], p);
    }
  }

  // A permanent texture or buffer serves a requirement without an error exactly when it has
  // every flag asked for; then it is in every D3D12 state asked for, too.
  lemma ServedIff(isTexture: bool, permanentState: States, requiredState: States)
    ensures VerifyPermanent(isTexture, permanentState, requiredState) == [] <==> forall flag :: flag in requiredState ==> flag in permanentState
    ensures VerifyPermanent(isTexture, permanentState, requiredState) == [] ==> Convert(requiredState) <= Convert(permanentState)
  {
    if VerifyPermanent(isTexture, permanentState, requiredState) == [] {
      ConvertOfUnion(permanentState, requiredState);
      assert permanentState + requiredState == permanentState;
    }
  }

  lemma AnnouncedPush(permanents: Permanents, texture: Texture, state: States, other: Texture)
    ensures Announced(permanents + [(texture, state)], other)
         == Announced(permanents, other) + (if other == texture then {state} else {})
  {
  }

  lemma AllSubresourcesIsEntire(desc: TextureDesc)
    ensures ALL_SUBRESOURCES.Resolve(desc, false).IsEntireTexture(desc)
  {
  }
}
