/**
 Retirement of executed command lists: the pool of recyclable D3D12 command lists of each
 command list (src/d3d12/d3d12-commandlist.cpp, `open` and `executed`) and the instances
 the lifetime tracker keeps alive (src/d3d12/d3d12-device.cpp, `CommandListLifetimeTracker`).

 Both look only at their oldest entry. The run theorems say that this is enough: entries
 stay ordered by submitted instance, an allocator is reset only when the GPU is done with
 everything recorded in it, and collection releases exactly the completed instances.
 */
module RetirementRuns {
  import opened Wrappers
  import opened QueueProtocol

  // InternalCommandList
  datatype InternalList = InternalList(allocator: nat, lastSubmittedInstance: nat)

  // m_CommandListPool, oldest first, and m_ActiveCommandList
  datatype ListState = ListState(pool: seq<InternalList>, active: Option<InternalList>)

  datatype World = World(
    queue: QueueState,
    lists: map<nat, ListState>,
    inFlight: seq<nat>,            // submitted instances kept alive, newest first
    nextAllocator: nat,
    owner: map<nat, nat>,          // the command list an allocator was created for
    busyUntil: map<nat, nat>)      // the last instance that executes commands of an allocator

  datatype Event =
    | OpenEvent(list: nat)
    | ExecuteEvent(lists: seq<nat>)
    | AdvanceEvent(fence: nat)
    | CollectEvent

  predicate Legal(w: World, e: Event) {
    match e
    case OpenEvent(l) => l in w.lists
    case ExecuteEvent(ls) =>
      && (forall l :: l in ls ==> l in w.lists && w.lists[l].active.Some?)
      && (forall i, j :: 0 <= i < j < |ls| ==> ls[i] != ls[j])
    case AdvanceEvent(fence) => w.queue.fence <= fence <= w.queue.lastSubmittedInstance
    case CollectEvent => true
  }

  // The oldest pooled command list, if the GPU has completed it.
  predicate CanReuse(list: ListState, completed: nat) {
    list.pool != [] && list.pool[0].lastSubmittedInstance <= completed
  }

  // The oldest pooled command list if it can be recycled, a new one otherwise.
  function Reopen(list: ListState, completed: nat, newAllocator: nat): ListState {
    if CanReuse(list, completed) then ListState(list.pool[1..], Some(list.pool[0]))
    else ListState(list.pool, Some(InternalList(newAllocator, 0)))
  }

  // The executed command list joins the pool as its newest entry.
  function Finish(list: ListState, instance: nat): ListState
    requires list.active.Some?
  {
    ListState(list.pool + [list.active.value.(lastSubmittedInstance := instance)], None)
  }

  // CommandList::open, the part that concerns the pool.
  function Open(w: World, l: nat): World
    requires l in w.lists
  {
    var queue := w.queue.Update();
    var reuse := CanReuse(w.lists[l], queue.lastCompletedInstance);
    w.(queue := queue.BeginRecording(),
       lists := w.lists[l := Reopen(w.lists[l], queue.lastCompletedInstance, w.nextAllocator)],
       owner := if reuse then w.owner else w.owner[w.nextAllocator := l],
       busyUntil := if reuse then w.busyUntil else w.busyUntil[w.nextAllocator := 0],
       nextAllocator := if reuse then w.nextAllocator else w.nextAllocator + 1)
  }

  // CommandList::executed, the part that concerns the pool and the lifetime tracker.
  function Executed(w: World, l: nat): World
    requires l in w.lists && w.lists[l].active.Some?
  {
    var instance := w.queue.lastSubmittedInstance;
    w.(lists := w.lists[l := Finish(w.lists[l], instance)],
       busyUntil := w.busyUntil[w.lists[l].active.value.allocator := instance],
       inFlight := [instance] + w.inFlight)
  }

  function ExecutedAll(w: World, ls: seq<nat>): (r: World)
    requires forall l :: l in ls ==> l in w.lists && w.lists[l].active.Some?
    requires forall i, j :: 0 <= i < j < |ls| ==> ls[i] != ls[j]
    ensures r.lists.Keys == w.lists.Keys
    ensures forall l :: l in w.lists && l !in ls ==> r.lists[l] == w.lists[l]
    ensures r.queue == w.queue
  {
    if ls == [] then w
    else
      var init, last := ls[..|ls| - 1], ls[|ls| - 1];
      assert forall l :: l in ls <==> l in init || l == last;
      assert last !in init;
      Executed(ExecutedAll(w, init), last)
  }

  // The loop of runGarbageCollection: drop instances from the old end while they are complete.
  function Retire(inFlight: seq<nat>, completed: nat): seq<nat> {
    if inFlight != [] && inFlight[|inFlight| - 1] <= completed then Retire(inFlight[..|inFlight| - 1], completed)
    else inFlight
  }

  function Step(w: World, e: Event): World
    requires Legal(w, e)
  {
    match e
    case OpenEvent(l) => Open(w, l)
    case ExecuteEvent(ls) => ExecutedAll(w.(queue := w.queue.Signal()), ls)
    case AdvanceEvent(fence) => w.(queue := w.queue.(fence := fence))
    case CollectEvent =>
      var queue := w.queue.Update();
      w.(queue := queue, inFlight := Retire(w.inFlight, queue.lastCompletedInstance))
  }

  // ---------- The invariant ----------

  predicate NewestFirst(instances: seq<nat>) {
    forall i, j :: 0 <= i < j < |instances| ==> instances[j] <= instances[i]
  }

  predicate OldestFirst(pool: seq<InternalList>) {
    forall i, j :: 0 <= i < j < |pool| ==> pool[i].lastSubmittedInstance <= pool[j].lastSubmittedInstance
  }

  predicate DistinctAllocators(pool: seq<InternalList>) {
    forall i, j :: 0 <= i < j < |pool| ==> pool[i].allocator != pool[j].allocator
  }

  predicate Owns(w: World, l: nat, c: InternalList) {
    c.allocator < w.nextAllocator && c.allocator in w.owner && w.owner[c.allocator] == l && c.allocator in w.busyUntil
  }

  predicate ListOk(w: World, l: nat, list: ListState) {
    && OldestFirst(list.pool) && DistinctAllocators(list.pool)
    && (forall c :: c in list.pool ==>
          Owns(w, l, c) && w.busyUntil[c.allocator] == c.lastSubmittedInstance <= w.queue.lastSubmittedInstance)
    && (list.active.Some? ==>
          && Owns(w, l, list.active.value) && w.busyUntil[list.active.value.allocator] <= w.queue.fence
          && forall c :: c in list.pool ==> c.allocator != list.active.value.allocator)
  }

  predicate Inv(w: World) {
    && w.queue.Valid()
    && NewestFirst(w.inFlight) && (forall x :: x in w.inFlight ==> x <= w.queue.lastSubmittedInstance)
    && (forall a :: a in w.owner ==> a < w.nextAllocator)
    && forall l :: l in w.lists ==> ListOk(w, l, w.lists[l])
  }

  predicate Init(w: World) {
    && w.queue == NEW_QUEUE && w.inFlight == [] && w.owner == map[] && w.busyUntil == map[]
    && forall l :: l in w.lists ==> w.lists[l] == ListState([], None)
  }

  // A list is not affected by new allocators, other lists' submissions or progress.
  lemma ListOkCarries(w: World, r: World, l: nat, list: ListState)
    requires ListOk(w, l, list)
    requires w.nextAllocator <= r.nextAllocator && w.queue.fence <= r.queue.fence
    requires w.queue.lastSubmittedInstance <= r.queue.lastSubmittedInstance
    requires forall a :: a in w.owner && w.owner[a] == l ==> a in r.owner && r.owner[a] == l
    requires forall a :: a in w.owner && w.owner[a] == l && a in w.busyUntil ==> a in r.busyUntil && r.busyUntil[a] == w.busyUntil[a]
    ensures ListOk(r, l, list)
  {
  }

  lemma ReuseOk(w: World, l: nat, list: ListState)
    requires w.queue.Valid() && ListOk(w, l, list) && CanReuse(list, w.queue.fence)
    ensures ListOk(w, l, ListState(list.pool[1..], Some(list.pool[0])))
  {
  }

  lemma CreateOk(w: World, l: nat, list: ListState, active: InternalList)
    requires ListOk(w, l, list) && Owns(w, l, active)
    requires w.busyUntil[active.allocator] <= w.queue.fence
    requires forall c :: c in list.pool ==> c.allocator != active.allocator
    ensures ListOk(w, l, ListState(list.pool, Some(active)))
  {
  }

  lemma OpenKeeps(w: World, l: nat)
    requires Inv(w) && l in w.lists
    ensures Inv(Open(w, l))
  {
    var r := Open(w, l);
    var list := w.lists[l];
    forall other | other in w.lists
      ensures ListOk(r, other, w.lists[other])
    {
      ListOkCarries(w, r, other, w.lists[other]);
    }
    if CanReuse(list, w.queue.Update().lastCompletedInstance) {
      ReuseOk(r, l, list);
    } else {
      assert ListOk(w, l, list);
      CreateOk(r, l, list, r.lists[l].active.value);
    }
  }

  // The executed command list joins the pool as its newest entry.
  lemma ExecutedOwn(w: World, l: nat)
    requires Inv(w) && l in w.lists && w.lists[l].active.Some?
    ensures ListOk(Executed(w, l), l, Executed(w, l).lists[l])
  {
  }

  lemma NewestFirstPush(instances: seq<nat>, x: nat)
    requires NewestFirst(instances) && forall y :: y in instances ==> y <= x
    ensures NewestFirst([x] + instances)
  {
    var all := [x] + instances;
    forall i, j | 0 <= i < j < |all|
      ensures all[j] <= all[i]
    {
      assert all[j] == instances[j - 1] && instances[j - 1] in instances;
    }
  }

  lemma ExecutedKeeps(w: World, l: nat)
    requires Inv(w) && l in w.lists && w.lists[l].active.Some?
    ensures Inv(Executed(w, l))
  {
    var r := Executed(w, l);
    ExecutedOwn(w, l);
    NewestFirstPush(w.inFlight, w.queue.lastSubmittedInstance);
    assert ListOk(w, l, w.lists[l]);
    forall other | other in w.lists && other != l
      ensures ListOk(r, other, r.lists[other])
    {
      ListOkCarries(w, r, other, w.lists[other]);
    }
  }

  lemma {:induction false} ExecutedAllKeeps(w: World, ls: seq<nat>)
    requires Inv(w)
    requires forall l :: l in ls ==> l in w.lists && w.lists[l].active.Some?
    requires forall i, j :: 0 <= i < j < |ls| ==> ls[i] != ls[j]
    ensures Inv(ExecutedAll(w, ls))
  {
    if ls != [] {
      var init, last := ls[..|ls| - 1], ls[|ls| - 1];
      ExecutedAllKeeps(w, init);
      assert last in ls && last !in init;
      ExecutedKeeps(ExecutedAll(w, init), last);
    }
  }

  lemma QueueMoves(w: World, queue: QueueState)
    requires Inv(w) && queue.Valid()
    requires w.queue.fence <= queue.fence && w.queue.lastSubmittedInstance <= queue.lastSubmittedInstance
    ensures Inv(w.(queue := queue))
  {
  }

  // On an ordered deque, collecting from the old end releases exactly the completed instances.
  lemma {:induction false} RetireIsExact(inFlight: seq<nat>, completed: nat)
    requires NewestFirst(inFlight)
    ensures Retire(inFlight, completed) <= inFlight
    ensures forall x :: x in Retire(inFlight, completed) ==> completed < x
    ensures forall x :: x in inFlight[|Retire(inFlight, completed)|..] ==> x <= completed
  {
    if inFlight != [] && inFlight[|inFlight| - 1] <= completed {
      var init, last := inFlight[..|inFlight| - 1], inFlight[|inFlight| - 1];
      RetireIsExact(init, completed);
      var n := |Retire(inFlight, completed)|;
      assert inFlight[n..] == init[n..] + [last];
    }
  }

  lemma CollectKeeps(w: World)
    requires Inv(w)
    ensures Inv(Step(w, CollectEvent))
  {
    QueueMoves(w, w.queue.Update());
    RetireIsExact(w.inFlight, w.queue.Update().lastCompletedInstance);
    var r := Step(w, CollectEvent);
    assert forall x :: x in r.inFlight ==> x in w.inFlight;
    forall l | l in r.lists
      ensures ListOk(r, l, r.lists[l])
    {
      assert ListOk(w.(queue := w.queue.Update()), l, w.lists[l]);
    }
  }

  lemma StepKeeps(w: World, e: Event)
    requires Inv(w) && Legal(w, e)
    ensures Inv(Step(w, e))
  {
    match e
    case OpenEvent(l) => OpenKeeps(w, l);
    case ExecuteEvent(ls) =>
      QueueMoves(w, w.queue.Signal());
      ExecutedAllKeeps(w.(queue := w.queue.Signal()), ls);
    case AdvanceEvent(fence) => QueueMoves(w, w.queue.(fence := fence));
    case CollectEvent => CollectKeeps(w);
  }

  ghost predicate IsRun(worlds: seq<World>, events: seq<Event>) {
    && |worlds| == |events| + 1
    && Init(worlds[0])
    && forall i :: 0 <= i < |events| ==> Legal(worlds[i], events[i]) && worlds[i + 1] == Step(worlds[i], events[i])
  }

  lemma {:induction false} RunKeepsInvariant(worlds: seq<World>, events: seq<Event>, n: nat)
    requires IsRun(worlds, events) && n < |worlds|
    ensures Inv(worlds[n])
  {
    if 0 < n {
      RunKeepsInvariant(worlds, events, n - 1);
      StepKeeps(worlds[n - 1], events[n - 1]);
    }
  }

  // Whenever a list is opened: if its allocator is recycled, the GPU has completed
  // everything recorded in it; and one is recycled whenever any pooled one is complete.
  lemma OpenRecyclesExactly(worlds: seq<World>, events: seq<Event>, n: nat, l: nat)
    requires IsRun(worlds, events) && n < |events| && events[n] == OpenEvent(l)
    ensures l in worlds[n].lists && worlds[n + 1].lists[l].active.Some?
    ensures var w, allocator := worlds[n], worlds[n + 1].lists[l].active.value.allocator;
            allocator < w.nextAllocator ==> allocator in w.busyUntil && w.busyUntil[allocator] <= w.queue.fence
    ensures worlds[n + 1].lists[l].active.value.allocator < worlds[n].nextAllocator
       <==> exists c :: c in worlds[n].lists[l].pool && c.lastSubmittedInstance <= worlds[n].queue.fence
  {
    var w := worlds[n];
    RunKeepsInvariant(worlds, events, n);
    assert ListOk(w, l, w.lists[l]);
    w.queue.UpdateNotices();
    var completed := w.queue.Update().lastCompletedInstance;
    if CanReuse(w.lists[l], completed) {
      assert w.lists[l].pool[0] in w.lists[l].pool;
    }
  }

  // Whenever garbage is collected, exactly the instances the GPU has completed are released.
  lemma CollectReleasesExactly(worlds: seq<World>, events: seq<Event>, n: nat, x: nat)
    requires IsRun(worlds, events) && n < |events| && events[n] == CollectEvent
    ensures x in worlds[n + 1].inFlight <==> x in worlds[n].inFlight && worlds[n].queue.fence < x
    ensures worlds[n + 1].inFlight <= worlds[n].inFlight
  {
    RunKeepsInvariant(worlds, events, n);
    worlds[n].queue.UpdateNotices();
    var before, after := worlds[n].inFlight, worlds[n + 1].inFlight;
    RetireIsExact(before, worlds[n].queue.Update().lastCompletedInstance);
    assert before == after + before[|after|..];
  }

  // ---------- Numbering ----------

  // Instances are handed out one after the other: executed lists get one that is newer than
  // everything in flight, and that the GPU has not completed.
  lemma InstancesAreNew(worlds: seq<World>, events: seq<Event>, n: nat)
    requires IsRun(worlds, events) && n < |events| && events[n].ExecuteEvent?
    ensures var next, added := worlds[n + 1], |events[n].lists|;
            var instance, inFlight := next.queue.lastSubmittedInstance, next.inFlight;
            && (forall x :: x in worlds[n].inFlight ==> x < instance) && next.queue.fence < instance
            && |inFlight| == added + |worlds[n].inFlight| && inFlight[added..] == worlds[n].inFlight
            && forall x :: x in inFlight[..added] ==> x == instance
  {
    RunKeepsInvariant(worlds, events, n);
    ExecutedAllInFlight(worlds[n].(queue := worlds[n].queue.Signal()), events[n].lists);
  }

  lemma {:induction false} ExecutedAllInFlight(w: World, ls: seq<nat>)
    requires forall l :: l in ls ==> l in w.lists && w.lists[l].active.Some?
    requires forall i, j :: 0 <= i < j < |ls| ==> ls[i] != ls[j]
    ensures var r := ExecutedAll(w, ls).inFlight;
            && |r| == |ls| + |w.inFlight| && r[|ls|..] == w.inFlight
            && forall x :: x in r[..|ls|] ==> x == w.queue.lastSubmittedInstance
  {
    if ls != [] {
      var init, last := ls[..|ls| - 1], ls[|ls| - 1];
      assert last in ls && last !in init;
      ExecutedAllInFlight(w, init);
      var before := ExecutedAll(w, init).inFlight;
      var after := ExecutedAll(w, ls).inFlight;
      assert after == [w.queue.lastSubmittedInstance] + before;
      assert after[..|ls|] == [w.queue.lastSubmittedInstance] + before[..|init|];
    }
  }

  // Recording instances are handed out once: a later recording has a larger one.
  lemma {:induction false} RecordingsDiffer(worlds: seq<World>, events: seq<Event>, i: nat, n: nat)
    requires IsRun(worlds, events) && i < n < |worlds| && events[i].OpenEvent?
    ensures worlds[i].queue.recordingInstance < worlds[n].queue.recordingInstance
  {
    if i + 1 < n {
      RecordingsDiffer(worlds, events, i, n - 1);
    }
  }
}
