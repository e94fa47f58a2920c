/**
 The recycling protocol of upload memory: command lists of one queue are opened,
 sub-allocate upload memory while recording, and are executed on that queue in batches,
 while the GPU advances its fence at any time
 (src/d3d12/d3d12-upload.cpp, src/d3d12/d3d12-commandlist.cpp, src/d3d12/d3d12-device.cpp).

 Each list stands for one manager; the upload and the scratch manager of a command list are
 opened and executed together. `grants` remembers every region handed out. The main theorem, `RunNeverShares`, says
 that in every reachable world the regions still in use - being recorded, or submitted
 and not yet completed by the GPU - are pairwise disjoint. Lists may be reopened without
 having been executed.
 */
module UploadRuns {
  import opened Wrappers
  import opened Versioning
  import opened UploadChunks
  import opened QueueProtocol

  datatype ListState = ListState(manager: Manager, settings: Settings, recordingVersion: Version)

  // A region handed to a recording, and the instance it was submitted as.
  datatype Grant = Grant(list: nat, recording: Version, region: Region, submitted: Option<nat>)

  datatype World = World(
    queue: QueueState,
    kind: CommandQueue,
    lists: map<nat, ListState>,
    nextBuffer: nat,         // identity of the next buffer to be created
    grants: seq<Grant>)

  datatype Event =
    | OpenEvent(list: nat)
    | SuballocateEvent(list: nat, size: nat, alignment: nat, allocatedMemory: nat)
    | ExecuteEvent(lists: seq<nat>)
    | AdvanceEvent(fence: nat)
    | CollectEvent

  predicate Legal(w: World, e: Event) {
    match e
    case OpenEvent(l) => l in w.lists && w.queue.recordingInstance < ID_RANGE
    case SuballocateEvent(l, _, alignment, allocatedMemory) =>
      && l in w.lists && w.lists[l].recordingVersion != 0 && 0 < alignment
      && (w.lists[l].settings.isScratch ==> allocatedMemory == 0)
    case ExecuteEvent(ls) =>
      && (forall l :: l in ls ==> l in w.lists && w.lists[l].recordingVersion != 0)
      && (forall i, j :: 0 <= i < j < |ls| ==> ls[i] != ls[j])
      && w.queue.lastSubmittedInstance + 1 < ID_RANGE
    case AdvanceEvent(fence) => w.queue.fence <= fence <= w.queue.lastSubmittedInstance
    case CollectEvent => true
  }

  // CommandList::open, the part that concerns upload memory.
  function Open(w: World, l: nat): World
    requires l in w.lists
  {
    var queue := w.queue.Update();
    w.(queue := queue.BeginRecording(),
       lists := w.lists[l := w.lists[l].(recordingVersion := MakeVersion(queue.recordingInstance, w.kind, false))])
  }

  function AllocationOf(w: World, l: nat, size: nat, alignment: nat, allocatedMemory: nat): Allocation
    requires l in w.lists && 0 < alignment
  {
    Suballocate(w.lists[l].manager, w.lists[l].settings, size, alignment, w.lists[l].recordingVersion,
                w.queue.lastCompletedInstance, allocatedMemory, w.nextBuffer)
  }

  // A command list asks its upload manager for memory (CommandList::allocateUploadBuffer).
  function Allocate(w: World, l: nat, size: nat, alignment: nat, allocatedMemory: nat): World
    requires l in w.lists && 0 < alignment
  {
    Apply(w, l, AllocationOf(w, l, size, alignment, allocatedMemory))
  }

  function Apply(w: World, l: nat, a: Allocation): World
    requires l in w.lists
  {
    w.(lists := w.lists[l := w.lists[l].(manager := a.manager)],
       nextBuffer := if a.created then w.nextBuffer + 1 else w.nextBuffer,
       grants := w.grants + (if a.region.Some? then [Grant(l, w.lists[l].recordingVersion, a.region.value, None)] else []))
  }

  function SubmittedGrant(g: Grant, l: nat, recording: Version, instance: nat): Grant {
    if g.list == l && g.recording == recording && g.submitted.None? then g.(submitted := Some(instance)) else g
  }

  function SubmitGrants(grants: seq<Grant>, l: nat, recording: Version, instance: nat): (r: seq<Grant>)
    ensures |r| == |grants| && forall i :: 0 <= i < |r| ==> r[i] == SubmittedGrant(grants[i], l, recording, instance)
  {
    seq(|grants|, i requires 0 <= i < |grants| => SubmittedGrant(grants[i], l, recording, instance))
  }

  // CommandList::executed, the part that concerns upload memory.
  function Executed(w: World, l: nat): World
    requires l in w.lists
  {
    var instance := w.queue.lastSubmittedInstance;
    var list := w.lists[l];
    w.(lists := w.lists[l := list.(manager := SubmitChunks(list.manager, list.recordingVersion, MakeVersion(instance, w.kind, true)),
                                   recordingVersion := 0)],
       grants := SubmitGrants(w.grants, l, list.recordingVersion, instance))
  }

  function ExecutedAll(w: World, ls: seq<nat>): (r: World)
    requires forall l :: l in ls ==> l in w.lists
    ensures r.lists.Keys == w.lists.Keys
  {
    if ls == [] then w else Executed(ExecutedAll(w, ls[..|ls| - 1]), ls[|ls| - 1])
  }

  function Step(w: World, e: Event): World
    requires Legal(w, e)
  {
    match e
    case OpenEvent(l) => Open(w, l)
    case SuballocateEvent(l, size, alignment, allocatedMemory) => Allocate(w, l, size, alignment, allocatedMemory)
    case ExecuteEvent(ls) => ExecutedAll(w.(queue := w.queue.Signal()), ls)
    case AdvanceEvent(fence) => w.(queue := w.queue.(fence := fence))
    case CollectEvent => w.(queue := w.queue.Update())
  }

  // ---------- The invariant ----------

  // The GPU may still read the region: it is being recorded, or its submission is not
  // complete. A recording that is never executed keeps its regions in use.
  predicate InUse(g: Grant, fence: nat) {
    g.submitted.None? || fence < g.submitted.value
  }

  predicate Disjoint(a: Region, b: Region) {
    a.buffer != b.buffer || a.offset + a.size <= b.offset || b.offset + b.size <= a.offset
  }

  predicate GrantsDisjoint(grants: seq<Grant>, fence: nat) {
    forall i, j :: 0 <= i < j < |grants| && InUse(grants[i], fence) && InUse(grants[j], fence) ==>
      Disjoint(grants[i].region, grants[j].region)
  }

  // What the version word of a chunk says about the regions of it that are in use.
  predicate GrantMatches(g: Grant, l: nat, recordingVersion: Version, c: Chunk) {
    && g.list == l
    && g.region.offset + g.region.size <= c.writePointer
    && c.version != 0
    && (IsSubmitted(c.version) ==> g.submitted.Some? && g.submitted.value <= GetInstance(c.version))
    && (c.version == recordingVersion ==> g.submitted.None? && g.recording == recordingVersion)
  }

  predicate ChunkOk(queue: QueueState, nextBuffer: nat, grants: seq<Grant>, l: nat, recordingVersion: Version, c: Chunk) {
    && c.buffer < nextBuffer
    && c.writePointer <= c.bufferSize
    && GetInstance(c.version) < (if IsSubmitted(c.version) then queue.lastSubmittedInstance + 1 else queue.recordingInstance)
    && forall i :: 0 <= i < |grants| && InUse(grants[i], queue.fence) && grants[i].region.buffer == c.buffer ==>
         GrantMatches(grants[i], l, recordingVersion, c)
  }

  predicate ListOk(queue: QueueState, nextBuffer: nat, grants: seq<Grant>, l: nat, list: ListState) {
    && (list.recordingVersion != 0 ==>
          !IsSubmitted(list.recordingVersion) && GetInstance(list.recordingVersion) < queue.recordingInstance)
    && (list.manager.current.Some? ==> list.manager.current.value.version != 0 && !IsSubmitted(list.manager.current.value.version))
    && DistinctBuffers(Chunks(list.manager))
    && forall c :: c in Chunks(list.manager) ==> ChunkOk(queue, nextBuffer, grants, l, list.recordingVersion, c)
  }

  predicate ListsApart(a: ListState, b: ListState) {
    forall c, d :: c in Chunks(a.manager) && d in Chunks(b.manager) ==> c.buffer != d.buffer
  }

  predicate Inv(w: World) {
    && w.queue.Valid()
    && w.queue.lastSubmittedInstance < ID_RANGE && w.queue.recordingInstance <= ID_RANGE
    && (forall i :: 0 <= i < |w.grants| ==> w.grants[i].region.buffer < w.nextBuffer)
    && GrantsDisjoint(w.grants, w.queue.fence)
    && (forall l :: l in w.lists ==> ListOk(w.queue, w.nextBuffer, w.grants, l, w.lists[l]))
    && (forall l, l' :: l in w.lists && l' in w.lists && l != l' ==> ListsApart(w.lists[l], w.lists[l']))
  }

  // A limited scratch manager has no chunk beyond its limit: m_AllocatedMemory is never
  // updated, so it stays zero.
  predicate IsBounded(list: ListState) {
    list.settings.isScratch && 0 < list.settings.memoryLimit ==> WithinLimit(Chunks(list.manager), list.settings.memoryLimit)
  }

  predicate AllBounded(w: World) {
    forall l :: l in w.lists ==> IsBounded(w.lists[l])
  }

  predicate Init(w: World) {
    && w.queue == NEW_QUEUE && w.grants == []
    && forall l :: l in w.lists ==>
         w.lists[l].manager == Manager([], None) && w.lists[l].recordingVersion == 0
  }

  // ---------- Steps keep the invariant ----------

  // Completing work, and time passing, only frees regions.
  lemma QueueMoves(w: World, queue: QueueState)
    requires Inv(w) && queue.Valid()
    requires w.queue.fence <= queue.fence && w.queue.lastSubmittedInstance <= queue.lastSubmittedInstance < ID_RANGE
    requires w.queue.recordingInstance <= queue.recordingInstance <= ID_RANGE
    ensures Inv(w.(queue := queue))
  {
  }

  lemma OpenKeeps(w: World, l: nat)
    requires Inv(w) && Legal(w, OpenEvent(l))
    ensures Inv(Open(w, l))
  {
    var queue := w.queue.Update();
    QueueMoves(w, queue.BeginRecording());
    var version := MakeVersion(queue.recordingInstance, w.kind, false);
    RoundTrip(queue.recordingInstance, w.kind, false);
    var list := w.lists[l];
    forall c | c in Chunks(list.manager)
      ensures ChunkOk(queue.BeginRecording(), w.nextBuffer, w.grants, l, version, c)
    {
      assert ChunkOk(w.queue, w.nextBuffer, w.grants, l, list.recordingVersion, c);
      assert ChunkOk(queue.BeginRecording(), w.nextBuffer, w.grants, l, list.recordingVersion, c);
      assert c.version != version;
    }
  }

  // The chunks of the executed list turn submitted together with their regions; nothing
  // else changes for anyone.
  lemma ExecutedChunk(w: World, l: nat, owner: nat, c: Chunk)
    requires Inv(w) && l in w.lists && owner in w.lists && w.lists[l].recordingVersion != 0
    requires c in Chunks(w.lists[owner].manager)
    ensures var instance := w.queue.lastSubmittedInstance;
            var recording := w.lists[l].recordingVersion;
            var grants := SubmitGrants(w.grants, l, recording, instance);
            ChunkOk(w.queue, w.nextBuffer, grants, owner,
                    if owner == l then 0 else w.lists[owner].recordingVersion,
                    if owner == l then Submitted(c, recording, MakeVersion(instance, w.kind, true)) else c)
  {
    var instance := w.queue.lastSubmittedInstance;
    RoundTrip(instance, w.kind, true);
    assert ListOk(w.queue, w.nextBuffer, w.grants, owner, w.lists[owner]);
    assert ChunkOk(w.queue, w.nextBuffer, w.grants, owner, w.lists[owner].recordingVersion, c);
  }

  lemma SubmitAllKeepsBuffers(chunks: seq<Chunk>, currentVersion: Version, submittedVersion: Version)
    requires DistinctBuffers(chunks)
    ensures var after := SubmitAll(chunks, currentVersion, submittedVersion);
            && DistinctBuffers(after)
            && forall c :: c in after ==> exists o :: o in chunks && c == Submitted(o, currentVersion, submittedVersion)
  {
  }

  lemma ExecutedOwnList(w: World, l: nat)
    requires Inv(w) && l in w.lists && w.lists[l].recordingVersion != 0
    ensures var r := Executed(w, l);
            && ListOk(r.queue, r.nextBuffer, r.grants, l, r.lists[l])
            && forall c :: c in Chunks(r.lists[l].manager) ==> exists o :: o in Chunks(w.lists[l].manager) && o.buffer == c.buffer
  {
    var r := Executed(w, l);
    var list := w.lists[l];
    var before, after := Chunks(list.manager), Chunks(r.lists[l].manager);
    var submitted := MakeVersion(w.queue.lastSubmittedInstance, w.kind, true);
    assert ListOk(w.queue, w.nextBuffer, w.grants, l, list);
    assert after == SubmitAll(before, list.recordingVersion, submitted);
    SubmitAllKeepsBuffers(before, list.recordingVersion, submitted);
    forall c | c in after
      ensures ChunkOk(r.queue, r.nextBuffer, r.grants, l, 0, c)
      ensures exists o :: o in before && o.buffer == c.buffer
    {
      var o :| o in before && c == Submitted(o, list.recordingVersion, submitted);
      ExecutedChunk(w, l, l, o);
    }
  }

  lemma ExecutedOtherList(w: World, l: nat, other: nat)
    requires Inv(w) && l in w.lists && other in w.lists && other != l && w.lists[l].recordingVersion != 0
    ensures ListOk(Executed(w, l).queue, Executed(w, l).nextBuffer, Executed(w, l).grants, other, w.lists[other])
  {
  }

  lemma BuffersKnown(w: World)
    requires Inv(w)
    ensures forall l, c :: l in w.lists && c in Chunks(w.lists[l].manager) ==> c.buffer < w.nextBuffer
  {
  }

  lemma ExecutedKeeps(w: World, l: nat)
    requires Inv(w) && l in w.lists && w.lists[l].recordingVersion != 0
    ensures Inv(Executed(w, l))
  {
    var r := Executed(w, l);
    ExecutedOwnList(w, l);
    forall other | other in w.lists && other != l
      ensures ListOk(r.queue, r.nextBuffer, r.grants, other, w.lists[other])
    {
      ExecutedOtherList(w, l, other);
    }
    BuffersKnown(w);
    ListsStayApart(w, r, l);
  }

  // A list whose buffers are among those it had, or newly created, stays apart from the others.
  lemma ListsStayApart(w: World, r: World, l: nat)
    requires l in w.lists && l in r.lists && r.lists == w.lists[l := r.lists[l]]
    requires forall a, b :: a in w.lists && b in w.lists && a != b ==> ListsApart(w.lists[a], w.lists[b])
    requires forall a, c :: a in w.lists && c in Chunks(w.lists[a].manager) ==> c.buffer < w.nextBuffer
    requires forall c :: c in Chunks(r.lists[l].manager) ==>
               w.nextBuffer <= c.buffer || exists o :: o in Chunks(w.lists[l].manager) && o.buffer == c.buffer
    ensures forall a, b :: a in r.lists && b in r.lists && a != b ==> ListsApart(r.lists[a], r.lists[b])
  {
  }

  lemma {:induction false} ExecutedAllKeeps(w: World, ls: seq<nat>)
    requires Inv(w)
    requires forall l :: l in ls ==> l in w.lists && w.lists[l].recordingVersion != 0
    requires forall i, j :: 0 <= i < j < |ls| ==> ls[i] != ls[j]
    ensures Inv(ExecutedAll(w, ls))
    ensures forall l :: l in w.lists && l !in ls ==> ExecutedAll(w, ls).lists[l] == w.lists[l]
  {
    if ls != [] {
      var init, last := ls[..|ls| - 1], ls[|ls| - 1];
      ExecutedAllKeeps(w, init);
      assert last !in init;
      ExecutedKeeps(ExecutedAll(w, init), last);
    }
  }

  // Reclaiming a chunk is sound: no region of it is in use.
  lemma ReclaimedOk(queue: QueueState, nextBuffer: nat, grants: seq<Grant>, l: nat, recordingVersion: Version, c: Chunk)
    requires queue.Valid() && ChunkOk(queue, nextBuffer, grants, l, recordingVersion, c)
    ensures ChunkOk(queue, nextBuffer, grants, l, recordingVersion, Reclaimed(c, queue.lastCompletedInstance))
  {
  }

  // An available chunk has no region in use.
  predicate Unused(grants: seq<Grant>, fence: nat, buffer: nat) {
    forall i :: 0 <= i < |grants| && InUse(grants[i], fence) ==> grants[i].region.buffer != buffer
  }

  lemma ScannedChunkOk(w: World, l: nat, size: nat, c: Chunk)
    requires Inv(w) && l in w.lists
    requires var scan := Scan(w.lists[l].manager.pool, w.queue.lastCompletedInstance, size); c in scan.pool || scan.found == Some(c)
    ensures ChunkOk(w.queue, w.nextBuffer, w.grants, l, w.lists[l].recordingVersion, c)
    ensures exists o :: o in w.lists[l].manager.pool && o.buffer == c.buffer
  {
    var m := w.lists[l].manager;
    assert ListOk(w.queue, w.nextBuffer, w.grants, l, w.lists[l]);
    ScanMembers(m.pool, w.queue.lastCompletedInstance, size, c);
    var o :| o in m.pool && (c == o || c == Reclaimed(o, w.queue.lastCompletedInstance));
    assert o in Chunks(m);
    ReclaimedOk(w.queue, w.nextBuffer, w.grants, l, w.lists[l].recordingVersion, o);
  }

  lemma DistinctPrefix(a: seq<Chunk>, b: seq<Chunk>)
    requires DistinctBuffers(a + b)
    ensures DistinctBuffers(a)
  {
    assert forall i :: 0 <= i < |a| ==> a[i] == (a + b)[i];
  }

  lemma ScannedDistinct(w: World, l: nat, size: nat)
    requires Inv(w) && l in w.lists
    ensures var m := w.lists[l].manager;
            var scan := Scan(m.pool, w.queue.lastCompletedInstance, size);
            DistinctBuffers(scan.pool + Retired(m) + (if scan.found.Some? then [scan.found.value] else []))
  {
    assert ListOk(w.queue, w.nextBuffer, w.grants, l, w.lists[l]);
    ManagerScannedDistinct(w.lists[l].manager, w.queue.lastCompletedInstance, size);
  }

  lemma ManagerScannedDistinct(m: Manager, completed: nat, size: nat)
    requires DistinctBuffers(Chunks(m))
    ensures var scan := Scan(m.pool, completed, size);
            DistinctBuffers(scan.pool + Retired(m) + (if scan.found.Some? then [scan.found.value] else []))
  {
    var scan := Scan(m.pool, completed, size);
    DistinctPrefix(m.pool, Retired(m));
    ScanDistinct(m.pool, completed, size);
    forall c | c in scan.pool || scan.found == Some(c)
      ensures exists o :: o in m.pool && o.buffer == c.buffer
    {
      ScanMembers(m.pool, completed, size, c);
    }
    RetiredDistinct(m, scan.pool, if scan.found.Some? then [scan.found.value] else []);
  }

  // What the scan and retiring leave in the pool.
  lemma ScannedPoolOk(w: World, l: nat, size: nat)
    requires Inv(w) && l in w.lists
    ensures var m := w.lists[l].manager;
            var scan := Scan(m.pool, w.queue.lastCompletedInstance, size);
            && (forall c :: c in scan.pool + Retired(m) || scan.found == Some(c) ==>
                  && ChunkOk(w.queue, w.nextBuffer, w.grants, l, w.lists[l].recordingVersion, c)
                  && exists o :: o in Chunks(m) && o.buffer == c.buffer)
            && DistinctBuffers(scan.pool + Retired(m) + (if scan.found.Some? then [scan.found.value] else []))
            && (scan.found.Some? ==> scan.found.value.version == 0 && size <= scan.found.value.bufferSize)
  {
    var m := w.lists[l].manager;
    var scan := Scan(m.pool, w.queue.lastCompletedInstance, size);
    forall c | c in scan.pool + Retired(m) || scan.found == Some(c)
      ensures ChunkOk(w.queue, w.nextBuffer, w.grants, l, w.lists[l].recordingVersion, c)
      ensures exists o :: o in Chunks(m) && o.buffer == c.buffer
    {
      if c in scan.pool || scan.found == Some(c) {
        ScannedChunkOk(w, l, size, c);
        var o :| o in m.pool && o.buffer == c.buffer;
        assert o in Chunks(m);
      } else {
        assert ListOk(w.queue, w.nextBuffer, w.grants, l, w.lists[l]);
        assert c in Chunks(m);
      }
    }
    ScanExhaustive(m.pool, w.queue.lastCompletedInstance, size);
    ScannedDistinct(w, l, size);
  }

  lemma RetiredDistinct(m: Manager, pool: seq<Chunk>, found: seq<Chunk>)
    requires DistinctBuffers(Chunks(m)) && DistinctBuffers(pool + found) && |found| <= 1
    requires forall c :: c in pool || c in found ==> exists o :: o in m.pool && o.buffer == c.buffer
    ensures DistinctBuffers(pool + Retired(m) + found)
  {
    if m.current.None? {
      assert pool + Retired(m) + found == pool + found;
    } else {
      var current := m.current.value;
      forall c | c in pool || c in found
        ensures c.buffer != current.buffer
      {
        var o :| o in m.pool && o.buffer == c.buffer;
        var i :| 0 <= i < |m.pool| && m.pool[i] == o;
        assert Chunks(m)[i] == o && Chunks(m)[|m.pool|] == current;
      }
      var all := pool + [current] + found;
      forall i, j | 0 <= i < j < |all|
        ensures all[i].buffer != all[j].buffer
      {
        if i < |pool| && |pool| < j {
          assert (pool + found)[i] == all[i] && (pool + found)[j - 1] == all[j];
        } else if j < |pool| {
          assert (pool + found)[i] == all[i] && (pool + found)[j] == all[j];
        }
      }
    }
  }

  // Handing out a region that no region in use overlaps.
  lemma GrantDisjoint(w: World, g: Grant)
    requires Inv(w)
    requires forall i :: 0 <= i < |w.grants| && InUse(w.grants[i], w.queue.fence) ==> Disjoint(w.grants[i].region, g.region)
    ensures GrantsDisjoint(w.grants + [g], w.queue.fence)
  {
  }

  // A chunk is untouched by a region in another buffer.
  lemma OtherChunkOk(w: World, nextBuffer: nat, g: Grant, l: nat, recordingVersion: Version, c: Chunk)
    requires ChunkOk(w.queue, w.nextBuffer, w.grants, l, recordingVersion, c)
    requires w.nextBuffer <= nextBuffer && g.region.buffer != c.buffer
    ensures ChunkOk(w.queue, nextBuffer, w.grants + [g], l, recordingVersion, c)
  {
  }

  // The world after list l got the manager m and the region of g, out of the chunk c.
  function Granted(w: World, l: nat, m: Manager, g: Grant, nextBuffer: nat): World
    requires l in w.lists
  {
    w.(lists := w.lists[l := w.lists[l].(manager := m)], nextBuffer := nextBuffer, grants := w.grants + [g])
  }

  // Granting a region of the current chunk keeps the invariant when the region is clear
  // of those in use and every chunk is accounted for.
  lemma GrantKeeps(w: World, l: nat, pool: seq<Chunk>, c: Chunk, g: Grant, nextBuffer: nat)
    requires Inv(w) && l in w.lists && w.lists[l].recordingVersion != 0
    requires w.nextBuffer <= nextBuffer && g.list == l && g.recording == w.lists[l].recordingVersion && g.submitted.None?
    requires g.region.buffer == c.buffer < nextBuffer
    requires c.version != 0 && !IsSubmitted(c.version)
    requires DistinctBuffers(pool + [c])
    requires forall d :: d in pool ==> ChunkOk(w.queue, w.nextBuffer, w.grants, l, w.lists[l].recordingVersion, d)
    requires forall d :: d in pool + [c] ==> w.nextBuffer <= d.buffer || exists o :: o in Chunks(w.lists[l].manager) && o.buffer == d.buffer
    requires ChunkOk(w.queue, nextBuffer, w.grants + [g], l, w.lists[l].recordingVersion, c)
    requires forall i :: 0 <= i < |w.grants| && InUse(w.grants[i], w.queue.fence) ==> Disjoint(w.grants[i].region, g.region)
    ensures Inv(Granted(w, l, Manager(pool, Some(c)), g, nextBuffer))
  {
    var r := Granted(w, l, Manager(pool, Some(c)), g, nextBuffer);
    GrantDisjoint(w, g);
    BuffersKnown(w);
    ListsStayApart(w, r, l);
    GrantKeepsOwn(w, l, pool, c, g, nextBuffer);
    forall other | other in w.lists && other != l
      ensures ListOk(r.queue, r.nextBuffer, r.grants, other, r.lists[other])
    {
      assert ListOk(w.queue, w.nextBuffer, w.grants, other, w.lists[other]);
      assert ListsApart(r.lists[other], r.lists[l]);
      assert c in Chunks(r.lists[l].manager);
      forall d | d in Chunks(w.lists[other].manager)
        ensures ChunkOk(r.queue, r.nextBuffer, r.grants, other, w.lists[other].recordingVersion, d)
      {
        OtherChunkOk(w, nextBuffer, g, other, w.lists[other].recordingVersion, d);
      }
    }
  }

  lemma GrantKeepsOwn(w: World, l: nat, pool: seq<Chunk>, c: Chunk, g: Grant, nextBuffer: nat)
    requires Inv(w) && l in w.lists
    requires w.nextBuffer <= nextBuffer && g.region.buffer == c.buffer
    requires c.version != 0 && !IsSubmitted(c.version)
    requires DistinctBuffers(pool + [c])
    requires forall d :: d in pool ==> ChunkOk(w.queue, w.nextBuffer, w.grants, l, w.lists[l].recordingVersion, d)
    requires ChunkOk(w.queue, nextBuffer, w.grants + [g], l, w.lists[l].recordingVersion, c)
    ensures ListOk(w.queue, nextBuffer, w.grants + [g], l, w.lists[l].(manager := Manager(pool, Some(c))))
  {
    assert ListOk(w.queue, w.nextBuffer, w.grants, l, w.lists[l]);
    forall d | d in pool
      ensures ChunkOk(w.queue, nextBuffer, w.grants + [g], l, w.lists[l].recordingVersion, d)
    {
      var i :| 0 <= i < |pool| && pool[i] == d;
      assert (pool + [c])[i] == d && (pool + [c])[|pool|] == c;
      OtherChunkOk(w, nextBuffer, g, l, w.lists[l].recordingVersion, d);
    }
  }

  // Using a chunk none of whose regions is in use.
  lemma UseKeeps(w: World, l: nat, pool: seq<Chunk>, c: Chunk, size: nat, nextBuffer: nat)
    requires Inv(w) && l in w.lists && w.lists[l].recordingVersion != 0
    requires w.nextBuffer <= nextBuffer && c.buffer < nextBuffer && size <= c.bufferSize
    requires Unused(w.grants, w.queue.fence, c.buffer)
    requires DistinctBuffers(pool + [c])
    requires forall d :: d in pool ==> ChunkOk(w.queue, w.nextBuffer, w.grants, l, w.lists[l].recordingVersion, d)
    requires forall d :: d in pool + [c] ==> w.nextBuffer <= d.buffer || exists o :: o in Chunks(w.lists[l].manager) && o.buffer == d.buffer
    ensures var version := w.lists[l].recordingVersion;
            Inv(Granted(w, l, Manager(pool, Some(c.(version := version, writePointer := size))),
                        Grant(l, version, Region(c.buffer, 0, size), None), nextBuffer))
  {
    var version := w.lists[l].recordingVersion;
    assert ListOk(w.queue, w.nextBuffer, w.grants, l, w.lists[l]);
    var used := c.(version := version, writePointer := size);
    var g := Grant(l, version, Region(c.buffer, 0, size), None);
    DistinctReplaceLast(pool, c, used);
    forall d | d in pool + [used]
      ensures w.nextBuffer <= d.buffer || exists o :: o in Chunks(w.lists[l].manager) && o.buffer == d.buffer
    {
      if d == used {
        assert c in pool + [c];
      } else {
        assert d in pool + [c];
      }
    }
    GrantKeeps(w, l, pool, used, g, nextBuffer);
  }

  lemma DistinctReplaceLast(pool: seq<Chunk>, c: Chunk, d: Chunk)
    requires DistinctBuffers(pool + [c]) && c.buffer == d.buffer
    ensures DistinctBuffers(pool + [d])
  {
    forall i, j | 0 <= i < j < |pool + [d]|
      ensures (pool + [d])[i].buffer != (pool + [d])[j].buffer
    {
      assert (pool + [c])[i].buffer == (pool + [d])[i].buffer && (pool + [c])[j].buffer == (pool + [d])[j].buffer;
    }
  }

  // A region behind the write pointer of a pending chunk is clear of those in use.
  lemma AppendedChunkOk(w: World, l: nat, recordingVersion: Version, c: Chunk, offset: nat, size: nat)
    requires ChunkOk(w.queue, w.nextBuffer, w.grants, l, recordingVersion, c)
    requires c.version != 0 && !IsSubmitted(c.version) && c.writePointer <= offset && offset + size <= c.bufferSize
    ensures var g := Grant(l, recordingVersion, Region(c.buffer, offset, size), None);
            && ChunkOk(w.queue, w.nextBuffer, w.grants + [g], l, recordingVersion, c.(writePointer := offset + size))
            && forall i :: 0 <= i < |w.grants| && InUse(w.grants[i], w.queue.fence) ==> Disjoint(w.grants[i].region, g.region)
  {
  }

  // The current chunk has room.
  lemma AppendKeeps(w: World, l: nat, offset: nat, size: nat)
    requires Inv(w) && l in w.lists && w.lists[l].recordingVersion != 0
    requires w.lists[l].manager.current.Some?
    requires var c := w.lists[l].manager.current.value; c.writePointer <= offset && offset + size <= c.bufferSize
    ensures var m := w.lists[l].manager;
            var c := m.current.value;
            Inv(Granted(w, l, Manager(m.pool, Some(c.(writePointer := offset + size))),
                        Grant(l, w.lists[l].recordingVersion, Region(c.buffer, offset, size), None), w.nextBuffer))
  {
    var m, version := w.lists[l].manager, w.lists[l].recordingVersion;
    var c := m.current.value;
    assert ListOk(w.queue, w.nextBuffer, w.grants, l, w.lists[l]);
    assert Chunks(m) == m.pool + [c] && c in Chunks(m);
    var used := c.(writePointer := offset + size);
    var g := Grant(l, version, Region(c.buffer, offset, size), None);
    AppendedChunkOk(w, l, version, c, offset, size);
    DistinctReplaceLast(m.pool, c, used);
    forall d | d in m.pool + [used]
      ensures exists o :: o in Chunks(m) && o.buffer == d.buffer
    {
      if d in m.pool {
        assert d in Chunks(m);
      }
    }
    assert forall d :: d in m.pool ==> d in Chunks(m);
    GrantKeeps(w, l, m.pool, used, g, w.nextBuffer);
  }

  // The pool after a scan, the current chunk retired: all of the list's chunks but the one found.
  predicate PoolOk(w: World, l: nat, pool: seq<Chunk>)
    requires l in w.lists
  {
    forall c :: c in pool ==>
      && ChunkOk(w.queue, w.nextBuffer, w.grants, l, w.lists[l].recordingVersion, c)
      && exists o :: o in Chunks(w.lists[l].manager) && o.buffer == c.buffer
  }

  lemma UseAvailableKeeps(w: World, l: nat, pool: seq<Chunk>, c: Chunk, size: nat)
    requires Inv(w) && l in w.lists && w.lists[l].recordingVersion != 0
    requires PoolOk(w, l, pool + [c]) && DistinctBuffers(pool + [c])
    requires c.version == 0 && size <= c.bufferSize
    ensures Inv(Apply(w, l, Use(pool, c, w.lists[l].recordingVersion, size, None, false)))
  {
    assert (pool + [c])[|pool|] == c;
    assert forall d :: d in pool ==> d in pool + [c];
    UseKeeps(w, l, pool, c, size, w.nextBuffer);
  }

  lemma UseNewKeeps(w: World, l: nat, pool: seq<Chunk>, c: Chunk, size: nat)
    requires Inv(w) && l in w.lists && w.lists[l].recordingVersion != 0
    requires PoolOk(w, l, pool) && DistinctBuffers(pool)
    requires c.buffer == w.nextBuffer && size <= c.bufferSize
    ensures Inv(Apply(w, l, Use(pool, c, w.lists[l].recordingVersion, size, None, true)))
  {
    UseKeeps(w, l, pool, c, size, w.nextBuffer + 1);
  }

  lemma FailKeeps(w: World, l: nat, pool: seq<Chunk>)
    requires Inv(w) && l in w.lists
    requires PoolOk(w, l, pool) && DistinctBuffers(pool)
    ensures Inv(Apply(w, l, Allocation(Manager(pool, None), None, None, false)))
  {
    var r := Apply(w, l, Allocation(Manager(pool, None), None, None, false));
    assert ListOk(w.queue, w.nextBuffer, w.grants, l, w.lists[l]);
    assert Chunks(Manager(pool, None)) == pool;
    assert r.grants == w.grants;
    BuffersKnown(w);
    ListsStayApart(w, r, l);
  }

  // No chunk was available: a new one is created, or the allocation fails.
  lemma AllocateNewKeeps(w: World, l: nat, pool: seq<Chunk>, size: nat, allocatedMemory: nat)
    requires Inv(w) && l in w.lists && w.lists[l].recordingVersion != 0
    requires var s := w.lists[l].settings;
             s.isScratch && 0 < s.memoryLimit ==> allocatedMemory == 0 && WithinLimit(pool, s.memoryLimit)
    requires PoolOk(w, l, pool) && DistinctBuffers(pool)
    ensures Inv(Apply(w, l, AllocateNew(pool, w.lists[l].settings, size, w.lists[l].recordingVersion, allocatedMemory, w.nextBuffer)))
  {
    var s := w.lists[l].settings;
    assert ListOk(w.queue, w.nextBuffer, w.grants, l, w.lists[l]);
    if 0 < s.memoryLimit && s.memoryLimit < allocatedMemory + SizeToAllocate(s, size) {
      var victim := Victim(pool, SizeToAllocate(s, size));
      assert victim < |pool| ==> pool[victim] in pool;
      FailKeeps(w, l, pool);
    } else {
      UseNewKeeps(w, l, pool, Chunk(w.nextBuffer, 0, AlignUp(SizeToAllocate(s, size), CHUNK_ALIGNMENT), 0), size);
    }
  }

  // The current chunk has no room: it is retired and the pool is searched.
  lemma AllocateElsewhereKeeps(w: World, l: nat, size: nat, alignment: nat, allocatedMemory: nat)
    requires Inv(w) && Legal(w, SuballocateEvent(l, size, alignment, allocatedMemory)) && IsBounded(w.lists[l])
    requires !FitsCurrent(w.lists[l].manager, size, alignment)
    ensures Inv(Allocate(w, l, size, alignment, allocatedMemory))
  {
    var m := w.lists[l].manager;
    var scan := Scan(m.pool, w.queue.lastCompletedInstance, size);
    var pool := scan.pool + Retired(m);
    ScannedPoolOk(w, l, size);
    if scan.found.Some? {
      UseAvailableKeeps(w, l, pool, scan.found.value, size);
    } else {
      assert pool + [] == pool;
      if w.lists[l].settings.isScratch && 0 < w.lists[l].settings.memoryLimit {
        ScanWithinLimit(m, w.queue.lastCompletedInstance, size, w.lists[l].settings.memoryLimit);
      }
      AllocateNewKeeps(w, l, pool, size, allocatedMemory);
    }
  }

  lemma AllocateKeeps(w: World, l: nat, size: nat, alignment: nat, allocatedMemory: nat)
    requires Inv(w) && Legal(w, SuballocateEvent(l, size, alignment, allocatedMemory)) && IsBounded(w.lists[l])
    ensures Inv(Allocate(w, l, size, alignment, allocatedMemory))
  {
    var m := w.lists[l].manager;
    if FitsCurrent(m, size, alignment) {
      AppendKeeps(w, l, AlignUp(m.current.value.writePointer, alignment), size);
    } else {
      AllocateElsewhereKeeps(w, l, size, alignment, allocatedMemory);
    }
  }

  lemma StepKeeps(w: World, e: Event)
    requires Inv(w) && AllBounded(w) && Legal(w, e)
    ensures Inv(Step(w, e))
  {
    match e
    case OpenEvent(l) => OpenKeeps(w, l);
    case SuballocateEvent(l, size, alignment, allocatedMemory) => AllocateKeeps(w, l, size, alignment, allocatedMemory);
    case ExecuteEvent(ls) =>
      QueueMoves(w, w.queue.Signal());
      ExecutedAllKeeps(w.(queue := w.queue.Signal()), ls);
    case AdvanceEvent(fence) => QueueMoves(w, w.queue.(fence := fence));
    case CollectEvent => QueueMoves(w, w.queue.Update());
  }

  lemma ExecutedBounded(w: World, l: nat)
    requires AllBounded(w) && l in w.lists
    ensures AllBounded(Executed(w, l))
  {
    var before, after := Chunks(w.lists[l].manager), Chunks(Executed(w, l).lists[l].manager);
    forall c | c in after ensures exists o :: o in before && o.bufferSize == c.bufferSize {
      var i :| 0 <= i < |after| && after[i] == c;
      assert before[i] in before;
    }
  }

  lemma {:induction false} ExecutedAllBounded(w: World, ls: seq<nat>)
    requires AllBounded(w) && forall l :: l in ls ==> l in w.lists
    ensures AllBounded(ExecutedAll(w, ls))
  {
    if ls != [] {
      ExecutedAllBounded(w, ls[..|ls| - 1]);
      ExecutedBounded(ExecutedAll(w, ls[..|ls| - 1]), ls[|ls| - 1]);
    }
  }

  lemma StepBounded(w: World, e: Event)
    requires AllBounded(w) && Legal(w, e)
    ensures AllBounded(Step(w, e))
  {
    match e
    case SuballocateEvent(l, size, alignment, _) =>
      var list := w.lists[l];
      if list.settings.isScratch && 0 < list.settings.memoryLimit {
        UnaccountedNeverReuses(list.manager, list.settings, size, alignment, list.recordingVersion,
                               w.queue.lastCompletedInstance, w.nextBuffer);
      }
    case ExecuteEvent(ls) => ExecutedAllBounded(w.(queue := w.queue.Signal()), ls);
    case _ =>
  }

  // ---------- Runs ----------

  ghost predicate IsRun(worlds: seq<World>, events: seq<Event>) {
    && |worlds| == |events| + 1
    && Init(worlds[0])
    && forall i :: 0 <= i < |events| ==> Legal(worlds[i], events[i]) && worlds[i + 1] == Step(worlds[i], events[i])
  }

  lemma {:induction false} RunKeepsInvariant(worlds: seq<World>, events: seq<Event>, n: nat)
    requires IsRun(worlds, events) && n < |worlds|
    ensures Inv(worlds[n]) && AllBounded(worlds[n])
  {
    if 0 < n {
      RunKeepsInvariant(worlds, events, n - 1);
      StepKeeps(worlds[n - 1], events[n - 1]);
      StepBounded(worlds[n - 1], events[n - 1]);
    }
  }

  // In-flight safety: no byte of a region that a recording may still fill, or the GPU may
  // still read, is ever handed out again - upload memory and, as nothing is accounted
  // against its limit, scratch memory too.
  lemma RunNeverShares(worlds: seq<World>, events: seq<Event>, n: nat)
    requires IsRun(worlds, events) && n < |worlds|
    ensures GrantsDisjoint(worlds[n].grants, worlds[n].queue.fence)
  {
    RunKeepsInvariant(worlds, events, n);
  }

  // Every region handed out starts on the requested alignment, has the requested size and
  // lies in the chunk it was taken from, which stays the current one.
  lemma RegionShape(m: Manager, s: Settings, size: nat, alignment: nat, version: Version,
                    completed: nat, allocatedMemory: nat, newBuffer: nat)
    requires 0 < alignment
    ensures var a := Suballocate(m, s, size, alignment, version, completed, allocatedMemory, newBuffer);
            a.region.Some? ==>
              && a.region.value.offset % alignment == 0 && a.region.value.size == size
              && a.manager.current.Some? && a.manager.current.value.buffer == a.region.value.buffer
              && a.region.value.offset + size == a.manager.current.value.writePointer <= a.manager.current.value.bufferSize
  {
    if FitsCurrent(m, size, alignment) {
      AlignUpIsMultiple(m.current.value.writePointer, alignment);
    } else {
      ScanExhaustive(m.pool, completed, size);
      MultipleHasNoRemainder(0, alignment);
    }
  }

  // ---------- Lists that are executed before they are opened again ----------

  predicate Disciplined(w: World, e: Event) {
    e.OpenEvent? && e.list in w.lists ==> w.lists[e.list].recordingVersion == 0
  }

  predicate MarkOk(c: Chunk, recordingVersion: Version) {
    c.version == 0 || IsSubmitted(c.version) || c.version == recordingVersion
  }

  // Every chunk is available, submitted, or marked with the recording in progress; the
  // current chunk is marked with it.
  predicate NoneLeaked(list: ListState) {
    && (list.manager.current.Some? ==> list.recordingVersion != 0 && list.manager.current.value.version == list.recordingVersion)
    && forall c :: c in Chunks(list.manager) ==> MarkOk(c, list.recordingVersion)
  }

  lemma ScannedMarks(list: ListState, completed: nat, size: nat)
    requires NoneLeaked(list)
    ensures forall c :: c in Scan(list.manager.pool, completed, size).pool + Retired(list.manager) ==> MarkOk(c, list.recordingVersion)
  {
    var m := list.manager;
    forall c | c in Scan(m.pool, completed, size).pool
      ensures MarkOk(c, list.recordingVersion)
    {
      ScanMembers(m.pool, completed, size, c);
      var o :| o in m.pool && (c == o || c == Reclaimed(o, completed));
      assert o in Chunks(m);
    }
    assert forall c :: c in Retired(m) ==> c in Chunks(m);
  }

  lemma UseLeaksNothing(list: ListState, pool: seq<Chunk>, c: Chunk, size: nat, uavBarrier: Option<nat>, created: bool)
    requires list.recordingVersion != 0 && forall d :: d in pool ==> MarkOk(d, list.recordingVersion)
    ensures NoneLeaked(list.(manager := Use(pool, c, list.recordingVersion, size, uavBarrier, created).manager))
  {
  }

  lemma AllocateLeaksNothing(list: ListState, size: nat, alignment: nat, completed: nat, allocatedMemory: nat, newBuffer: nat)
    requires NoneLeaked(list) && list.recordingVersion != 0 && 0 < alignment
    ensures var a := Suballocate(list.manager, list.settings, size, alignment, list.recordingVersion, completed, allocatedMemory, newBuffer);
            NoneLeaked(list.(manager := a.manager))
  {
    var m, s := list.manager, list.settings;
    if FitsCurrent(m, size, alignment) {
      assert forall c :: c in m.pool ==> c in Chunks(m);
    } else {
      var scan := Scan(m.pool, completed, size);
      var pool := scan.pool + Retired(m);
      ScannedMarks(list, completed, size);
      var victim := if s.isScratch then Victim(pool, SizeToAllocate(s, size)) else |pool|;
      if scan.found.Some? {
        UseLeaksNothing(list, pool, scan.found.value, size, None, false);
      } else if !(0 < s.memoryLimit && s.memoryLimit < allocatedMemory + SizeToAllocate(s, size)) {
        UseLeaksNothing(list, pool, Chunk(newBuffer, 0, AlignUp(SizeToAllocate(s, size), CHUNK_ALIGNMENT), 0), size, None, true);
      } else if victim < |pool| {
        UseLeaksNothing(list, pool[..victim] + pool[victim + 1..], pool[victim], size, Some(pool[victim].buffer), false);
      } else {
        assert Chunks(Manager(pool, None)) == pool;
      }
    }
  }

  lemma ExecutedLeaksNothing(w: World, l: nat, owner: nat)
    requires l in w.lists && owner in w.lists && NoneLeaked(w.lists[owner])
    ensures NoneLeaked(Executed(w, l).lists[owner])
  {
    if owner == l {
      var list := w.lists[l];
      var before, after := Chunks(list.manager), Chunks(Executed(w, l).lists[l].manager);
      RoundTrip(w.queue.lastSubmittedInstance, w.kind, true);
      forall c | c in after
        ensures c.version == 0 || IsSubmitted(c.version)
      {
        var i :| 0 <= i < |after| && after[i] == c;
        assert before[i] in before;
      }
    }
  }

  lemma {:induction false} ExecutedAllLeaksNothing(w: World, ls: seq<nat>, owner: nat)
    requires forall l :: l in ls ==> l in w.lists
    requires owner in w.lists && NoneLeaked(w.lists[owner])
    ensures NoneLeaked(ExecutedAll(w, ls).lists[owner])
  {
    if ls != [] {
      ExecutedAllLeaksNothing(w, ls[..|ls| - 1], owner);
      ExecutedLeaksNothing(ExecutedAll(w, ls[..|ls| - 1]), ls[|ls| - 1], owner);
    }
  }

  lemma StepLeaksNothing(w: World, e: Event, owner: nat)
    requires Legal(w, e) && Disciplined(w, e) && owner in w.lists && NoneLeaked(w.lists[owner])
    ensures owner in Step(w, e).lists && NoneLeaked(Step(w, e).lists[owner])
  {
    match e
    case OpenEvent(l) =>
    case SuballocateEvent(l, size, alignment, allocatedMemory) =>
      if l == owner {
        AllocateLeaksNothing(w.lists[l], size, alignment, w.queue.lastCompletedInstance, allocatedMemory, w.nextBuffer);
      }
    case ExecuteEvent(ls) => ExecutedAllLeaksNothing(w.(queue := w.queue.Signal()), ls, owner);
    case AdvanceEvent(fence) =>
    case CollectEvent =>
  }

  // When every opened list is executed before it is opened again, the current chunk
  // always carries the current recording version and no chunk is lost to recycling.
  lemma {:induction false} DisciplinedRunLeaksNothing(worlds: seq<World>, events: seq<Event>, n: nat, l: nat)
    requires IsRun(worlds, events) && n < |worlds| && l in worlds[0].lists
    requires forall i :: 0 <= i < |events| ==> Disciplined(worlds[i], events[i])
    ensures l in worlds[n].lists && NoneLeaked(worlds[n].lists[l])
  {
    if 0 < n {
      DisciplinedRunLeaksNothing(worlds, events, n - 1, l);
      StepLeaksNothing(worlds[n - 1], events[n - 1], l);
    }
  }
}
