/**
 Sub-allocation of upload and scratch memory (src/d3d12/d3d12-upload.cpp,
 `UploadManager`), as functions on values.
 */
module UploadChunks {
  import opened Arithmetic
  import opened Wrappers
  import opened Versioning

  // BufferChunk; `buffer` identifies the D3D12 resource.
  datatype Chunk = Chunk(buffer: nat, version: Version, bufferSize: nat, writePointer: nat)

  const CHUNK_ALIGNMENT: nat := 4096

  datatype Settings = Settings(defaultChunkSize: nat, memoryLimit: nat, isScratch: bool)

  // m_ChunkPool and m_CurrentChunk
  datatype Manager = Manager(pool: seq<Chunk>, current: Option<Chunk>)

  datatype Region = Region(buffer: nat, offset: nat, size: nat)

  // The result of one call: the UAV barrier it places, if any, and whether it created a buffer.
  datatype Allocation = Allocation(manager: Manager, region: Option<Region>, uavBarrier: Option<nat>, created: bool)

  // align: the multiple of `alignment` at or above size (a power of two in the source).
  function AlignUp(size: nat, alignment: nat): (r: nat)
    requires 0 < alignment
    ensures size <= r < size + alignment
  {
    var slack := (size + alignment - 1) % alignment;
    size + alignment - 1 - slack
  }

  lemma AlignUpIsMultiple(size: nat, alignment: nat)
    requires 0 < alignment
    ensures AlignUp(size, alignment) % alignment == 0
  {
    var x := size + alignment - 1;
    assert x == (x / alignment) * alignment + x % alignment;
    MultipleHasNoRemainder(x / alignment, alignment);
  }

  lemma MultipleHasNoRemainder(q: nat, d: nat)
    requires 0 < d
    ensures q * d % d == 0
  {
    var q' := q * d / d;
    assert q * d == q' * d + q * d % d;
    if q < q' {
      ProductMonotone(q + 1, q', d);
    } else if q' < q {
      ProductMonotone(q' + 1, q, d);
    }
  }

  function Max(a: nat, b: nat): nat {
    if a < b then b else a
  }

  // A submitted chunk whose recording the GPU has completed becomes available.
  function Reclaimed(c: Chunk, completed: nat): Chunk {
    if IsSubmitted(c.version) && GetInstance(c.version) <= completed then c.(version := 0) else c
  }

  datatype ScanResult = ScanResult(pool: seq<Chunk>, found: Option<Chunk>)

  // The search for an available chunk that is large enough. Chunks passed over are
  // reclaimed on the way, the ones behind the chunk found are not looked at.
  function Scan(pool: seq<Chunk>, completed: nat, size: nat): ScanResult {
    if pool == [] then ScanResult([], None)
    else
      var c := Reclaimed(pool[0], completed);
      if c.version == 0 && size <= c.bufferSize then ScanResult(pool[1..], Some(c))
      else
        var rest := Scan(pool[1..], completed, size);
        ScanResult([c] + rest.pool, rest.found)
  }

  // The order of preference for reuse: work that was submitted before work that is still
  // recorded, then the earlier instance, then the larger chunk.
  predicate Better(a: Chunk, b: Chunk) {
    || (IsSubmitted(a.version) && !IsSubmitted(b.version))
    || (IsSubmitted(a.version) == IsSubmitted(b.version) && GetInstance(a.version) < GetInstance(b.version))
    || (IsSubmitted(a.version) == IsSubmitted(b.version) && GetInstance(a.version) == GetInstance(b.version)
        && a.bufferSize > b.bufferSize)
  }

  // Position of the chunk to reuse when no more memory may be allocated, or the length
  // if no chunk is large enough.
  function Victim(pool: seq<Chunk>, size: nat): (k: nat)
    ensures k <= |pool|
    ensures k < |pool| ==> size <= pool[k].bufferSize
    ensures k == |pool| ==> forall c :: c in pool ==> c.bufferSize < size
  {
    if pool == [] then 0
    else
      var init, last := pool[..|pool| - 1], pool[|pool| - 1];
      var best := Victim(init, size);
      assert pool == init + [last];
      if last.bufferSize < size then (if best == |init| then |pool| else best)
      else if best == |init| then |init|
      else if Better(last, init[best]) then |init|
      else best
  }

  // Makes a chunk current and hands out its first bytes.
  function Use(pool: seq<Chunk>, c: Chunk, version: Version, size: nat, uavBarrier: Option<nat>, created: bool): Allocation {
    Allocation(
      Manager(pool, Some(c.(version := version, writePointer := size))),
      Some(Region(c.buffer, 0, size)),
      uavBarrier, created)
  }

  function Retired(m: Manager): seq<Chunk> {
    if m.current.Some? then [m.current.value] else []
  }

  predicate FitsCurrent(m: Manager, size: nat, alignment: nat)
    requires 0 < alignment
  {
    m.current.Some? && AlignUp(m.current.value.writePointer, alignment) + size <= m.current.value.bufferSize
  }

  // Continues in the current chunk.
  function Append(m: Manager, size: nat, alignment: nat): Allocation
    requires 0 < alignment && FitsCurrent(m, size, alignment)
  {
    var c := m.current.value;
    var offset := AlignUp(c.writePointer, alignment);
    Allocation(Manager(m.pool, Some(c.(writePointer := offset + size))), Some(Region(c.buffer, offset, size)), None, false)
  }

  function SizeToAllocate(s: Settings, size: nat): (r: nat)
    ensures size <= r
  {
    AlignUp(Max(size, s.defaultChunkSize), CHUNK_ALIGNMENT)
  }

  // No chunk of the pool is available: reuse one, or create one, or fail.
  function AllocateNew(pool: seq<Chunk>, s: Settings, size: nat, version: Version, allocatedMemory: nat, newBuffer: nat): Allocation {
    if 0 < s.memoryLimit && s.memoryLimit < allocatedMemory + SizeToAllocate(s, size) then
      var victim := if s.isScratch then Victim(pool, SizeToAllocate(s, size)) else |pool|;
      if victim < |pool| then
        Use(pool[..victim] + pool[victim + 1..], pool[victim], version, size, Some(pool[victim].buffer), false)
      else Allocation(Manager(pool, None), None, None, false)
    else
      Use(pool, Chunk(newBuffer, 0, AlignUp(SizeToAllocate(s, size), CHUNK_ALIGNMENT), 0), version, size, None, true)
  }

  // suballocateBuffer. `completed` is the queue's lastCompletedInstance, `allocatedMemory` is
  // m_AllocatedMemory and `newBuffer` the identity of the buffer a successful createChunk makes.
  function Suballocate(m: Manager, s: Settings, size: nat, alignment: nat, version: Version,
                       completed: nat, allocatedMemory: nat, newBuffer: nat): Allocation
    requires 0 < alignment
  {
    if FitsCurrent(m, size, alignment) then Append(m, size, alignment)
    else
      var scan := Scan(m.pool, completed, size);
      var pool := scan.pool + Retired(m);
      if scan.found.Some? then Use(pool, scan.found.value, version, size, None, false)
      else AllocateNew(pool, s, size, version, allocatedMemory, newBuffer)
  }

  function Submitted(c: Chunk, currentVersion: Version, submittedVersion: Version): Chunk {
    if c.version == currentVersion then c.(version := submittedVersion) else c
  }

  function SubmitAll(pool: seq<Chunk>, currentVersion: Version, submittedVersion: Version): (r: seq<Chunk>)
    ensures |r| == |pool| && forall i :: 0 <= i < |r| ==> r[i] == Submitted(pool[i], currentVersion, submittedVersion)
  {
    seq(|pool|, i requires 0 <= i < |pool| => Submitted(pool[i], currentVersion, submittedVersion))
  }

  // submitChunks
  function SubmitChunks(m: Manager, currentVersion: Version, submittedVersion: Version): Manager {
    Manager(SubmitAll(m.pool + Retired(m), currentVersion, submittedVersion), None)
  }

  // ---------- What the search leaves behind ----------

  // All chunks a manager owns.
  function Chunks(m: Manager): seq<Chunk> {
    m.pool + Retired(m)
  }

  predicate DistinctBuffers(chunks: seq<Chunk>) {
    forall i, j :: 0 <= i < j < |chunks| ==> chunks[i].buffer != chunks[j].buffer
  }

  // Every chunk the scan leaves in the pool or finds was in the pool, reclaimed or not.
  lemma {:induction false} ScanMembers(pool: seq<Chunk>, completed: nat, size: nat, c: Chunk)
    requires var r := Scan(pool, completed, size); c in r.pool || r.found == Some(c)
    ensures exists o :: o in pool && (c == o || c == Reclaimed(o, completed))
  {
    var r := Scan(pool, completed, size);
    var first := Reclaimed(pool[0], completed);
    if c == first {
      assert pool[0] in pool;
    } else if first.version == 0 && size <= first.bufferSize {
      assert c in pool;
    } else {
      ScanMembers(pool[1..], completed, size, c);
      var o :| o in pool[1..] && (c == o || c == Reclaimed(o, completed));
      assert o in pool;
    }
  }

  lemma {:induction false} ScanDistinct(pool: seq<Chunk>, completed: nat, size: nat)
    requires DistinctBuffers(pool)
    ensures var r := Scan(pool, completed, size);
            DistinctBuffers(r.pool + (if r.found.Some? then [r.found.value] else []))
  {
    if pool != [] {
      var r := Scan(pool, completed, size);
      var first := Reclaimed(pool[0], completed);
      if first.version == 0 && size <= first.bufferSize {
        assert r.pool + [first] == pool[1..] + [first];
      } else {
        var rest := Scan(pool[1..], completed, size);
        var tail := rest.pool + (if rest.found.Some? then [rest.found.value] else []);
        ScanDistinct(pool[1..], completed, size);
        assert r.pool + (if r.found.Some? then [r.found.value] else []) == [first] + tail;
        forall j | 0 <= j < |tail|
          ensures tail[j].buffer != first.buffer
        {
          if j < |rest.pool| {
            assert tail[j] in rest.pool;
          }
          ScanMembers(pool[1..], completed, size, tail[j]);
        }
      }
    }
  }

  // A scan that finds nothing leaves no available chunk that is large enough, and a scan
  // that succeeds finds an available one.
  lemma {:induction false} ScanExhaustive(pool: seq<Chunk>, completed: nat, size: nat)
    ensures var r := Scan(pool, completed, size);
            && (r.found.Some? ==> r.found.value.version == 0 && size <= r.found.value.bufferSize)
            && (r.found.None? ==> forall c :: c in r.pool ==> c.version != 0 || c.bufferSize < size)
  {
    if pool != [] {
      ScanExhaustive(pool[1..], completed, size);
    }
  }

  lemma BetterTransitive(a: Chunk, b: Chunk, c: Chunk)
    ensures Better(a, b) && Better(b, c) ==> Better(a, c)
    ensures !Better(a, a)
  {
  }

  // The chunk chosen for reuse is at least as good as every other that fits.
  lemma {:induction false} VictimIsBest(pool: seq<Chunk>, size: nat, c: Chunk)
    requires Victim(pool, size) < |pool|
    requires c in pool && size <= c.bufferSize
    ensures !Better(c, pool[Victim(pool, size)])
  {
    var init, last := pool[..|pool| - 1], pool[|pool| - 1];
    var best := Victim(init, size);
    assert pool == init + [last];
    if best == |init| {
      assert c == last;
      BetterTransitive(c, c, c);
    } else {
      BetterTransitive(c, last, init[best]);
      BetterTransitive(c, c, c);
      if c in init {
        VictimIsBest(init, size, c);
      }
    }
  }

  // When the memory limit is hit, no chunk that fits is available: the earlier scan would
  // have taken it. So every candidate is in use, and a UAV barrier on the one reused
  // separates the old uses from the new.
  lemma ReuseIsSeparated(m: Manager, s: Settings, size: nat, alignment: nat, version: Version,
                         completed: nat, allocatedMemory: nat, newBuffer: nat)
    requires 0 < alignment
    requires m.current.Some? ==> m.current.value.version != 0
    ensures var a := Suballocate(m, s, size, alignment, version, completed, allocatedMemory, newBuffer);
            a.uavBarrier.Some? ==>
              var candidates := Scan(m.pool, completed, size).pool + Retired(m);
              var need := SizeToAllocate(s, size);
              && s.isScratch && a.region.Some? && a.region.value.buffer == a.uavBarrier.value
              && (exists victim :: && victim in candidates && victim.buffer == a.uavBarrier.value && need <= victim.bufferSize
                                   && forall c :: c in candidates && need <= c.bufferSize ==> c.version != 0 && !Better(c, victim))
  {
    var a := Suballocate(m, s, size, alignment, version, completed, allocatedMemory, newBuffer);
    if a.uavBarrier.Some? {
      var candidates := Scan(m.pool, completed, size).pool + Retired(m);
      var need := SizeToAllocate(s, size);
      ScanExhaustive(m.pool, completed, size);
      var victim := candidates[Victim(candidates, need)];
      forall c | c in candidates && need <= c.bufferSize
        ensures c.version != 0 && !Better(c, victim)
      {
        VictimIsBest(candidates, need, c);
      }
      assert victim in candidates;
    }
  }

  // ---------- How a request is served ----------

  // The least multiple of the alignment that is not below.
  predicate IsAligned(at: nat, pointer: nat, alignment: nat)
    requires 0 < alignment
  {
    pointer <= at < pointer + alignment && at % alignment == 0
  }

  lemma AlignUpIsLeast(pointer: nat, alignment: nat, at: nat)
    requires 0 < alignment
    ensures IsAligned(at, pointer, alignment) <==> at == AlignUp(pointer, alignment)
  {
    AlignUpIsMultiple(pointer, alignment);
    if IsAligned(at, pointer, alignment) {
      SameMultiple(at, AlignUp(pointer, alignment), alignment);
    }
  }

  lemma SameMultiple(a: nat, b: nat, d: nat)
    requires 0 < d && a % d == 0 && b % d == 0 && a < b + d && b < a + d
    ensures a == b
  {
    var qa, qb := a / d, b / d;
    assert a == qa * d + a % d && b == qb * d + b % d;
    NextMultiple(qa, qb, d);
    NextMultiple(qb, qa, d);
  }

  lemma NextMultiple(p: nat, q: nat, d: nat)
    ensures p < q ==> p * d + d <= q * d
  {
    if p < q {
      ProductMonotone(p + 1, q, d);
    }
  }

  // Exactly when the current chunk serves a request: when the request ends within it, placed
  // at the next aligned offset, and there it is placed.
  lemma CurrentServesIff(m: Manager, s: Settings, size: nat, alignment: nat, version: Version,
                         completed: nat, allocatedMemory: nat, newBuffer: nat, c: Chunk, at: nat)
    requires 0 < alignment && m.current == Some(c) && IsAligned(at, c.writePointer, alignment)
    ensures var a := Suballocate(m, s, size, alignment, version, completed, allocatedMemory, newBuffer);
            if at + size <= c.bufferSize
            then a == Allocation(Manager(m.pool, Some(c.(writePointer := at + size))), Some(Region(c.buffer, at, size)), None, false)
            else c in a.manager.pool || a.uavBarrier == Some(c.buffer)
  {
    AlignUpIsLeast(c.writePointer, alignment, at);
    if c.bufferSize < at + size {
      var pool := Scan(m.pool, completed, size).pool + Retired(m);
      assert pool[|pool| - 1] == c;
      var need := SizeToAllocate(s, size);
      if Scan(m.pool, completed, size).found == None && 0 < s.memoryLimit < allocatedMemory + need && s.isScratch {
        var k := Victim(pool, need);
        if k < |pool| - 1 {
          assert (pool[..k] + pool[k + 1..])[|pool| - 2] == c;
        }
      }
    }
  }

  // The GPU is done with the chunk, or nobody ever used it.
  predicate IsIdle(c: Chunk, completed: nat) {
    c.version == 0 || (IsSubmitted(c.version) && GetInstance(c.version) <= completed)
  }

  predicate AnyIdle(pool: seq<Chunk>, completed: nat, size: nat) {
    exists c :: c in pool && IsIdle(c, completed) && size <= c.bufferSize
  }

  lemma {:induction false} ScanFindsIdle(pool: seq<Chunk>, completed: nat, size: nat)
    ensures var r := Scan(pool, completed, size);
            && (r.found.Some? <==> AnyIdle(pool, completed, size))
            && (r.found.Some? ==> exists c :: c in pool && IsIdle(c, completed) && size <= c.bufferSize && r.found.value == c.(version := 0))
            && (r.found.None? ==> |r.pool| == |pool| && forall i :: 0 <= i < |pool| ==> r.pool[i] == Reclaimed(pool[i], completed))
  {
    if pool != [] {
      ScanFindsIdle(pool[1..], completed, size);
      var first := Reclaimed(pool[0], completed);
      assert pool[0] in pool && forall c :: c in pool <==> c == pool[0] || c in pool[1..];
      if first.version == 0 && size <= first.bufferSize {
        assert IsIdle(pool[0], completed) && first == pool[0].(version := 0);
      }
    }
  }

  // The size of a new chunk: the least multiple of 4096 that holds the request and is not
  // below the default size.
  predicate IsNeed(need: nat, s: Settings, size: nat) {
    size <= need && s.defaultChunkSize <= need && need % 4096 == 0 && (need < size + 4096 || need < s.defaultChunkSize + 4096)
  }

  lemma NeedIs(need: nat, s: Settings, size: nat)
    ensures IsNeed(need, s, size) <==> need == SizeToAllocate(s, size)
  {
    AlignUpIsLeast(Max(size, s.defaultChunkSize), CHUNK_ALIGNMENT, need);
  }

  // A request that the current chunk does not serve, by what the pool, the limit and the kind
  // of manager say: an idle chunk that is large enough serves it from its start; failing
  // that, a new chunk of the needed size, if the limit allows it; failing that, for scratch
  // memory, a chunk in use that is large enough, behind a barrier; and otherwise nothing.
  lemma ElsewhereServesIff(m: Manager, s: Settings, size: nat, alignment: nat, version: Version,
                           completed: nat, allocatedMemory: nat, newBuffer: nat, need: nat)
    requires 0 < alignment && !FitsCurrent(m, size, alignment) && IsNeed(need, s, size)
    ensures var a := Suballocate(m, s, size, alignment, version, completed, allocatedMemory, newBuffer);
            var allowed := s.memoryLimit == 0 || allocatedMemory + need <= s.memoryLimit;
            if AnyIdle(m.pool, completed, size) then
              && a.region.Some? && a.uavBarrier == None && !a.created
              && exists c :: && c in m.pool && IsIdle(c, completed) && size <= c.bufferSize
                             && a.region == Some(Region(c.buffer, 0, size)) && a.manager.current == Some(c.(version := version, writePointer := size))
            else if allowed then
              a.region == Some(Region(newBuffer, 0, size)) && a.uavBarrier == None && a.created
              && a.manager.current == Some(Chunk(newBuffer, version, need, size))
            else if s.isScratch && exists c :: c in Chunks(m) && need <= c.bufferSize then
              a.region.Some? && a.uavBarrier == Some(a.region.value.buffer) && !a.created
            else a.region == None && a.uavBarrier == None && !a.created && a.manager.current == None
  {
    ScanFindsIdle(m.pool, completed, size);
    NeedIs(need, s, size);
    if !AnyIdle(m.pool, completed, size) {
      AlignUpTwice(Max(size, s.defaultChunkSize));
      CandidatesHaveSizes(m, completed, size, need);
    }
  }

  lemma CandidatesHaveSizes(m: Manager, completed: nat, size: nat, need: nat)
    requires !AnyIdle(m.pool, completed, size)
    ensures var pool := Scan(m.pool, completed, size).pool + Retired(m);
            Victim(pool, need) < |pool| <==> exists c :: c in Chunks(m) && need <= c.bufferSize
  {
    var pool := Scan(m.pool, completed, size).pool + Retired(m);
    ScanFindsIdle(m.pool, completed, size);
    assert |pool| == |Chunks(m)| && forall i :: 0 <= i < |pool| ==> pool[i].bufferSize == Chunks(m)[i].bufferSize;
    if exists c :: c in Chunks(m) && need <= c.bufferSize {
      var c :| c in Chunks(m) && need <= c.bufferSize;
      var i :| 0 <= i < |pool| && Chunks(m)[i] == c;
      assert pool[i] in pool;
    }
    if Victim(pool, need) < |pool| {
      assert Chunks(m)[Victim(pool, need)] in Chunks(m);
    }
  }

  // The order in which chunks in use are given up: no candidate is submitted unless the
  // chosen one is; of those that are alike in this none is older, and of those none larger.
  lemma VictimIsOldest(pool: seq<Chunk>, size: nat, c: Chunk)
    requires Victim(pool, size) < |pool| && c in pool && size <= c.bufferSize
    ensures var victim := pool[Victim(pool, size)];
            && (IsSubmitted(c.version) ==> IsSubmitted(victim.version))
            && (IsSubmitted(c.version) == IsSubmitted(victim.version) ==>
                  && GetInstance(victim.version) <= GetInstance(c.version)
                  && (GetInstance(victim.version) == GetInstance(c.version) ==> c.bufferSize <= victim.bufferSize))
  {
    VictimIsBest(pool, size, c);
  }

  // ---------- Runs of one manager ----------

  // Whatever is asked of a manager in whatever order, as long as recordings have versions.
  datatype ManagerEvent =
    | Request(size: nat, alignment: nat, version: Version, completed: nat, allocatedMemory: nat, newBuffer: nat)
    | Submission(currentVersion: Version, submittedVersion: Version)
  {
    predicate Valid() {
      Request? ==> 0 < alignment && version != 0
    }
  }

  function After(s: Settings, events: seq<ManagerEvent>): Manager
    requires forall e :: e in events ==> e.Valid()
  {
    if events == [] then Manager([], None)
    else
      var before, e := After(s, events[..|events| - 1]), events[|events| - 1];
      assert e in events && e.Valid();
      match e
      case Request(size, alignment, version, completed, allocatedMemory, newBuffer) =>
        Suballocate(before, s, size, alignment, version, completed, allocatedMemory, newBuffer).manager
      case Submission(currentVersion, submittedVersion) => SubmitChunks(before, currentVersion, submittedVersion)
  }

  lemma {:induction false} CurrentIsMarked(s: Settings, events: seq<ManagerEvent>)
    requires forall e :: e in events ==> e.Valid()
    ensures After(s, events).current.Some? ==> After(s, events).current.value.version != 0
  {
    if events != [] {
      CurrentIsMarked(s, events[..|events| - 1]);
      assert events[|events| - 1] in events && events[|events| - 1].Valid();
    }
  }

  // In every run of a manager, the chunk reused at the limit was in use, was the best of
  // those that fit, and is separated by a UAV barrier.
  lemma ReuseIsSeparatedInEveryRun(s: Settings, events: seq<ManagerEvent>, size: nat, alignment: nat, version: Version,
                                   completed: nat, allocatedMemory: nat, newBuffer: nat)
    requires (forall e :: e in events ==> e.Valid()) && 0 < alignment
    ensures var m := After(s, events);
            var a := Suballocate(m, s, size, alignment, version, completed, allocatedMemory, newBuffer);
            a.uavBarrier.Some? ==>
              var candidates := Scan(m.pool, completed, size).pool + Retired(m);
              var need := SizeToAllocate(s, size);
              && s.isScratch && a.region.Some? && a.region.value.buffer == a.uavBarrier.value
              && (exists victim :: && victim in candidates && victim.buffer == a.uavBarrier.value && need <= victim.bufferSize
                                   && forall c :: c in candidates && need <= c.bufferSize ==> c.version != 0 && !Better(c, victim))
  {
    CurrentIsMarked(s, events);
    ReuseIsSeparated(After(s, events), s, size, alignment, version, completed, allocatedMemory, newBuffer);
  }

  // ---------- The memory limit ----------

  predicate WithinLimit(chunks: seq<Chunk>, limit: nat) {
    forall c :: c in chunks ==> c.bufferSize <= limit
  }

  lemma AlignUpTwice(size: nat)
    ensures AlignUp(AlignUp(size, CHUNK_ALIGNMENT), CHUNK_ALIGNMENT) == AlignUp(size, CHUNK_ALIGNMENT)
  {
  }

  lemma ScanWithinLimit(m: Manager, completed: nat, size: nat, limit: nat)
    requires WithinLimit(Chunks(m), limit)
    ensures var scan := Scan(m.pool, completed, size);
            WithinLimit(scan.pool + Retired(m), limit) && (scan.found.Some? ==> scan.found.value.bufferSize <= limit)
  {
    var scan := Scan(m.pool, completed, size);
    forall c | c in scan.pool || scan.found == Some(c) ensures c.bufferSize <= limit {
      ScanMembers(m.pool, completed, size, c);
      var o :| o in m.pool && (c == o || c == Reclaimed(o, completed));
      assert o in Chunks(m);
    }
    assert forall c :: c in Retired(m) ==> c in Chunks(m);
  }

  // The search fails exactly when no chunk of the pool is available and large enough, once
  // what the GPU has completed is reclaimed.
  lemma {:induction false} ScanFailsIff(pool: seq<Chunk>, completed: nat, size: nat)
    ensures Scan(pool, completed, size).found == None
            <==> forall c :: c in pool ==> Reclaimed(c, completed).version != 0 || c.bufferSize < size
  {
    if pool != [] {
      ScanFailsIff(pool[1..], completed, size);
      assert forall c :: c in pool <==> c == pool[0] || c in pool[1..];
    }
  }

  // m_AllocatedMemory starts at zero and is never updated. As long as it is zero no chunk
  // outgrows the limit, so none is ever large enough to be reused. A request that no idle
  // chunk can serve then fails exactly when the rounded size of a new chunk is beyond the
  // limit, however much of the limit is free.
  lemma UnaccountedNeverReuses(m: Manager, s: Settings, size: nat, alignment: nat, version: Version, completed: nat, newBuffer: nat)
    requires 0 < alignment && 0 < s.memoryLimit && WithinLimit(Chunks(m), s.memoryLimit)
    ensures var a := Suballocate(m, s, size, alignment, version, completed, 0, newBuffer);
            && a.uavBarrier == None && WithinLimit(Chunks(a.manager), s.memoryLimit)
            && (a.region == None <==>
                  && !FitsCurrent(m, size, alignment)
                  && (forall c :: c in m.pool ==> Reclaimed(c, completed).version != 0 || c.bufferSize < size)
                  && s.memoryLimit < SizeToAllocate(s, size))
            && (s.memoryLimit < size ==> a.region == None)
  {
    if FitsCurrent(m, size, alignment) {
      assert m.current.value in Chunks(m);
      assert forall c :: c in m.pool ==> c in Chunks(m);
    } else {
      ScanWithinLimit(m, completed, size, s.memoryLimit);
      ScanExhaustive(m.pool, completed, size);
      ScanFailsIff(m.pool, completed, size);
      var pool := Scan(m.pool, completed, size).pool + Retired(m);
      var need := SizeToAllocate(s, size);
      AlignUpTwice(Max(size, s.defaultChunkSize));
      if s.memoryLimit < need {
        var victim := Victim(pool, need);
        assert victim < |pool| ==> pool[victim] in pool;
      }
    }
  }

  // In every run of a manager with nothing accounted, chunks stay within the limit.
  lemma {:induction false} UnaccountedStaysWithinLimit(s: Settings, events: seq<ManagerEvent>)
    requires 0 < s.memoryLimit
    requires forall e :: e in events ==> e.Valid() && (e.Request? ==> e.allocatedMemory == 0)
    ensures WithinLimit(Chunks(After(s, events)), s.memoryLimit)
  {
    if events != [] {
      var before, e := After(s, events[..|events| - 1]), events[|events| - 1];
      UnaccountedStaysWithinLimit(s, events[..|events| - 1]);
      assert e in events;
      if e.Request? {
        UnaccountedNeverReuses(before, s, e.size, e.alignment, e.version, e.completed, e.newBuffer);
      } else {
        SubmitWithinLimit(before, e.currentVersion, e.submittedVersion, s.memoryLimit);
      }
    }
  }

  lemma SubmitWithinLimit(m: Manager, currentVersion: Version, submittedVersion: Version, limit: nat)
    requires WithinLimit(Chunks(m), limit)
    ensures WithinLimit(Chunks(SubmitChunks(m, currentVersion, submittedVersion)), limit)
  {
    var r := SubmitChunks(m, currentVersion, submittedVersion);
    forall c | c in Chunks(r) ensures c.bufferSize <= limit {
      var i :| 0 <= i < |r.pool| && r.pool[i] == c;
      assert Chunks(m)[i] in Chunks(m);
    }
  }

  const LIMITED := Settings(0x1_0000, 0x1_0000, true)

  lemma ServedOnce(recording: Version, submitted: Version)
    requires recording != 0
    ensures var request, submission := Request(0x1_0000, 256, recording, 0, 0, 0), Submission(recording, submitted);
            && After(LIMITED, [request]) == Manager([], Some(Chunk(0, recording, 0x1_0000, 0x1_0000)))
            && After(LIMITED, [request, submission]) == Manager([Chunk(0, submitted, 0x1_0000, 0x1_0000)], None)
  {
    var request, submission := Request(0x1_0000, 256, recording, 0, 0, 0), Submission(recording, submitted);
    assert [request, submission][..1] == [request] && [request][..0] == [];
    assert Scan([], 0, 0x1_0000) == ScanResult([], None);
    assert SizeToAllocate(LIMITED, 0x1_0000) == 0x1_0000;
  }

  // A scratch manager with a limit of 64 KiB that served one request of that size: a
  // later request for 68 KiB fails, even when the GPU has completed the first.
  lemma BeyondLimitExample(recording: Version, submitted: Version, next: Version, completed: nat)
    requires recording != 0
    ensures var m := After(LIMITED, [Request(0x1_0000, 256, recording, 0, 0, 0), Submission(recording, submitted)]);
            && Chunks(m) == [Chunk(0, submitted, 0x1_0000, 0x1_0000)]
            && Suballocate(m, LIMITED, 0x1_1000, 256, next, completed, 0, 1).region == None
  {
    ServedOnce(recording, submitted);
    UnaccountedNeverReuses(Manager([Chunk(0, submitted, 0x1_0000, 0x1_0000)], None), LIMITED, 0x1_1000, 256, next, completed, 1);
  }

  // A request for 16 bytes fails when the default chunk is beyond the limit, or when the
  // limit is not a multiple of the chunk alignment.
  lemma SmallRequestExample()
    ensures Suballocate(Manager([], None), Settings(0x2_0000, 0x1_0000, true), 16, 256, 1, 0, 0, 0).region == None
    ensures Suballocate(Manager([], None), Settings(16, 4000, true), 16, 256, 1, 0, 0, 0).region == None
  {
    UnaccountedNeverReuses(Manager([], None), Settings(0x2_0000, 0x1_0000, true), 16, 256, 1, 0, 0);
    UnaccountedNeverReuses(Manager([], None), Settings(16, 4000, true), 16, 256, 1, 0, 0);
  }
}
