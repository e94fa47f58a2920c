/** UploadManager and BufferChunk (src/d3d12/d3d12-backend.h, src/d3d12/d3d12-upload.cpp). */
module UploadManagers {
  import opened Wrappers
  import opened Versioning
  import opened UploadChunks

  class BufferChunk {
    const buffer: nat
    const bufferSize: nat
    var version: Version
    var writePointer: nat

    constructor (buffer: nat, bufferSize: nat)
      ensures Value() == Chunk(buffer, 0, bufferSize, 0)
    {
      this.buffer, this.bufferSize := buffer, bufferSize;
      version, writePointer := 0, 0;
    }

    function Value(): Chunk
      reads this
    {
      Chunk(buffer, version, bufferSize, writePointer)
    }
  }

  function Values(chunks: seq<BufferChunk>): (r: seq<Chunk>)
    reads chunks
    ensures |r| == |chunks| && forall i :: 0 <= i < |r| ==> r[i] == chunks[i].Value()
  {
    seq(|chunks|, i requires 0 <= i < |chunks| reads chunks => chunks[i].Value())
  }

  predicate DistinctObjects(chunks: seq<BufferChunk>) {
    forall i, j :: 0 <= i < j < |chunks| ==> chunks[i] != chunks[j]
  }

  // Creation of committed D3D12 resources: every one is new.
  class ResourceFactory {
    var nextBuffer: nat
  }

  predicate Takes(c: Chunk, completed: nat, size: nat) {
    Reclaimed(c, completed).version == 0 && size <= c.bufferSize
  }

  function ReclaimedAll(chunks: seq<Chunk>, completed: nat): (r: seq<Chunk>)
    ensures |r| == |chunks| && forall i :: 0 <= i < |r| ==> r[i] == Reclaimed(chunks[i], completed)
  {
    seq(|chunks|, i requires 0 <= i < |chunks| => Reclaimed(chunks[i], completed))
  }

  // The result of the scan, by the position at which it stops.
  lemma {:induction false} ScanStopsAt(pool: seq<Chunk>, completed: nat, size: nat, k: nat)
    requires k <= |pool| && forall j :: 0 <= j < k ==> !Takes(pool[j], completed, size)
    requires k < |pool| ==> Takes(pool[k], completed, size)
    ensures Scan(pool, completed, size)
         == if k == |pool| then ScanResult(ReclaimedAll(pool, completed), None)
            else ScanResult(ReclaimedAll(pool[..k], completed) + pool[k + 1..], Some(Reclaimed(pool[k], completed)))
  {
    if k == 0 {
      if pool != [] {
        assert ReclaimedAll(pool[..0], completed) + pool[1..] == pool[1..];
      }
    } else {
      ScanStopsAt(pool[1..], completed, size, k - 1);
      var first := Reclaimed(pool[0], completed);
      if k == |pool| {
        assert ReclaimedAll(pool, completed) == [first] + ReclaimedAll(pool[1..], completed);
      } else {
        assert pool[1..][..k - 1] == pool[..k][1..];
        assert ReclaimedAll(pool[..k], completed) == [first] + ReclaimedAll(pool[..k][1..], completed);
      }
    }
  }

  // The search for an available chunk that is large enough.
  method FindAvailable(pool: seq<BufferChunk>, completed: nat, size: nat) returns (k: nat)
    requires DistinctObjects(pool)
    modifies pool`version
    ensures k <= |pool|
    ensures forall j :: 0 <= j < |pool| ==>
              pool[j].Value() == if j <= k then Reclaimed(old(Values(pool))[j], completed) else old(Values(pool))[j]
    ensures forall j :: 0 <= j < k ==> !Takes(old(Values(pool))[j], completed, size)
    ensures k < |pool| ==> Takes(old(Values(pool))[k], completed, size)
  {
    ghost var before := Values(pool);
    k := 0;
    while k < |pool|
      invariant k <= |pool|
      invariant forall j :: 0 <= j < |pool| ==> pool[j].Value() == if j < k then Reclaimed(before[j], completed) else before[j]
      invariant forall j :: 0 <= j < k ==> !Takes(before[j], completed, size)
    {
      var chunk := pool[k];
      if IsSubmitted(chunk.version) && GetInstance(chunk.version) <= completed {
        chunk.version := 0;
      }
      if chunk.version == 0 && size <= chunk.bufferSize {
        return;
      }
      k := k + 1;
    }
  }

  lemma RemoveAt(pool: seq<BufferChunk>, k: nat)
    requires k < |pool| && DistinctObjects(pool)
    ensures DistinctObjects(pool[..k] + pool[k + 1..])
    ensures pool[k] !in pool[..k] + pool[k + 1..]
    ensures forall c :: c in pool[..k] + pool[k + 1..] ==> c in pool
  {
  }

  lemma ValuesRemoveAt(pool: seq<BufferChunk>, k: nat)
    requires k < |pool|
    ensures Values(pool[..k] + pool[k + 1..]) == Values(pool)[..k] + Values(pool)[k + 1..]
  {
  }

  // The chunk found, if any, is taken out of the pool.
  method TakeAvailable(pool: seq<BufferChunk>, completed: nat, size: nat) returns (rest: seq<BufferChunk>, found: BufferChunk?)
    requires DistinctObjects(pool)
    modifies pool`version
    ensures DistinctObjects(rest) && (forall c :: c in rest ==> c in pool)
    ensures found != null ==> found in pool && found !in rest
    ensures Scan(old(Values(pool)), completed, size)
         == ScanResult(Values(rest), if found == null then None else Some(found.Value()))
  {
    ghost var before := Values(pool);
    var k := FindAvailable(pool, completed, size);
    ScanStopsAt(before, completed, size, k);
    if k < |pool| {
      RemoveAt(pool, k);
      ValuesRemoveAt(pool, k);
      assert Values(pool)[..k] == ReclaimedAll(before[..k], completed) && Values(pool)[k + 1..] == before[k + 1..];
      return pool[..k] + pool[k + 1..], pool[k];
    }
    assert Values(pool) == ReclaimedAll(before, completed);
    return pool, null;
  }

  // The chunk to reuse when no more memory may be allocated.
  method FindVictim(pool: seq<BufferChunk>, sizeToAllocate: nat) returns (k: nat)
    ensures k == Victim(Values(pool), sizeToAllocate)
  {
    ghost var values := Values(pool);
    k := 0;
    var any := false;
    var i := 0;
    while i < |pool|
      invariant i <= |pool|
      invariant if any then k < i && k == Victim(values[..i], sizeToAllocate) else Victim(values[..i], sizeToAllocate) == i
    {
      assert values[..i + 1][..i] == values[..i];
      var candidate := pool[i];
      if sizeToAllocate <= candidate.bufferSize {
        if !any {
          // The first chunk that fits.
          k, any := i, true;
        } else {
          var best := pool[k];
          var candidateSubmitted, bestSubmitted := IsSubmitted(candidate.version), IsSubmitted(best.version);
          var candidateInstance, bestInstance := GetInstance(candidate.version), GetInstance(best.version);
          if || (candidateSubmitted && !bestSubmitted)
             || (candidateSubmitted == bestSubmitted && candidateInstance < bestInstance)
             || (candidateSubmitted == bestSubmitted && candidateInstance == bestInstance && candidate.bufferSize > best.bufferSize)
          {
            k := i;
          }
        }
      }
      i := i + 1;
    }
    assert values[..i] == values;
    if !any {
      k := |pool|;
    }
  }

  class UploadManager {
    const settings: Settings
    var allocatedMemory: nat
    var chunkPool: seq<BufferChunk>
    var currentChunk: BufferChunk?

    constructor (settings: Settings)
      ensures Valid() && View() == Manager([], None) && this.settings == settings
      ensures ChunkObjects() == {}
    {
      this.settings := settings;
      allocatedMemory, chunkPool, currentChunk := 0, [], null;
    }

    ghost predicate Valid()
      reads this
    {
      DistinctObjects(chunkPool) && (currentChunk != null ==> currentChunk !in chunkPool)
    }

    // The chunks the manager owns.
    ghost function ChunkObjects(): set<BufferChunk>
      reads this
    {
      (set c | c in chunkPool) + (if currentChunk == null then {} else {currentChunk})
    }

    function View(): Manager
      reads this, chunkPool, if currentChunk == null then {} else {currentChunk}
    {
      Manager(Values(chunkPool), if currentChunk == null then None else Some(currentChunk.Value()))
    }

    // Makes a chunk current and hands out its first bytes.
    method Adopt(chunk: BufferChunk, size: nat, currentVersion: Version) returns (region: Region)
      requires Valid() && chunk !in chunkPool
      modifies this`currentChunk, chunk`version, chunk`writePointer
      ensures Valid() && chunkPool == old(chunkPool) && currentChunk == chunk
      ensures View() == Manager(old(Values(chunkPool)), Some(old(chunk.Value()).(version := currentVersion, writePointer := size)))
      ensures region == Region(chunk.buffer, 0, size)
    {
      currentChunk := chunk;
      chunk.version := currentVersion;
      chunk.writePointer := size;
      region := Region(chunk.buffer, 0, size);
    }

    // Moves the current chunk, if any, to the end of the pool.
    method Retire(pool: seq<BufferChunk>, chunkToRetire: BufferChunk?)
      requires DistinctObjects(pool) && chunkToRetire !in pool
      modifies this`chunkPool, this`currentChunk
      ensures Valid() && currentChunk == null
      ensures chunkPool == pool + (if chunkToRetire == null then [] else [chunkToRetire])
    {
      chunkPool, currentChunk := pool, null;
      if chunkToRetire != null {
        chunkPool := chunkPool + [chunkToRetire];
      }
    }

    // Continues in the current chunk, if the region fits.
    method TryCurrent(size: nat, alignment: nat) returns (region: Option<Region>)
      requires Valid() && 0 < alignment
      modifies ChunkObjects()`writePointer
      ensures region.Some? <==> FitsCurrent(old(View()), size, alignment)
      ensures region.Some? ==> var a := Append(old(View()), size, alignment); View() == a.manager && region == a.region
      ensures region.None? ==> View() == old(View())
    {
      region := None;
      if currentChunk != null {
        var alignedOffset := AlignUp(currentChunk.writePointer, alignment);
        var endOfDataInChunk := alignedOffset + size;
        if endOfDataInChunk <= currentChunk.bufferSize {
          currentChunk.writePointer := endOfDataInChunk;
          region := Some(Region(currentChunk.buffer, alignedOffset, size));
        }
      }
    }

    // Retires the current chunk and searches the pool for an available one.
    method SearchPool(completed: nat, size: nat) returns (found: BufferChunk?)
      requires Valid()
      modifies this`chunkPool, this`currentChunk, ChunkObjects()`version
      ensures Valid() && currentChunk == null && (forall c :: c in chunkPool ==> c in old(ChunkObjects()))
      ensures found != null ==> found in old(ChunkObjects()) && found !in chunkPool
      ensures var scan := Scan(old(Values(chunkPool)), completed, size);
              && scan.found == (if found == null then None else Some(found.Value()))
              && Values(chunkPool) == scan.pool + Retired(old(View()))
    {
      var chunkToRetire := currentChunk;
      ghost var retired := Retired(View());
      var rest: seq<BufferChunk>;
      rest, found := TakeAvailable(chunkPool, completed, size);
      Retire(rest, chunkToRetire);
      assert Values(chunkPool) == Values(rest) + retired;
    }

    method CreateChunk(size: nat, currentVersion: Version, sizeToAllocate: nat, factory: ResourceFactory) returns (region: Region)
      requires Valid()
      modifies this`currentChunk, factory
      ensures Valid() && chunkPool == old(chunkPool) && currentChunk != null && fresh(currentChunk)
      ensures factory.nextBuffer == old(factory.nextBuffer) + 1
      ensures View() == Manager(old(Values(chunkPool)),
                Some(Chunk(old(factory.nextBuffer), currentVersion, AlignUp(sizeToAllocate, CHUNK_ALIGNMENT), size)))
      ensures region == Region(old(factory.nextBuffer), 0, size)
    {
      var chunk := new BufferChunk(factory.nextBuffer, AlignUp(sizeToAllocate, CHUNK_ALIGNMENT));
      factory.nextBuffer := factory.nextBuffer + 1;
      region := Adopt(chunk, size, currentVersion);
    }

    // Takes a chunk that is still in use out of the pool.
    method ReuseChunk(k: nat, size: nat, currentVersion: Version) returns (region: Region)
      requires Valid() && currentChunk == null && k < |chunkPool|
      modifies this`chunkPool, this`currentChunk, chunkPool`version, chunkPool`writePointer
      ensures Valid() && currentChunk == old(chunkPool)[k] && forall c :: c in chunkPool ==> c in old(chunkPool)
      ensures var values := old(Values(chunkPool));
              && View() == Manager(values[..k] + values[k + 1..], Some(values[k].(version := currentVersion, writePointer := size)))
              && region == Region(values[k].buffer, 0, size)
    {
      var chunk := chunkPool[k];
      RemoveAt(chunkPool, k);
      ValuesRemoveAt(chunkPool, k);
      chunkPool := chunkPool[..k] + chunkPool[k + 1..];
      region := Adopt(chunk, size, currentVersion);
    }

    // No chunk of the pool is available: reuse one, or create one, or fail.
    method AllocateChunk(size: nat, currentVersion: Version, factory: ResourceFactory)
      returns (region: Option<Region>, uavBarrier: Option<nat>)
      requires Valid() && currentChunk == null
      modifies this`chunkPool, this`currentChunk, chunkPool`version, chunkPool`writePointer, factory
      ensures Valid() && forall c :: c in ChunkObjects() ==> c in old(chunkPool) || fresh(c)
      ensures var a := AllocateNew(old(Values(chunkPool)), settings, size, currentVersion, allocatedMemory, old(factory.nextBuffer));
              && View() == a.manager && region == a.region && uavBarrier == a.uavBarrier
              && factory.nextBuffer == old(factory.nextBuffer) + (if a.created then 1 else 0)
    {
      var sizeToAllocate := SizeToAllocate(settings, size);
      if 0 < settings.memoryLimit && settings.memoryLimit < allocatedMemory + sizeToAllocate {
        if !settings.isScratch {
          // Uploads cannot reuse a buffer that is in flight.
          return None, None;
        }
        var k := FindVictim(chunkPool, sizeToAllocate);
        if k == |chunkPool| {
          return None, None;
        }
        var r := ReuseChunk(k, size, currentVersion);
        return Some(r), Some(r.buffer);
      }
      var r := CreateChunk(size, currentVersion, sizeToAllocate, factory);
      return Some(r), None;
    }

    // `completed` is the queue's lastCompletedInstance. The result is None when no memory
    // may be allocated; a scratch chunk that is reused gets a UAV barrier.
    method SuballocateBuffer(size: nat, currentVersion: Version, alignment: nat, completed: nat, factory: ResourceFactory)
      returns (region: Option<Region>, uavBarrier: Option<nat>)
      requires Valid() && 0 < alignment
      modifies this`chunkPool, this`currentChunk, ChunkObjects()`version, ChunkObjects()`writePointer, factory
      ensures Valid() && forall c :: c in ChunkObjects() ==> c in old(ChunkObjects()) || fresh(c)
      ensures var a := Suballocate(old(View()), settings, size, alignment, currentVersion, completed,
                                   allocatedMemory, old(factory.nextBuffer));
              && View() == a.manager && region == a.region && uavBarrier == a.uavBarrier
              && factory.nextBuffer == old(factory.nextBuffer) + (if a.created then 1 else 0)
    {
      uavBarrier := None;
      region := TryCurrent(size, alignment);
      if region.None? {
        var found := SearchPool(completed, size);
        if found == null {
          region, uavBarrier := AllocateChunk(size, currentVersion, factory);
        } else {
          var r := Adopt(found, size, currentVersion);
          region := Some(r);
        }
      }
    }

    method SubmitChunks(currentVersion: Version, submittedVersion: Version)
      requires Valid()
      modifies this`chunkPool, this`currentChunk, ChunkObjects()`version
      ensures Valid() && ChunkObjects() == old(ChunkObjects())
      ensures View() == UploadChunks.SubmitChunks(old(View()), currentVersion, submittedVersion)
    {
      ghost var before := Values(chunkPool) + Retired(View());
      Retire(chunkPool, currentChunk);
      assert Values(chunkPool) == before;
      MarkSubmitted(currentVersion, submittedVersion);
    }

    method MarkSubmitted(currentVersion: Version, submittedVersion: Version)
      requires Valid()
      modifies chunkPool`version
      ensures Values(chunkPool) == SubmitAll(old(Values(chunkPool)), currentVersion, submittedVersion)
    {
      ghost var before := Values(chunkPool);
      var i := 0;
      while i < |chunkPool|
        invariant i <= |chunkPool| && Valid()
        invariant forall j :: 0 <= j < i ==> chunkPool[j].Value() == Submitted(before[j], currentVersion, submittedVersion)
        invariant forall j :: i <= j < |chunkPool| ==> chunkPool[j].Value() == before[j]
      {
        var chunk := chunkPool[i];
        if chunk.version == currentVersion {
          chunk.version := submittedVersion;
        }
        i := i + 1;
      }
    }
  }
}
