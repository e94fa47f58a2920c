/**
 The D3D12 queue, command list and lifetime tracker (src/d3d12/d3d12-backend.h,
 src/d3d12/d3d12-device.cpp, src/d3d12/d3d12-commandlist.cpp,
 src/d3d12/d3d12-state-tracking.cpp).
 */
module CommandLists {
  import opened Wrappers
  import opened Resources
  import opened ResourceStates
  import opened Subresources
  import opened TextureStates
  import opened TextureTracking
  import opened BarrierTranslation
  import opened EnhancedBarriers
  import opened StateTracker
  import opened Versioning
  import opened UploadManagers
  import opened QueueProtocol
  import BufferStates
  import UploadChunks
  import Retirement = RetirementRuns

  class Queue {
    const kind: CommandQueue
    var lastSubmittedInstance: nat
    var lastCompletedInstance: nat
    var recordingInstance: nat
    var fenceValue: nat    // ID3D12Fence, advanced by the GPU
    var nextAllocator: nat // identity of the next command allocator to be created

    constructor (kind: CommandQueue)
      ensures this.kind == kind && State() == NEW_QUEUE
    {
      this.kind := kind;
      lastSubmittedInstance, lastCompletedInstance, recordingInstance := 0, 0, 1;
      fenceValue, nextAllocator := 0, 0;
    }

    function State(): QueueState
      reads this
    {
      QueueState(lastSubmittedInstance, lastCompletedInstance, recordingInstance, fenceValue)
    }

    method UpdateLastCompletedInstance() returns (completed: nat)
      modifies this`lastCompletedInstance
      ensures State() == old(State()).Update() && completed == lastCompletedInstance
      ensures old(State()).Valid() ==> completed == fenceValue
    {
      if lastCompletedInstance < lastSubmittedInstance {
        lastCompletedInstance := fenceValue;
      }
      completed := lastCompletedInstance;
    }

    method Signal() returns (instance: nat)
      modifies this`lastSubmittedInstance
      ensures State() == old(State()).Signal() && instance == lastSubmittedInstance
    {
      lastSubmittedInstance := lastSubmittedInstance + 1;
      instance := lastSubmittedInstance;
    }
  }

  class CommandListLifetimeTracker {
    const queue: Queue
    // Submitted instances of the command lists in flight, newest first.
    var commandListsInFlight: seq<nat>

    constructor (queue: Queue)
      ensures this.queue == queue && commandListsInFlight == []
    {
      this.queue, commandListsInFlight := queue, [];
    }

    method Push(instance: nat)
      modifies this`commandListsInFlight
      ensures commandListsInFlight == [instance] + old(commandListsInFlight)
    {
      commandListsInFlight := [instance] + commandListsInFlight;
    }

    // Starts at the back, with the oldest submitted command lists. When the deque is
    // ordered, exactly the completed instances are released.
    method RunGarbageCollection()
      modifies this, queue`lastCompletedInstance
      ensures queue.State() == old(queue.State()).Update()
      ensures commandListsInFlight == Retirement.Retire(old(commandListsInFlight), queue.lastCompletedInstance)
      ensures Retirement.NewestFirst(old(commandListsInFlight)) ==>
                forall x :: x in commandListsInFlight <==> x in old(commandListsInFlight) && queue.lastCompletedInstance < x
      ensures old(queue.State()).Valid() ==> queue.lastCompletedInstance == queue.fenceValue
    {
      var completed := queue.UpdateLastCompletedInstance();
      ghost var before := commandListsInFlight;
      while commandListsInFlight != []
        invariant Retirement.Retire(commandListsInFlight, completed) == Retirement.Retire(before, completed)
        invariant queue.State() == old(queue.State()).Update()
        decreases |commandListsInFlight|
      {
        var instance := commandListsInFlight[|commandListsInFlight| - 1];
        if instance <= completed {
          commandListsInFlight := commandListsInFlight[..|commandListsInFlight| - 1];
        } else {
          break;
        }
      }
      if Retirement.NewestFirst(before) {
        Retirement.RetireIsExact(before, completed);
        assert before == commandListsInFlight + before[|commandListsInFlight|..];
      }
    }
  }

  // One transition for every plane of a subresource.
  method TranslatePlanes(barrier: TextureBarrier, stateBefore: D3DStates, stateAfter: D3DStates) returns (d3dBarriers: seq<D3DBarrier>)
    requires stateBefore == Convert(barrier.stateBefore) && stateAfter == Convert(barrier.stateAfter)
    ensures d3dBarriers == PlaneTransitions(barrier, barrier.texture.planeCount)
  {
    d3dBarriers := [];
    var desc := barrier.texture.desc;
    for plane := 0 to barrier.texture.planeCount
      invariant d3dBarriers == PlaneTransitions(barrier, plane)
    {
      d3dBarriers := d3dBarriers + [SubresourceTransition(
        barrier.texture,
        D3DSubresource(barrier.mipLevel, barrier.arraySlice, plane, desc.mipLevels, desc.arraySize),
        stateBefore, stateAfter)];
    }
  }

  // The translation of the texture barriers of commitBarriers.
  method TranslateTextureBarriers(barriers: seq<TextureBarrier>) returns (d3dBarriers: seq<D3DBarrier>)
    ensures d3dBarriers == TranslateTextures(barriers)
  {
    d3dBarriers := [];
    var i := 0;
    while i < |barriers|
      invariant i <= |barriers| && d3dBarriers == TranslateTextures(barriers[..i])
    {
      assert barriers[..i + 1][..i] == barriers[..i];
      var barrier := barriers[i];
      ghost var before := d3dBarriers;
      var stateBefore, stateAfter := Convert(barrier.stateBefore), Convert(barrier.stateAfter);
      if stateBefore != stateAfter {
        if barrier.entireTexture {
          d3dBarriers := d3dBarriers + [TextureTransition(barrier.texture, stateBefore, stateAfter)];
        } else {
          var planes := TranslatePlanes(barrier, stateBefore, stateAfter);
          d3dBarriers := d3dBarriers + planes;
        }
      } else if D3DUnorderedAccess in stateAfter {
        d3dBarriers := d3dBarriers + [TextureUav(barrier.texture)];
      }
      assert d3dBarriers == before + TranslateTexture(barrier);
      i := i + 1;
    }
    assert barriers[..i] == barriers;
  }

  // The translation of the buffer barriers of commitBarriers.
  method TranslateBufferBarriers(barriers: seq<BufferStates.BufferBarrier>) returns (d3dBarriers: seq<D3DBarrier>)
    ensures d3dBarriers == TranslateBuffers(barriers)
  {
    d3dBarriers := [];
    var i := 0;
    while i < |barriers|
      invariant i <= |barriers| && d3dBarriers == TranslateBuffers(barriers[..i])
    {
      assert barriers[..i + 1][..i] == barriers[..i];
      var barrier := barriers[i];
      var before, after := barrier.stateBefore, barrier.stateAfter;
      var stateBefore, stateAfter := Convert(before), Convert(after);
      if stateBefore != stateAfter &&
         D3DRaytracingAccelerationStructure !in stateBefore && D3DRaytracingAccelerationStructure !in stateAfter
      {
        d3dBarriers := d3dBarriers + [BufferTransition(barrier.buffer, stateBefore, stateAfter)];
      } else if OrdersAccelStruct(before, after) || D3DUnorderedAccess in stateAfter {
        d3dBarriers := d3dBarriers + [BufferUav(barrier.buffer)];
      }
      i := i + 1;
    }
    assert barriers[..i] == barriers;
  }

  class CommandList {
    const queue: Queue
    const lifetimeTracker: CommandListLifetimeTracker
    const stateTracker: CommandListResourceStateTracker
    const uploadManager: UploadManager
    const scratchManager: UploadManager
    var commandListPool: seq<Retirement.InternalList>
    var activeCommandList: Option<Retirement.InternalList>
    var recordingVersion: Version
    const enhancedBarriersSupported: bool
    var recordedBarriers: seq<D3DBarrier>    // ResourceBarrier calls on the active command list
    var recordedGroups: seq<BarrierGroup>    // Barrier calls on the active command list

    constructor (queue: Queue, lifetimeTracker: CommandListLifetimeTracker, uploads: UploadChunks.Settings, scratch: UploadChunks.Settings,
                 enhancedBarriersSupported: bool)
      ensures Valid() && this.queue == queue && this.lifetimeTracker == lifetimeTracker
      ensures this.enhancedBarriersSupported == enhancedBarriersSupported
      ensures PoolState() == Retirement.ListState([], None) && recordingVersion == 0
      ensures recordedBarriers == [] && recordedGroups == []
      ensures stateTracker.Textures() == EMPTY
      ensures uploadManager.View() == scratchManager.View() == UploadChunks.Manager([], None)
    {
      this.queue, this.lifetimeTracker := queue, lifetimeTracker;
      stateTracker := new CommandListResourceStateTracker();
      uploadManager := new UploadManager(uploads);
      scratchManager := new UploadManager(scratch);
      commandListPool, activeCommandList := [], None;
      recordingVersion, recordedBarriers, recordedGroups := 0, [], [];
      this.enhancedBarriersSupported := enhancedBarriersSupported;
    }

    ghost predicate Valid()
      reads this, stateTracker, uploadManager, scratchManager
    {
      && stateTracker.Valid()
      && uploadManager != scratchManager
      && uploadManager.Valid() && scratchManager.Valid()
      && uploadManager.ChunkObjects() !! scratchManager.ChunkObjects()
    }

    function PoolState(): Retirement.ListState
      reads this
    {
      Retirement.ListState(commandListPool, activeCommandList)
    }

    method Open()
      modifies this, queue`lastCompletedInstance, queue`recordingInstance, queue`nextAllocator
      ensures queue.State() == old(queue.State()).Update().BeginRecording()
      ensures recordingVersion == MakeVersion(old(queue.recordingInstance), queue.kind, false)
      ensures PoolState() == Retirement.Reopen(old(PoolState()), queue.lastCompletedInstance, old(queue.nextAllocator))
      ensures old(queue.State()).Valid() ==> queue.lastCompletedInstance == queue.fenceValue
      ensures recordedBarriers == [] && recordedGroups == []
    {
      var completedInstance := queue.UpdateLastCompletedInstance();
      activeCommandList := None;
      if commandListPool != [] {
        var chunk := commandListPool[0];
        if chunk.lastSubmittedInstance <= completedInstance {
          activeCommandList := Some(chunk);
          commandListPool := commandListPool[1..];
        }
      }
      if activeCommandList.None? {
        activeCommandList := Some(Retirement.InternalList(queue.nextAllocator, 0));
        queue.nextAllocator := queue.nextAllocator + 1;
      }
      recordedBarriers, recordedGroups := [], [];
      recordingVersion := MakeVersion(queue.recordingInstance, queue.kind, false);
      queue.recordingInstance := queue.recordingInstance + 1;
    }

    method CommitBarriers()
      modifies this`recordedBarriers, this`recordedGroups, stateTracker`textureBarriers, stateTracker`bufferBarriers
      ensures Records(old(recordedBarriers), old(recordedGroups), old(stateTracker.textureBarriers), old(stateTracker.bufferBarriers))
      ensures stateTracker.textureBarriers == [] && stateTracker.bufferBarriers == []
    {
      if |stateTracker.textureBarriers| + |stateTracker.bufferBarriers| == 0 {
        return;
      }
      if enhancedBarriersSupported {
        var textures := EnhanceTextureBarriers(stateTracker.textureBarriers);
        var buffers := EnhanceBufferBarriers(stateTracker.bufferBarriers);
        if textures != [] {
          recordedGroups := recordedGroups + [TextureGroup(textures)];
        }
        if buffers != [] {
          recordedGroups := recordedGroups + [BufferGroup(buffers)];
        }
        stateTracker.ClearBarriers();
        return;
      }
      var textures := TranslateTextureBarriers(stateTracker.textureBarriers);
      var buffers := TranslateBufferBarriers(stateTracker.bufferBarriers);
      recordedBarriers := recordedBarriers + textures + buffers;
      stateTracker.ClearBarriers();
    }

    // The list has recorded these barriers after what it had recorded before.
    ghost predicate Records(barriers: seq<D3DBarrier>, groups: seq<BarrierGroup>,
                            textures: seq<TextureBarrier>, buffers: seq<BufferStates.BufferBarrier>)
      reads this
    {
      if enhancedBarriersSupported
      then recordedBarriers == barriers && recordedGroups == groups + Groups(EnhanceTextures(textures), EnhanceBuffers(buffers))
      else recordedBarriers == barriers + TranslateTextures(textures) + TranslateBuffers(buffers) && recordedGroups == groups
    }

    // The ghost results are the orders in which the hash maps were walked.
    method Close() returns (ghost bufferOrder: seq<Buffer>, ghost textureOrder: seq<Texture>)
      requires stateTracker.Valid()
      modifies this`recordedBarriers, this`recordedGroups, stateTracker`textureStates, stateTracker`bufferStates
      modifies stateTracker`textureBarriers, stateTracker`bufferBarriers, stateTracker`messages
      ensures stateTracker.Valid()
      ensures VisitsOnce(bufferOrder, old(stateTracker.bufferStates).Keys)
      ensures VisitsOnce(textureOrder, old(stateTracker.textureStates).Keys)
      ensures var messages := old(stateTracker.messages) + KeepBufferMessages(old(stateTracker.Buffers()), bufferOrder,
                                                                              old(PermanentsOf(stateTracker.bufferStates.Keys)));
              var kept := old(stateTracker.Textures()).(messages := messages)
                            .KeepInitials(textureOrder, old(ExtsOf(stateTracker.textureStates.Keys)));
              var buffers := KeepBuffers(old(stateTracker.Buffers()), bufferOrder, old(PermanentsOf(stateTracker.bufferStates.Keys)));
              && stateTracker.Textures() == kept.(pending := [])
              && stateTracker.Buffers() == buffers.(pending := [])
              && Records(old(recordedBarriers), old(recordedGroups), kept.pending, buffers.pending)
    {
      bufferOrder, textureOrder := KeepInitialStates();
      CommitBarriers();
    }

    method KeepInitialStates() returns (ghost bufferOrder: seq<Buffer>, ghost textureOrder: seq<Texture>)
      requires stateTracker.Valid()
      modifies stateTracker`textureStates, stateTracker`bufferStates
      modifies stateTracker`textureBarriers, stateTracker`bufferBarriers, stateTracker`messages
      ensures stateTracker.Valid()
      ensures VisitsOnce(bufferOrder, old(stateTracker.bufferStates).Keys)
      ensures VisitsOnce(textureOrder, old(stateTracker.textureStates).Keys)
      ensures var messages := old(stateTracker.messages) + KeepBufferMessages(old(stateTracker.Buffers()), bufferOrder,
                                                                              old(PermanentsOf(stateTracker.bufferStates.Keys)));
              stateTracker.Textures() == old(stateTracker.Textures()).(messages := messages)
                                           .KeepInitials(textureOrder, old(ExtsOf(stateTracker.textureStates.Keys)))
      ensures stateTracker.Buffers() == KeepBuffers(old(stateTracker.Buffers()), bufferOrder,
                                                    old(PermanentsOf(stateTracker.bufferStates.Keys)))
    {
      bufferOrder := stateTracker.KeepBufferInitialStates();
      textureOrder := stateTracker.KeepTextureInitialStates();
    }

    // The bookkeeping after the list was handed to its queue and the queue was signalled,
    // resource states excepted.
    method FinishRecording() returns (submittedInstance: nat)
      requires Valid() && activeCommandList.Some?
      modifies this`commandListPool, this`activeCommandList, this`recordingVersion, lifetimeTracker`commandListsInFlight
      modifies uploadManager`chunkPool, uploadManager`currentChunk, uploadManager.ChunkObjects()`version
      modifies scratchManager`chunkPool, scratchManager`currentChunk, scratchManager.ChunkObjects()`version
      ensures submittedInstance == queue.lastSubmittedInstance && recordingVersion == 0
      ensures PoolState() == Retirement.Finish(old(PoolState()), submittedInstance)
      ensures lifetimeTracker.commandListsInFlight == [submittedInstance] + old(lifetimeTracker.commandListsInFlight)
      ensures var submittedVersion := MakeVersion(submittedInstance, queue.kind, true);
              && uploadManager.View() == UploadChunks.SubmitChunks(old(uploadManager.View()), old(recordingVersion), submittedVersion)
              && scratchManager.View() == UploadChunks.SubmitChunks(old(scratchManager.View()), old(recordingVersion), submittedVersion)
    {
      submittedInstance := queue.lastSubmittedInstance;
      lifetimeTracker.Push(submittedInstance);
      commandListPool := commandListPool + [activeCommandList.value.(lastSubmittedInstance := submittedInstance)];
      activeCommandList := None;
      SubmitUploads(submittedInstance);
    }

    // `textures` and `buffers` name the extension objects the state tracker may write.
    method Executed(ghost textures: set<Texture>, ghost buffers: set<Buffer>) returns (submittedInstance: nat)
      requires Valid() && activeCommandList.Some?
      requires stateTracker.ToSubmit(textures, buffers).Valid() && stateTracker.textureStates.Keys <= textures
      modifies this`commandListPool, this`activeCommandList, this`recordingVersion, lifetimeTracker`commandListsInFlight
      modifies stateTracker`textureStates, stateTracker`bufferStates, stateTracker`messages
      modifies stateTracker`permanentTextureStates, stateTracker`permanentBufferStates
      modifies textures`permanentState, textures`stateInitialized, buffers`permanentState
      modifies uploadManager`chunkPool, uploadManager`currentChunk, uploadManager.ChunkObjects()`version
      modifies scratchManager`chunkPool, scratchManager`currentChunk, scratchManager.ChunkObjects()`version
      ensures submittedInstance == queue.lastSubmittedInstance && recordingVersion == 0
      ensures PoolState() == Retirement.Finish(old(PoolState()), submittedInstance)
      ensures lifetimeTracker.commandListsInFlight == [submittedInstance] + old(lifetimeTracker.commandListsInFlight)
      ensures var submittedVersion := MakeVersion(submittedInstance, queue.kind, true);
              && uploadManager.View() == UploadChunks.SubmitChunks(old(uploadManager.View()), old(recordingVersion), submittedVersion)
              && scratchManager.View() == UploadChunks.SubmitChunks(old(scratchManager.View()), old(recordingVersion), submittedVersion)
      ensures stateTracker.HasSubmitted(old(stateTracker.ToSubmit(textures, buffers)), textures, buffers)
    {
      submittedInstance := FinishRecording();
      ghost var uploads, scratch := uploadManager.View(), scratchManager.View();
      assert stateTracker.ToSubmit(textures, buffers) == old(stateTracker.ToSubmit(textures, buffers));
      stateTracker.CommandListSubmitted(textures, buffers);
      assert uploadManager.View() == uploads && scratchManager.View() == scratch;
    }

    method SubmitUploads(submittedInstance: nat)
      requires uploadManager != scratchManager && uploadManager.Valid() && scratchManager.Valid()
      requires uploadManager.ChunkObjects() !! scratchManager.ChunkObjects()
      modifies this`recordingVersion
      modifies uploadManager`chunkPool, uploadManager`currentChunk, uploadManager.ChunkObjects()`version
      modifies scratchManager`chunkPool, scratchManager`currentChunk, scratchManager.ChunkObjects()`version
      ensures recordingVersion == 0
      ensures var submittedVersion := MakeVersion(submittedInstance, queue.kind, true);
              && uploadManager.View() == UploadChunks.SubmitChunks(old(uploadManager.View()), old(recordingVersion), submittedVersion)
              && scratchManager.View() == UploadChunks.SubmitChunks(old(scratchManager.View()), old(recordingVersion), submittedVersion)
    {
      var submittedVersion := MakeVersion(submittedInstance, queue.kind, true);
      uploadManager.SubmitChunks(recordingVersion, submittedVersion);
      scratchManager.SubmitChunks(recordingVersion, submittedVersion);
      recordingVersion := 0;
    }
  }
}
