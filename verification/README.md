# NVRHI resource tracking, recycling and binding, verified in Dafny

NVRHI hides four stateful engines behind a thin graphics API. This project models them and
proves what they are for. Foreign calls are replaced by small abstract devices: a map from
subresource to state, a fence counter that only grows, a table of slots per shader stage, a
pair of descriptor heaps.

* **Resource state tracking and barrier compilation.** `Subresources`, `TextureStates` and
  `BufferStates` say what one call of the tracker means; `StateTracker` is the tracker class,
  proved against them; `TextureRuns` and `BufferRuns` run whole sequences of record, close and
  submit cycles against a device, `InterleavedRuns` lists that are recorded at the same time,
  and `UavBudgetRuns` counts UAV barriers over runs. `BarrierTranslation` and
  `EnhancedBarriers` are the two paths of `commitBarriers` with the D3D12 devices that execute
  their output, `BarrierRuns` joins runs and translation, and `UavOrdering` shows that unordered
  accesses are ordered.
* **Recycling of upload memory and command lists.** `Versioning`, `UploadChunks` and
  `QueueProtocol` are the pieces, `UploadManagers` and `CommandLists` the classes, `UploadRuns`
  and `RetirementRuns` the protocols, in which the GPU advances its fence at any time.
* **D3D11 binding sets.** `BindingSets` compares the incremental bind with a from-scratch bind;
  `BindingCommands` holds the functions that create sets, null entries of the vectors and write
  the slot tables.
* **Descriptor heaps and bit sets.** `Words` is the power-of-two arithmetic, `DescriptorRanges`
  the allocator and its runs, `DescriptorHeaps` the class; `BitSets` is the ring allocator.

Loops and methods that change state in the source are methods and classes here, each tied to a
function of its inputs or old state; the theorems are about those functions and about runs.
Bit masks are sets of flags, 32-bit arithmetic is reduced modulo 2^32 where it can wrap, and
version words are numbers whose fields are quotients and remainders.

## Where the code does less than its intent

The code is modelled as it is. Where an intended property does not always hold, the exact
condition is proved and a concrete input shows the failure:

* Resolving a subresource range clamps it unless its end wraps below the limit
  (`Subresources.ResolveClampsIff`, `Subresources.SentinelExample`).
* Lists recorded at the same time fit the device exactly when it is, wherever their barriers
  go, in the states they started from, and leave it as the extension objects promise exactly
  when these are also what was promised (`InterleavedRuns.ExecutionFitsIff`,
  `InterleavedRuns.ExecutionIsConsistentIff`). Two lists that use an uninitialized texture do
  not, nor does a list that is closed and opened again without being executed
  (`InterleavedRuns.SharedTargetExample`, `InterleavedRuns.ReopenedExample`).
* Closing a list returns a buffer to its initial state unless a pending barrier would have to be
  narrowed (`BufferStates.CloseReturnsToInitialIff`, `BufferStates.MergedCloseExample`). The
  tracker is right about buffers throughout a run exactly when every list closes like that
  (`BufferRuns.RunIsConsistentIff`, `BufferRuns.SecondUseExample`).
* Closing also applies the initial state to a buffer that was announced as permanent. After a
  commit without a further use only the initial state itself survives; while a barrier is
  pending, what was asked for since the last commit and the initial state must add up to the
  announced state (`BufferRuns.PermanentIsActualIff`, `BufferRuns.SurvivesByDemand`,
  `BufferRuns.LostByCommitExample`, `BufferStates.LostPermanentExample`).
* What is asked of a texture after its permanent state was announced in the same list wins over
  the announcement (`BarrierRuns.LaterRequirementWins`, `BarrierRuns.OverriddenPermanentExample`).
* The memory accounted against the limit of scratch memory stays zero, and then no chunk is
  ever large enough to be reused: a request that no idle chunk serves fails exactly when the
  rounded size of a new chunk is beyond the limit, small requests included
  (`UploadChunks.UnaccountedNeverReuses`, `UploadChunks.BeyondLimitExample`,
  `UploadChunks.SmallRequestExample`).
* A superset of slots that is not visible to a stage leaves stale entries there
  (`BindingSets.SupersetLeavesStaleIff`, `BindingSets.ComputeLeavesStaleIff`,
  `BindingSets.StaleEntryExample`), and sets that share slots lose entries
  (`BindingSets.SharedSlotIsLostIff`, `BindingSets.SharedSlotSurvivesIff`,
  `BindingSets.LostSlotExample`).
* Range allocations can hide free descriptors behind the search hint
  (`DescriptorRanges.AllocateKeepsTightIff`, `DescriptorRanges.RangesHideFreeDescriptors`), and
  sizes above 2^31 have no power of two to grow to (`DescriptorRanges.GrownSizeIsEnough`,
  `DescriptorRanges.UnroundableExample`).
* A repeated unordered access of a buffer leaves an enhanced self-barrier behind when the batch
  later changes the buffer's use (`EnhancedBarriers.EnhancedBatchFitsIff`,
  `EnhancedBarriers.LeftBehindExample`).
* An acceleration structure write that was merged with another state in its batch is not ordered
  with later reads (`UavOrdering.BufferBarrierSeparatesIff`, `UavOrdering.MergedWriteExample`).
* On the enhanced path, repeated unordered access to a part of a texture gets a barrier on its
  first subresource only (`UavOrdering.EnhancedSeparatesIff`, `UavOrdering.EnhancedPartialExample`).
* Layouts of combined states conflict exactly when a higher flag disagrees with the lowest one
  that has a layout (`EnhancedStates.ConvertForEnhancedBarriers`, `EnhancedStates.ConflictExample`).

## Model

| member | source | states |
|---|---|---|
| ResourceStates.ConvertOfUnion | src/d3d12/d3d12-constants.cpp:243-277 | The D3D12 states of merged requests are the union of the D3D12 states of the requests, the early exit for Common included. |
| ResourceStates.ConvertKeepsUav | src/d3d12/d3d12-constants.cpp:256 | A request for unordered access is translated to D3D12 unordered access. |
| Subresources.ResolveIdempotent | src/common/misc.cpp:58-92 | Resolving a resolved range changes nothing, for every range, texture and number of mip levels asked for. |
| Subresources.ResolveClampsIff | src/common/misc.cpp:69-82 | The loop bounds after resolving are the clamp of the request exactly when its end does not wrap or it starts past the limit. |
| Subresources.RangeCoversIff | src/common/misc.cpp:58-92 | What a range covers, from the request alone: mip levels from its base up to its end in 32 bits, and of array textures the slices likewise. |
| Subresources.ResolveKeepsStart | src/common/misc.cpp:58-92 | Resolving keeps the first mip level and, for array textures, the first slice; a single mip level counts one. |
| Subresources.HasSlicesIff | src/common/misc.cpp:74-88 | The dimensions whose textures may have several slices. |
| Subresources.SliceIsOne | src/common/misc.cpp:74-88 | One face of a cube, or one slice of another array texture, at one mip level covers that subresource alone. |
| Subresources.SentinelExample | src/common/misc.cpp:69-70 | With the "all" sentinel at mip level 1 the range covers nothing, although the texture has that level. |
| Subresources.IndexInRange | src/common/state-tracking.cpp:46-49 | Numbering subresources is one to one: every mip and slice has an index in the expanded vector that decodes to it. |
| Subresources.IndexOnto | src/common/state-tracking.cpp:46-49 | Every index of the expanded vector is the number of one mip and slice. |
| Subresources.EntireTextureIff | src/common/misc.cpp:94-111 | A resolved range counts as the entire texture exactly when it covers every subresource. |
| Subresources.CoversIffVisited | src/common/state-tracking.cpp:224-228 | The nested mip and slice loops visit exactly the subresources of the resolved range. |
| Subresources.CellsFromDistinct | src/common/state-tracking.cpp:224-228 | No subresource is visited twice. |
| TextureStates.RequireMeans | src/common/state-tracking.cpp:163-268 | In either representation, requiring a state is the plain update of one map from subresource to state, for every range. |
| TextureStates.RequireReplays | src/common/state-tracking.cpp:184-267 | The barriers of a call fit, in order, every device that agrees with the tracker on the required range, and perform the same map update on it. |
| TextureStates.ReadMeans | src/common/state-tracking.cpp:135-151 | Reading a subresource reads the denoted map, and reading an untracked texture agrees with tracking it first. |
| TextureStates.BeginTrackingMeans | src/common/state-tracking.cpp:67-94 | Beginning to track a range is the map update, for whole and partial ranges. |
| TextureStates.RequireReportsIff | src/common/state-tracking.cpp:175-240 | An unknown prior state is reported exactly when the whole record is Unknown or the range holds an Unknown subresource. |
| TextureStates.RequireBudget | src/common/state-tracking.cpp:188-264 | A call places at most one self-barrier, only for unordered access; with UAV barriers enabled a non-empty UAV range always gets a barrier. |
| TextureStates.SelfBarrierIff | src/common/state-tracking.cpp:188-264 | Exactly when a call places a self-barrier: unordered access to a range that holds a subresource in that state already, with UAV barriers enabled or none placed since they were set. |
| TextureStates.RequireReaches | src/common/state-tracking.cpp:237-256 | Every covered subresource that is in another state gets a barrier that takes it to the required one. |
| TextureStates.TouchedIff | src/common/state-tracking.cpp:188-264 | Exactly which covered subresources a barrier of a call concerns: those in another state, and of those in the state already, when a UAV barrier is due, all of a texture tracked and required as a whole, else the first. |
| UavBudgetRuns.DisabledUavBudget | src/common/state-tracking.cpp:51-57 | After UAV barriers are disabled for a texture, and until they are set again or the list is submitted, at most one self-barrier of it is emitted over any events: requirements of any textures, begin-tracking, permanent transitions, commits and closing. |
| UavBudgetRuns.FirstAfterSetting | src/common/state-tracking.cpp:51-57 | Right after UAV barriers were set for a texture, enabled or disabled, repeated unordered access places a self-barrier. |
| UavBudgetRuns.BufferSelfBarrierIff | src/common/state-tracking.cpp:299-331 | Exactly when a requirement of a buffer places a self-barrier. |
| UavBudgetRuns.DisabledBufferUavBudget | src/common/state-tracking.cpp:59-65 | After UAV barriers are disabled for a buffer, at most one self-barrier of it is placed over any events of the list; right after they are set, repeated unordered access places one. |
| TextureStates.RequireAllReplays | src/common/state-tracking.cpp:163-268 | The barriers of any run of requirements form a chain from the tracked state at the start to the tracked state at the end. |
| TextureTracking.SubmitPermanentsAt | src/common/state-tracking.cpp:365-378 | Submission gives a texture the first state announced for it, if it had no permanent state, and changes nothing else of it. |
| TextureTracking.SetPermanentAnnouncesIff | src/common/state-tracking.cpp:103-126 | A permanent transition is announced exactly when it covers every subresource, is reported otherwise, and requires the range either way. |
| TextureTracking.SubmitReportsIff | src/common/state-tracking.cpp:365-378 | Submission reports an error exactly when some announced state did not become, or stay, the permanent one. |
| TextureTracking.ServedIff | src/common/state-tracking.cpp:28-44 | A permanent resource serves a requirement without an error exactly when it has every flag asked for, and then it is in every D3D12 state asked for. |
| TextureRuns.RunKeepsInvariant | src/common/state-tracking.cpp:103-428 | In every world of every legal run of record, close and submit cycles, extensions, records, announcements and device agree. |
| TextureRuns.RunIsConsistent | src/d3d12/d3d12-commandlist.cpp:310-330 | In every legal run no committed barrier is rejected, tracking of a kept texture starts from its actual state, and a permanent texture is in its permanent state. |
| TextureRuns.RecordedFits | src/common/state-tracking.cpp:350-361 | Whatever an event of a legal run records, the returns to initial states on closing included, fits the device and takes it to the next world. |
| TextureRuns.PermanentForEver | src/common/state-tracking.cpp:365-377 | A permanent state once acquired is never given up or exchanged, for the rest of any run. |
| InterleavedRuns.ReplayElsewhereIff | src/common/state-tracking.cpp:184-267 | Barriers that fit one device fit another exactly when the two agree on every subresource the barriers concern. |
| InterleavedRuns.ExecutionFitsIff | src/common/state-tracking.cpp:405-428 | With lists recorded at the same time over kept textures: the barriers of a list fit when it executes exactly when the device is, on every subresource they concern, in the state the list started from, and then take it to what the list tracks. |
| InterleavedRuns.ExecutionIsConsistentIff | src/common/state-tracking.cpp:363-403 | As long as extension objects and device agree: they do after a list has executed exactly when, for each texture it used, what is promised before and after submission was assumed and is reached, or is untouched and does not change. |
| InterleavedRuns.PlainStaysTrueIff | src/common/state-tracking.cpp:422-425 | For a texture nobody makes permanent, that condition says that its tracking would still start from the same state. |
| InterleavedRuns.PermanentStaysTrueIff | src/common/state-tracking.cpp:165-169 | For a texture another list has made permanent, it says that the list starts and ends in the permanent state wherever its barriers go. |
| InterleavedRuns.RunIsConsistentIff | src/common/state-tracking.cpp:350-428 | Over any interleaving of recording, announcing permanent states, closing, reopening and executing lists, extension objects and device agree throughout exactly when every executed list meets the condition. |
| InterleavedRuns.RunFitsIff | src/common/state-tracking.cpp:350-428 | Over any such interleaving, no barrier is rejected exactly when every executed list finds the device in the states it started from, wherever its barriers go. |
| InterleavedRuns.SecondListIsRejected | src/common/state-tracking.cpp:422-425 | Of two lists that used a texture before it was initialized, the second to execute does not fit, unless the initial state is Common. |
| InterleavedRuns.SharedTargetExample | src/common/state-tracking.cpp:422-425 | Two lists render to the same new shader resource, are closed and submitted: a legal run whose second execution is rejected. |
| InterleavedRuns.ReopenedStarts | src/d3d12/d3d12-commandlist.cpp:237-272 | A closed list that is opened again keeps its records: its textures start from their initial states. |
| InterleavedRuns.AssumedStays | src/common/state-tracking.cpp:405-428 | Whatever else is recorded, a list goes on from what it first assumed of a texture. |
| InterleavedRuns.ReopenedIsStale | src/d3d12/d3d12-commandlist.cpp:237-272 | Executed while such a texture is still uninitialized, it leaves the texture in a state that is not promised, unless the initial state is Common. |
| InterleavedRuns.ReopenedExample | src/d3d12/d3d12-commandlist.cpp:237-272 | Render to a new shader resource, close, open again, close, execute: a legal run that ends with a wrong extension object. |
| BufferStates.RequireKeepsChain | src/common/state-tracking.cpp:299-333 | The pending barriers of a buffer start at the committed state and end at the tracked one; later ones are UAV self-barriers; a merge adds flags and drops none. |
| BufferStates.RequireFrame | src/common/state-tracking.cpp:308-316 | A requirement leaves the barriers and the record of every other buffer alone. |
| BufferStates.RunKeepsChain | src/common/state-tracking.cpp:270-334 | Every batch of requirements on any buffers keeps that chain for every buffer. |
| BufferStates.RunContainsRequired | src/common/state-tracking.cpp:305-316 | The tracked state contains every state required since the buffer's first pending barrier. |
| BufferStates.RunMeetsDemand | src/common/state-tracking.cpp:299-333 | Told from the requirements of a batch alone: a barrier is pending exactly when one of them was due, and the tracked state is the union of those from the first that was due. |
| BufferStates.BehindIffRepeated | src/common/state-tracking.cpp:319-331 | A self-barrier waits behind the first pending barrier of a buffer exactly when a repeated unordered access asked for its state. |
| BufferStates.CloseReturnsToInitialIff | src/common/state-tracking.cpp:336-348 | Closing returns a kept buffer to its initial state exactly when none of its barriers is pending or its tracked flags are part of that state. |
| BufferStates.ClosedStateIsAsked | src/common/state-tracking.cpp:336-348 | The state closing leaves a buffer in, from the requirements since the last commit. |
| BufferStates.MergedCloseExample | src/common/state-tracking.cpp:303-317 | A kept copy destination used as a vertex buffer is left in both states. |
| BufferStates.PermanentStateSurvivesCloseIff | src/common/state-tracking.cpp:336-348 | With the tracker as it is on closing, whatever was announced before: a kept buffer ends up in a state exactly when that is the initial state, or, while a barrier is pending, the initial state merged into the tracked one. |
| BufferStates.AnnouncedLastSurvivesIff | src/common/state-tracking.cpp:128-133 | Announced and closed in one batch, a state survives exactly when the state it is merged with and the initial state add nothing to it. |
| BufferStates.LostPermanentExample | src/common/state-tracking.cpp:128-133 | A buffer made permanent after another use in the batch is left in three states, although its initial state adds nothing. |
| BufferRuns.RunKeepsInvariant | src/common/state-tracking.cpp:270-403 | In every world of every legal run of record, close and submit cycles, each buffer's pending barriers lead from the state at the last commit to the tracked one, and permanent buffers have none. |
| BufferRuns.RunIsConsistentIff | src/common/state-tracking.cpp:336-348 | Over any legal run: no batch is rejected and what the tracker takes for a buffer's state is its state, exactly when every list, at the time it is closed, has nothing pending for the kept buffers it tracks, or tracks them in part of their initial state. |
| BufferRuns.RunFits | src/common/state-tracking.cpp:336-348 | Then everything an event records, closing included, fits the device and takes it to the next world. |
| BufferRuns.SecondUseExample | src/common/state-tracking.cpp:303-317 | A kept copy destination is used as a vertex buffer in two lists: a legal run in which the barrier of the second does not fit. |
| BufferRuns.PermanentForEver | src/common/state-tracking.cpp:380-395 | A buffer's permanent state is never exchanged, and no event moves the buffer any more. |
| BufferRuns.OthersAreNeverMoved | src/common/state-tracking.cpp:272-287 | In every legal run volatile and CPU-visible buffers keep their state and have no barrier pending. |
| BufferRuns.PermanentIsActualIff | src/common/state-tracking.cpp:128-133 | Over any run, commits between announcement and closing included: the first state announced for a buffer becomes permanent, and is its actual state from then on exactly when closing leaves the buffer in it. |
| BufferRuns.SurvivesByDemand | src/common/state-tracking.cpp:128-133 | That in terms of the requirements since the last commit: none was due and the announced state is the initial one, or those from the first due one and the initial state add up to it. |
| BufferRuns.LostByCommitExample | src/common/state-tracking.cpp:128-133 | Announce a state that contains the initial one, commit, close, submit: the buffer is permanent in a state it is not in. |
| BufferRuns.SubmitReportsIff | src/common/state-tracking.cpp:381-393 | Submission reports an error exactly when some announced state did not become, or stay, the permanent one. |
| BufferRuns.RequireReportsIff | src/common/state-tracking.cpp:270-297 | Exactly when a requirement of a buffer reports an unknown state, and when it reports nothing. |
| StateTracker.AssignBox | src/common/state-tracking.cpp:85-92 | The loops of begin-tracking perform the map update on the expanded vector. |
| StateTracker.RequireBox | src/common/state-tracking.cpp:224-266 | The nested loops with their flags produce the states, barriers and messages of visiting the range cell by cell. |
| StateTracker.FindPending | src/common/state-tracking.cpp:308-316 | The scan finds the first pending barrier of a buffer. |
| StateTracker.CommandListResourceStateTracker.SetEnableUavBarriersForTexture | src/common/state-tracking.cpp:51-57 | The whole new tracking state: the record's two UAV flags. |
| StateTracker.CommandListResourceStateTracker.SetEnableUavBarriersForBuffer | src/common/state-tracking.cpp:59-65 | The same for buffers. |
| StateTracker.CommandListResourceStateTracker.BeginTrackingTextureState | src/common/state-tracking.cpp:67-94 | Refines the value-level operation on the whole tracking state. |
| StateTracker.CommandListResourceStateTracker.BeginTrackingBufferState | src/common/state-tracking.cpp:96-101 | The record is created if needed and set; nothing else changes. |
| StateTracker.CommandListResourceStateTracker.SetPermanentTextureState | src/common/state-tracking.cpp:103-126 | A partial range is reported and only required; an entire one is announced and marked. |
| StateTracker.CommandListResourceStateTracker.SetPermanentBufferState | src/common/state-tracking.cpp:128-133 | The state is required and announced; the record is not marked. |
| StateTracker.CommandListResourceStateTracker.GetTextureSubresourceState | src/common/state-tracking.cpp:135-151 | Reads without creating a record. |
| StateTracker.CommandListResourceStateTracker.GetBufferState | src/common/state-tracking.cpp:153-161 | An untracked buffer reads as Unknown. |
| StateTracker.CommandListResourceStateTracker.RequireTextureState | src/common/state-tracking.cpp:163-268 | Refines the value-level operation on records, pending barriers and messages. |
| StateTracker.CommandListResourceStateTracker.RequireBufferState | src/common/state-tracking.cpp:270-334 | Refines the value-level operation, the early returns and messages included. |
| StateTracker.CommandListResourceStateTracker.KeepBufferInitialStates | src/common/state-tracking.cpp:336-348 | Visits every tracked buffer exactly once, in some order: the new records, pending barriers and errors are those of the visits. |
| StateTracker.CommandListResourceStateTracker.KeepTextureInitialStates | src/common/state-tracking.cpp:350-361 | Visits every tracked texture exactly once, in some order: the whole tracking state is that of the visits. |
| StateTracker.CommandListResourceStateTracker.CommandListSubmitted | src/common/state-tracking.cpp:363-403 | Announced states become permanent, kept textures become initialized, contradictions are reported, the records are forgotten. |
| StateTracker.CommandListResourceStateTracker.GetTextureStateTracking | src/common/state-tracking.cpp:405-428 | The record found or created, with its start state. |
| StateTracker.CommandListResourceStateTracker.GetBufferStateTracking | src/common/state-tracking.cpp:430-453 | The record found or created, with its start state. |
| BarrierTranslation.PlanesExecute | src/d3d12/d3d12-state-tracking.cpp:245-249 | The transitions of one subresource fit and change exactly that subresource in every plane. |
| BarrierTranslation.TranslateTexturesSound | src/d3d12/d3d12-state-tracking.cpp:217-260 | If the tracker's texture barriers fit the tracked states, the D3D12 barriers fit the D3D12 states of every plane, and the results correspond. |
| UavOrdering.SelfBarrierIsUav | src/d3d12/d3d12-state-tracking.cpp:255-260 | A tracker barrier from unordered access to itself is recorded as one UAV barrier. |
| UavOrdering.UavBarrierSeparates | src/d3d12/d3d12-state-tracking.cpp:217-260 | A tracker barrier from or to unordered access is recorded as a transition or UAV barrier of everything it concerns, in every plane. |
| UavOrdering.RequirementIsOrdered | src/d3d12/d3d12-state-tracking.cpp:217-260 | When unordered access is required and a UAV barrier due, the D3D12 barriers separate earlier from later uses of every subresource and plane of the range. |
| UavOrdering.SettingIs | src/common/state-tracking.cpp:51-57 | In every legal run a texture's UAV setting is the last one made in the list, enabled by default. |
| UavOrdering.OrderedInEveryRun | src/common/state-tracking.cpp:188-264 | So in every legal run, unless UAV barriers are disabled for the texture, every required unordered access is separated from the uses before it. |
| UavOrdering.EnhancedSeparatesIff | src/d3d12/d3d12-state-tracking.cpp:119-167 | On the enhanced path a subresource of a required range that is used for unordered access already gets a barrier exactly when the texture is tracked and required as a whole, or it is the first such. |
| UavOrdering.EnhancedPartialExample | src/d3d12/d3d12-state-tracking.cpp:149-165 | Unordered access to two of three mip levels again: the enhanced path has a barrier for the first only, the legacy path orders both. |
| BarrierTranslation.TranslateBuffersSound | src/d3d12/d3d12-state-tracking.cpp:262-291 | The merged buffer barriers fit and take every buffer to the D3D12 state of its tracked state; acceleration structures are never transitioned. |
| UavOrdering.BufferBarrierSeparatesIff | src/d3d12/d3d12-state-tracking.cpp:271-290 | Exactly when a buffer barrier is recorded: a transition outside acceleration structures, unordered access, or acceleration structure and micromap writes next to the reads and builds that depend on them. |
| UavOrdering.MergedWriteExample | src/d3d12/d3d12-state-tracking.cpp:281-284 | Write an acceleration structure and build from it in one batch, read it in the next: no barrier is recorded. |
| UavOrdering.BufferRequirementIsOrdered | src/d3d12/d3d12-state-tracking.cpp:262-291 | When unordered access of a buffer is required and a barrier due, the recorded barriers separate its uses, whatever the requirement was merged with. |
| UavOrdering.BufferOrderedInEveryRun | src/common/state-tracking.cpp:299-331 | The same in every legal run, unless UAV barriers are disabled for the buffer. |
| BarrierRuns.RunCompiles | src/d3d12/d3d12-state-tracking.cpp:210-297 | End to end: executed as they are recorded, closing included, all D3D12 texture barriers of any legal run fit, and after every event each plane is in the D3D12 state of its actual state. |
| BarrierRuns.CommitFitsInEveryRun | src/d3d12/d3d12-state-tracking.cpp:210-297 | On the device that the run itself has led to, a commit at any point fits and ends at the D3D12 states of what is tracked. |
| BarrierRuns.CloseReturnsToInitial | src/d3d12/d3d12-commandlist.cpp:310-314 | Executing the D3D12 barriers of all lists up to a closed one leaves every kept texture of it, in every plane, in the D3D12 state of its initial state, unless it was made permanent. |
| BarrierRuns.PermanentOnTheDevice | src/common/state-tracking.cpp:365-377 | From the submission that makes it permanent on, every plane of a texture is in the D3D12 state of its permanent state. |
| BarrierRuns.BufferBatchCompiles | src/d3d12/d3d12-state-tracking.cpp:262-291 | Any batch of buffer requirements compiles to D3D12 barriers that fit and end at the tracked states. |
| BarrierRuns.BufferRunCompiles | src/d3d12/d3d12-state-tracking.cpp:262-291 | End to end, in runs whose lists are closed well: all D3D12 buffer barriers fit, and after every event each buffer that is no acceleration structure is in the D3D12 state of its actual state. |
| BarrierRuns.LastAskedIsFinal | src/common/state-tracking.cpp:119-125 | After an announced permanent state, any series of requirements and announcements of any ranges is neither refused nor undone on closing: each subresource ends in the state that the last one to cover it asked for. |
| BarrierRuns.LaterRequirementWins | src/common/state-tracking.cpp:119-125 | The first announcement becomes permanent, and is the state the texture is in exactly when, for each subresource, the last requirement or announcement to cover it asks for that state, or none covers it. |
| BarrierRuns.OverriddenPermanentExample | src/common/state-tracking.cpp:119-125 | A texture announced as permanent shader resource and then copied to becomes permanent in a state it is not in. |
| EnhancedStates.ConvertForEnhancedBarriers | src/d3d12/d3d12-constants.cpp:387-430 | The bit loop returns the union of sync and access over exactly the set flags, the whole mask as state and the layout of the lowest flag that has one; the layout assertions pass exactly when the layouts agree. |
| EnhancedStates.LowestLayoutIff | src/d3d12/d3d12-constants.cpp:410-420 | The layout of a mask is unique: it is the translated one exactly when it belongs to the lowest flag with a layout of its own. |
| EnhancedStates.ConflictExample | src/d3d12/d3d12-constants.cpp:410-420 | A pixel shader resource that is also read as depth has conflicting layouts. |
| EnhancedStates.LegacyAndEnhancedAgree | src/d3d12/d3d12-constants.cpp:279-385 | Both translation tables give every mask the same uses, Present's copy access excepted. |
| EnhancedStates.LayoutAdmitsAccess | src/d3d12/d3d12-constants.cpp:279-385 | Flag by flag, the layout is the one that each of the entry's accesses needs, presenting and building acceleration structures excepted. |
| EnhancedStates.SyncPerformsAccess | src/d3d12/d3d12-constants.cpp:279-385 | Flag by flag, the sync scope is one that performs the entry's accesses, and it tells pixel from other shading as the legacy states do. |
| EnhancedBarriers.EnhanceTextureBarriers | src/d3d12/d3d12-state-tracking.cpp:119-167 | One barrier per tracker barrier, with its states' sync, access and layout and its range of mips, slices and planes. |
| EnhancedBarriers.EnhanceBufferBarriers | src/d3d12/d3d12-state-tracking.cpp:169-183 | One barrier per tracker barrier, with its states' sync and access. |
| EnhancedBarriers.EnhanceTexturesAt | src/d3d12/d3d12-state-tracking.cpp:119-167 | Every tracker barrier becomes one enhanced barrier, in order, with its texture, range and uses; none is dropped. |
| EnhancedBarriers.EnhanceBuffersAt | src/d3d12/d3d12-state-tracking.cpp:169-183 | The same for buffers. |
| EnhancedBarriers.RangeIsExact | src/d3d12/d3d12-state-tracking.cpp:149-165 | The subresource range of an enhanced barrier holds exactly the subresources of the tracker's barrier, in every plane. |
| EnhancedBarriers.EnhanceTexturesSound | src/d3d12/d3d12-state-tracking.cpp:119-167 | If the tracker's barriers fit the tracked states, every enhanced barrier names the last sync scope, access and layout of its whole range, and the results correspond. |
| EnhancedBarriers.EnhanceBuffersFitIff | src/d3d12/d3d12-state-tracking.cpp:169-183 | The pending buffer barriers of a fitting batch name the last uses, and end at those of the tracked states, exactly when every one of them ends in the use of its buffer's tracked state. |
| EnhancedBarriers.EnhancedBatchFitsIff | src/d3d12/d3d12-state-tracking.cpp:169-183 | Over any batch of requirements: the merged barriers name the last uses, and leave every buffer in the use of its tracked state, exactly when the use asked for by every repeated unordered access is still the buffer's at the end. |
| EnhancedBarriers.LeftBehindExample | src/d3d12/d3d12-state-tracking.cpp:169-183 | Unordered access twice and then indirect arguments: the second barrier does not fit. |
| EnhancedBarriers.EnhancedRunCompiles | src/d3d12/d3d12-state-tracking.cpp:112-206 | End to end: executed as they are recorded, closing included, all enhanced texture barriers of any legal run name the last use of their whole range. |
| EnhancedBarriers.EnhancedCommitFitsInEveryRun | src/d3d12/d3d12-state-tracking.cpp:112-206 | On the device that the run itself has led to, an enhanced commit at any point fits and ends at the uses of what is tracked. |
| Versioning.RoundTrip | src/common/versioning.h:41-61 | Unpacking a packed word returns its queue and flag always, and its id exactly when it is below 2^60. |
| Versioning.Distinguishes | src/common/versioning.h:41-46 | Words of different recordings differ, and none is the word 0 of an available chunk. |
| QueueProtocol.QueueState.UpdateNotices | src/d3d12/d3d12-device.cpp:135-142 | After an update the completed instance is the fence: finished work is noticed. |
| UploadChunks.ScanExhaustive | src/d3d12/d3d12-upload.cpp:137-154 | The search succeeds only with an available chunk that is large enough, and fails only when there is none. |
| UploadChunks.ScanFindsIdle | src/d3d12/d3d12-upload.cpp:137-154 | The search succeeds exactly when some chunk is idle, by its version and the completed instance, and large enough. |
| UploadChunks.ScanFailsIff | src/d3d12/d3d12-upload.cpp:137-154 | The search fails exactly when no chunk is both available, completed ones included, and large enough. |
| UploadChunks.ScanMembers | src/d3d12/d3d12-upload.cpp:142-152 | The search neither invents chunks nor changes them, except for making completed ones available. |
| UploadChunks.VictimIsBest | src/d3d12/d3d12-upload.cpp:173-199 | The chunk chosen for reuse is at least as good as every other that fits: submitted first, oldest, largest. |
| UploadChunks.VictimIsOldest | src/d3d12/d3d12-upload.cpp:173-199 | No candidate is submitted unless the chosen chunk is; of those alike in this none is older, and of those none larger. |
| UploadChunks.CurrentServesIff | src/d3d12/d3d12-upload.cpp:110-133 | The current chunk serves a request exactly when it ends within the chunk from the next aligned offset, and it is placed there; otherwise the chunk is retired. |
| UploadChunks.ElsewhereServesIff | src/d3d12/d3d12-upload.cpp:135-239 | Any other request, in terms of the pool, the limit and the kind of manager: from the start of an idle chunk, else of a new one of the least needed size, else of a chunk in use behind a barrier, else not. |
| UploadChunks.ReuseIsSeparated | src/d3d12/d3d12-upload.cpp:166-216 | When the limit is hit, every candidate is in use, the best is taken, and a UAV barrier on it separates old and new uses, whatever the accounted memory. |
| UploadChunks.ReuseIsSeparatedInEveryRun | src/d3d12/d3d12-upload.cpp:166-216 | The same for every manager that any run of requests and submissions leads to. |
| UploadChunks.UnaccountedNeverReuses | src/d3d12/d3d12-upload.cpp:166-227 | With nothing accounted, every chunk stays within the limit, no chunk is reused in flight, and a request fails exactly when neither the current nor an available chunk serves it and the rounded size of a new one is beyond the limit. |
| UploadChunks.UnaccountedStaysWithinLimit | src/d3d12/d3d12-upload.cpp:166-227 | In every run of a manager with nothing accounted, all its chunks are within the limit. |
| UploadChunks.BeyondLimitExample | src/d3d12/d3d12-upload.cpp:166-204 | A manager with a limit of 64 KiB that served one request of that size refuses one for 68 KiB, even when the first is completed. |
| UploadChunks.SmallRequestExample | src/d3d12/d3d12-upload.cpp:166-204 | A request for 16 bytes fails when the default chunk is beyond the limit, or when the limit is no multiple of 4096. |
| UploadManagers.FindAvailable | src/d3d12/d3d12-upload.cpp:138-154 | The loop over the pool makes completed chunks available on its way and stops at the first that can be used. |
| UploadManagers.FindVictim | src/d3d12/d3d12-upload.cpp:173-199 | The loop computes the chunk the specification chooses. |
| UploadManagers.UploadManager.TryCurrent | src/d3d12/d3d12-upload.cpp:110-133 | The current chunk serves the request exactly when the aligned end fits. |
| UploadManagers.UploadManager.SuballocateBuffer | src/d3d12/d3d12-upload.cpp:102-239 | The method on shared chunk objects refines the value-level allocation: region, pool, current chunk and barrier. |
| UploadManagers.UploadManager.SubmitChunks | src/d3d12/d3d12-upload.cpp:241-254 | The current chunk joins the pool and exactly the chunks of the recording get the submitted version. |
| UploadRuns.RegionShape | src/d3d12/d3d12-upload.cpp:111-133 | Every region starts on the requested alignment, has the requested size, and ends at the chunk's fill level within the chunk. |
| UploadRuns.RunKeepsInvariant | src/d3d12/d3d12-upload.cpp:102-254 | Every step of open, suballocate, execute, fence advance and collection keeps the versions of the chunks truthful about the regions in use. |
| UploadRuns.RunNeverShares | src/d3d12/d3d12-commandlist.cpp:332-368 | In every reachable world the upload and scratch regions still being recorded or used by the GPU are pairwise disjoint, over all managers of a queue. |
| UploadRuns.DisciplinedRunLeaksNothing | src/d3d12/d3d12-upload.cpp:230-254 | When every opened list is executed before it is reopened, the current chunk carries the recording version and no chunk is lost to recycling. |
| CommandLists.Queue.UpdateLastCompletedInstance | src/d3d12/d3d12-device.cpp:135-142 | The completed instance is refreshed from the fence while work is outstanding, so on a valid queue it is the fence's. |
| CommandLists.Queue.Signal | src/d3d12/d3d12-device.cpp:144-150 | A new instance number is issued. |
| CommandLists.CommandListLifetimeTracker.RunGarbageCollection | src/d3d12/d3d12-device.cpp:160-196 | On an ordered queue the loop releases exactly the completed instances. |
| CommandLists.CommandListLifetimeTracker.Push | src/d3d12/d3d12-device.cpp:198-201 | An instance joins as the newest. |
| CommandLists.TranslateTextureBarriers | src/d3d12/d3d12-state-tracking.cpp:217-260 | The loops produce the translation that is proved sound. |
| CommandLists.TranslateBufferBarriers | src/d3d12/d3d12-state-tracking.cpp:262-291 | The loop produces the translation that is proved sound. |
| CommandLists.CommandList.Open | src/d3d12/d3d12-commandlist.cpp:237-272 | The oldest pooled list is recycled if completed, one is created otherwise, and the recording gets its version. |
| CommandLists.CommandList.CommitBarriers | src/d3d12/d3d12-state-tracking.cpp:105-297 | All pending barriers are recorded, by the path the device supports, textures before buffers, and the tracker's lists are emptied. |
| CommandLists.CommandList.Close | src/d3d12/d3d12-commandlist.cpp:310-330 | What is recorded are the pending barriers after buffers and then textures were returned to their initial states. |
| CommandLists.CommandList.Executed | src/d3d12/d3d12-commandlist.cpp:332-375 | Pool, lifetime tracker, upload and scratch memory take note of the submitted instance; permanent states of textures and buffers, initialized flags, errors and cleared records are those of the submission. |
| RetirementRuns.RetireIsExact | src/d3d12/d3d12-device.cpp:165-196 | On instances ordered newest first, testing only the oldest releases exactly the completed ones. |
| RetirementRuns.RunKeepsInvariant | src/d3d12/d3d12-commandlist.cpp:237-375 | In every run the in-flight instances and every pool stay ordered, and allocators belong to one list. |
| RetirementRuns.OpenRecyclesExactly | src/d3d12/d3d12-commandlist.cpp:243-262 | An allocator is reset only when the GPU is done with it, and one is recycled exactly when the fence has reached some pooled list. |
| RetirementRuns.CollectReleasesExactly | src/d3d12/d3d12-device.cpp:160-196 | In every run, collection keeps exactly the instances that the fence has not reached. |
| RetirementRuns.InstancesAreNew | src/d3d12/d3d12-device.cpp:144-150 | In every run, executed lists get an instance that is newer than everything in flight and that the fence has not reached. |
| RetirementRuns.RecordingsDiffer | src/d3d12/d3d12-commandlist.cpp:271 | In every run, no two recordings get the same recording instance. |
| BindingSets.GraphicsBindRefinesClean | src/d3d11/d3d11-resource-bindings.cpp:215-403 | Under one stage mask, unbinding and binding the difference leaves every slot as a from-scratch bind would. |
| BindingSets.GraphicsBindAcrossMasks | src/d3d11/d3d11-resource-bindings.cpp:239-314 | Between different masks the same holds for any sets. |
| BindingSets.GraphicsRunRefinesClean | src/d3d11/d3d11-resource-bindings.cpp:215-403 | However many incremental changes led to it, the last one leaves the tables of a from-scratch bind. |
| BindingSets.ComputeBindRefinesClean | src/d3d11/d3d11-resource-bindings.cpp:405-499 | The compute difference, its superset shortcut and the forced UAV unbind leave the tables of a from-scratch bind, overlapping and duplicated sets included. |
| BindingSets.ComputeRunRefinesClean | src/d3d11/d3d11-resource-bindings.cpp:405-499 | The same after any run of compute changes. |
| BindingSets.CancelFromCancels | src/d3d11/d3d11-resource-bindings.cpp:241-253 | A set is dropped from one vector only together with an occurrence of it in the other. |
| BindingSets.CancelIsDifference | src/d3d11/d3d11-resource-bindings.cpp:241-253 | Cancellation is the difference of the two vectors as multisets, both ways. |
| BindingSets.CleanBindOfOne | src/d3d11/d3d11-resource-bindings.cpp:319-403 | What binding one set leaves, by visibility, stage mask and slot ranges: every stage in both, every table but the unordered accesses of graphics stages, every slot of the range; nothing else. |
| BindingSets.LastShownStays | src/d3d11/d3d11-resource-bindings.cpp:319-403 | Of any vector, the last set that shows a location has its entry there; where none does, nothing changes. |
| BindingSets.ChangeLeaves | src/d3d11/d3d11-resource-bindings.cpp:215-403 | For any two vectors, what a graphics change leaves at a location: the entry of the last set that the new vector has more of, else nothing where a dropped set wrote, else what was there. |
| BindingSets.ComputeLeavesStaleIff | src/d3d11/d3d11-resource-bindings.cpp:405-499 | For any two vectors, the incremental compute bind equals a from-scratch bind at a location exactly unless nothing new writes it, it was not empty, and every old set that wrote it is thought to be overwritten. |
| BindingSets.NothingNewLeavesStaleIff | src/d3d11/d3d11-resource-bindings.cpp:255-268 | For any two vectors, where nothing new writes, a stale entry stays exactly when the shortcut is taken for every old set that wrote there. |
| BindingSets.SupersetLeavesStaleIff | src/d3d11/d3d11-resource-bindings.cpp:200-206 | Where the sets of each vector are apart, the incremental graphics bind equals a from-scratch bind exactly where it leaves nothing stale, with or without a framebuffer update. |
| BindingSets.SharedSlotIsLostIff | src/d3d11/d3d11-resource-bindings.cpp:241-313 | For any two vectors, the last new writer that stays bound keeps its entry exactly when that is what earlier surplus sets, dropped sets and the old vector leave there. |
| BindingSets.SharedSlotSurvivesIff | src/d3d11/d3d11-resource-bindings.cpp:241-313 | Where entries tell the sets apart: a kept set's entry survives exactly when no surplus set writes the location, no dropped set is unbound there, and the kept set was the last of the old vector to write it. |
| BindingSets.BoundIsNotLost | src/d3d11/d3d11-resource-bindings.cpp:215-403 | For any two vectors, the last new writer is never lost when it has to be bound. |
| BindingSets.StaleEntryExample | src/d3d11/d3d11-resource-bindings.cpp:200-206 | A texture visible to vertex and compute stays bound after its set was replaced by one for the pixel stage. |
| BindingSets.LostSlotExample | src/d3d11/d3d11-resource-bindings.cpp:241-313 | Two sets share a slot and one is dropped: the slot of the other is empty. |
| BindingCommands.CreateBindingSet | src/d3d11/d3d11-resource-bindings.cpp:46-176 | Slots hold the last item that names them, each hull is the least range with every used slot, and unsupported items are counted as errors. |
| BindingCommands.SupersetCoversUses | src/d3d11/d3d11-resource-bindings.cpp:200-206 | A superset of hulls contains every slot that the other set's description uses. |
| BindingCommands.CancelShared | src/d3d11/d3d11-resource-bindings.cpp:241-253 | The nested loops compute the one-to-one cancellation. |
| BindingCommands.SkipOverwritten | src/d3d11/d3d11-resource-bindings.cpp:434-447 | The nested loops drop exactly the sets some other set overwrites, UAV users excepted on compute. |
| BindingCommands.ImmediateContext.PrepareToBindGraphicsResourceSets | src/d3d11/d3d11-resource-bindings.cpp:215-316 | The sets left to bind are those of the difference, and every table entry is what unbinding the rest leaves. |
| BindingCommands.ImmediateContext.BindGraphicsResourceSets | src/d3d11/d3d11-resource-bindings.cpp:319-403 | Every table entry is what binding the sets in order leaves; the last set has its entries in every stage of its visibility and the mask and every slot of its ranges. |
| BindingCommands.ImmediateContext.BindComputeResourceSets | src/d3d11/d3d11-resource-bindings.cpp:405-499 | Every table entry is what unbinding the difference and binding all sets leaves; the last set has all its entries, unordered accesses included. |
| Words.RoundUpIsLeast | src/d3d12/d3d12-descriptor-heap.cpp:70-83 | For words from 1 to 2^31 the result is the least power of two that is not below. |
| Words.RoundUpWraps | src/d3d12/d3d12-descriptor-heap.cpp:70-83 | All other words give 0. |
| Words.NextPowerOf2 | src/d3d12/d3d12-descriptor-heap.cpp:70-83 | The shift-and-or steps fill all bits below the top one, so they compute that result. |
| DescriptorRanges.GrownSizeIsEnough | src/d3d12/d3d12-descriptor-heap.cpp:85-103 | Growing fails exactly when a shader-visible heap would exceed its limit, and otherwise is enough exactly when the request can be rounded up. |
| DescriptorRanges.VisibleLimits | src/d3d12/d3d12-descriptor-heap.cpp:88-98 | Growth of shader-visible heaps fails above 1,000,000 views and 2,048 samplers. |
| DescriptorRanges.UnroundableExample | src/d3d12/d3d12-descriptor-heap.cpp:70-103 | A heap asked to hold one descriptor more than 2^31 gets none. |
| DescriptorRanges.FirstFitMeans | src/d3d12/d3d12-descriptor-heap.cpp:129-144 | The range found is the leftmost fit at or after the hint; none found means none fits. |
| DescriptorRanges.RunKeepsInvariant | src/d3d12/d3d12-descriptor-heap.cpp:121-196 | In every run of range allocations, releases and growth, live ranges are disjoint and in bounds, the bitmap is their union, the counter its population. |
| DescriptorRanges.AllocateKeepsTightIff | src/d3d12/d3d12-descriptor-heap.cpp:131-164 | A range allocation leaves nothing free below the hint exactly when it is refused, or the range is found where a single descriptor would be. |
| DescriptorRanges.ReleaseKeepsTight | src/d3d12/d3d12-descriptor-heap.cpp:173-196 | Releasing a range of any size leaves nothing free below the hint. |
| DescriptorRanges.ReleasedFitsAgain | src/d3d12/d3d12-descriptor-heap.cpp:173-196 | A released range can be had again at or before its base. |
| DescriptorRanges.RunKeepsTight | src/d3d12/d3d12-descriptor-heap.cpp:121-196 | As long as every range allocation is refused or finds its range where a single descriptor would be, no free descriptor is below the hint, whatever is released. |
| DescriptorRanges.SingleRunGrowsOnlyWhenFull | src/d3d12/d3d12-descriptor-heap.cpp:121-201 | In runs of single allocations and releases the heap grows only when every descriptor is in use. |
| DescriptorRanges.RangesHideFreeDescriptors | src/d3d12/d3d12-descriptor-heap.cpp:131-164 | With ranges it can grow while a descriptor is free. |
| DescriptorHeaps.FindFree | src/d3d12/d3d12-descriptor-heap.cpp:129-144 | The counting loop finds the leftmost fit. |
| DescriptorHeaps.StaticDescriptorHeap.Grow | src/d3d12/d3d12-descriptor-heap.cpp:85-119 | All old descriptors stay, the shader-visible heap equals the CPU heap on the old range, the bitmap is extended; a failure changes nothing. |
| DescriptorHeaps.StaticDescriptorHeap.AllocateDescriptors | src/d3d12/d3d12-descriptor-heap.cpp:121-166 | Refines the allocation of the runs, and keeps the contents of both heaps unless it grows. |
| DescriptorHeaps.StaticDescriptorHeap.AllocateDescriptor | src/d3d12/d3d12-descriptor-heap.cpp:168-171 | A range of one. |
| DescriptorHeaps.StaticDescriptorHeap.ReleaseDescriptors | src/d3d12/d3d12-descriptor-heap.cpp:173-196 | Refines the release of the runs and touches no heap. |
| DescriptorHeaps.StaticDescriptorHeap.ReleaseDescriptor | src/d3d12/d3d12-descriptor-heap.cpp:198-201 | A range of one. |
| DescriptorHeaps.StaticDescriptorHeap.AllocateResources | src/d3d12/d3d12-descriptor-heap.cpp:34-68 | Both heaps and the bitmap have one element per descriptor; what was allocated stays marked. |
| DescriptorHeaps.StaticDescriptorHeap.CopyToShaderVisibleHeap | src/d3d12/d3d12-descriptor-heap.cpp:234-237 | Exactly the given range of the shader-visible heap becomes that of the CPU heap. |
| BitSets.TakeNextIsExact | src/common/utils.cpp:390-418 | Allocation fails exactly when everything is taken, and otherwise takes one free index and changes nothing else. |
| BitSets.TakeNextIsFirst | src/common/utils.cpp:390-418 | The index handed out is the first free one of the ring. |
| BitSets.NextIndexIsNotLive | src/common/utils.cpp:390-432 | After any interleaving of allocations and releases, the next index is none that is live, and there is none exactly when all are. |
| BitSets.ReturnedIsNext | src/common/utils.cpp:420-432 | A returned index, or a free one before it, is handed out next. |
| BitSets.BitSetAllocator.Allocate | src/common/utils.cpp:390-418 | The ring scan refines the allocation of the runs; -1 is its failure. |
| BitSets.BitSetAllocator.Release | src/common/utils.cpp:420-432 | Indices out of range are ignored, others are freed and the scan starts no later than there. |

## Left out

- Graphics API objects, reference counting, HRESULT handling, logging text and debug names: foreign effects. Messages are kept as values; creating buffers, heaps and command lists succeeds.
- Format tables, enumeration conversions, views, samplers, shaders, pipelines, queries: table lookups.
- Metal and Vulkan back ends, ray tracing, cooperative vectors, tile mappings, staging textures.
- Threads and locks: a locked method is one atomic step.
- Sampler feedback textures in `commitBarriers`: only ordinary textures are translated.
- Textures tracked by hand, and buffers, in lists recorded at the same time: `InterleavedRuns` is about kept textures; `TextureRuns` and `BufferRuns` have the rest, one list after the other.
- Lists that are opened again without being executed are part of `InterleavedRuns` and `UploadRuns`, not of `TextureRuns` and `BufferRuns`.
- BarrierRuns.BufferRunCompiles: a buffer is used as an acceleration structure always or never, since the code never transitions it into or out of that use; and it starts in its initial state, where D3D12 creates it in Common and promotes it.
- Promotion and decay of D3D12 states, and the Vulkan-style sync semantics of enhanced barriers: the devices only check that each barrier names the state, or the use, that the one before it left.
- Records of textures and buffers are values in the tracker's maps; the source keeps them behind unique pointers that nothing else holds.
- Hash maps are walked in an arbitrary order that the methods return as a ghost result.
- Upload sizes are unbounded numbers: wrap-around of 64-bit sizes is not modelled, and alignment is rounding to a multiple, which the mask form is for powers of two.
- The memory accounted by the upload manager (`m_AllocatedMemory`) is read and never updated; elsewhere than in `UploadChunks.UnaccountedNeverReuses` it is an arbitrary parameter, so no bound on total memory is stated.
- UploadRuns.RunNeverShares: a scratch manager whose accounted memory is not zero reuses chunks in use by design, which `UploadChunks.ReuseIsSeparatedInEveryRun` covers; the code never makes it other than zero.
- UploadRuns.RunKeepsInvariant: fewer than 2^60 recordings and submissions, and lists are executed on their own queue.
- `executeCommandLists` as a method over several lists: batches are steps of `UploadRuns` and `RetirementRuns`, single lists are `CommandLists.CommandList.Executed`.
- CommandLists.CommandList.Executed: the resource states are submitted after the upload memory instead of before it, which no caller can observe; referenced staging objects and queries are left out.
- BindingCommands.CreateBindingSet: the view, buffer range or sampler of an item is given; the assertions that a slot is used once are not stated, since release builds go on.
- The D3D11.0 path that ignores constant buffer ranges, and the null UAV array, which is taken to be long enough.
- Graphics UAVs, and the callers that skip rebinding: the theorems are about the bind functions.
- DescriptorHeaps.StaticDescriptorHeap.AllocateDescriptors: a count above zero and sums below 2^32, and at most 2^31 descriptors when the heap is not shader visible.
- BitSets.BitSetAllocator.Allocate: capacities up to 2^30, so that the ring index does not overflow an int.
- EnhancedStates.ConvertForEnhancedBarriers: words with bits beyond the 26 flags, which no state has.
