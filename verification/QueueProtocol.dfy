/**
 The counters of a command queue (src/d3d12/d3d12-backend.h, `Queue`) and the steps that
 change them. The fence value is the GPU's: it only grows, and never past the last
 signalled instance.
 */
module QueueProtocol {
  datatype QueueState = QueueState(
    lastSubmittedInstance: nat,
    lastCompletedInstance: nat,
    recordingInstance: nat,
    fence: nat)
  {
    predicate Valid() {
      lastCompletedInstance <= fence <= lastSubmittedInstance && 0 < recordingInstance
    }

    // Queue::updateLastCompletedInstance
    function Update(): QueueState {
      if lastCompletedInstance < lastSubmittedInstance then this.(lastCompletedInstance := fence) else this
    }

    // Completed work is noticed: afterwards the counter is the fence.
    lemma UpdateNotices()
      requires Valid()
      ensures Update().lastCompletedInstance == fence && Update().Valid()
      ensures Update() == this.(lastCompletedInstance := fence)
    {
    }

    // Queue::Signal
    function Signal(): QueueState {
      this.(lastSubmittedInstance := lastSubmittedInstance + 1)
    }

    // A recording takes the next recording instance.
    function BeginRecording(): QueueState {
      this.(recordingInstance := recordingInstance + 1)
    }
  }

  const NEW_QUEUE := QueueState(0, 0, 1, 0)
}
