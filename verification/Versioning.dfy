/**
 Version words (src/common/versioning.h).

 A 64-bit word is modelled as a natural number: masking with the low 60 bits is the
 remainder modulo 2^60, shifting is multiplication or division by a power of two, and
 the `|` of words without common bits is their sum.
 */
module Versioning {

  const ID_RANGE: nat := 0x1000_0000_0000_0000              // c_VersionIDMask + 1, 2^60
  const SUBMITTED_FLAG: nat := 0x8000_0000_0000_0000        // c_VersionSubmittedFlag, 2^63

  type Version = nat

  datatype CommandQueue = Graphics | Compute | Copy {
    function Index(): nat {
      match this
      case Graphics => 0
      case Compute => 1
      case Copy => 2
    }
  }

  function MakeVersion(id: nat, queue: CommandQueue, submitted: bool): Version {
    id % ID_RANGE + queue.Index() * ID_RANGE + (if submitted then SUBMITTED_FLAG else 0)
  }

  function GetInstance(version: Version): nat {
    version % ID_RANGE
  }

  function GetQueueIndex(version: Version): nat {
    version / ID_RANGE % 8
  }

  predicate IsSubmitted(version: Version) {
    version / SUBMITTED_FLAG % 2 == 1
  }

  // The fields of a packed word are what was packed, the id exactly when it fits.
  lemma RoundTrip(id: nat, queue: CommandQueue, submitted: bool)
    ensures GetQueueIndex(MakeVersion(id, queue, submitted)) == queue.Index()
    ensures IsSubmitted(MakeVersion(id, queue, submitted)) <==> submitted
    ensures GetInstance(MakeVersion(id, queue, submitted)) == id <==> id < ID_RANGE
    ensures MakeVersion(id, queue, submitted) < 2 * SUBMITTED_FLAG
  {
  }

  // Words of different recordings differ, and no recording has the word 0, which marks
  // a chunk as available.
  lemma Distinguishes(id: nat, queue: CommandQueue, submitted: bool, id': nat, queue': CommandQueue, submitted': bool)
    requires id < ID_RANGE && id' < ID_RANGE
    ensures MakeVersion(id, queue, submitted) == MakeVersion(id', queue', submitted')
       <==> id == id' && queue == queue' && submitted == submitted'
    ensures 0 < id ==> MakeVersion(id, queue, submitted) != 0
  {
  }
}
