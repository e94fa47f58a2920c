/** The tracked resources: the mutable extensions declared in src/common/state-tracking.h. */
module Resources {
  import opened ResourceStates
  import opened Subresources

  type PlaneCount = n: nat | 0 < n witness 1

  // TextureStateExtension, with the plane count of the D3D12 texture that extends it.
  class Texture {
    const desc: TextureDesc
    const planeCount: PlaneCount
    var permanentState: States
    var stateInitialized: bool

    constructor (desc: TextureDesc, planeCount: PlaneCount, stateInitialized: bool)
      ensures this.desc == desc && this.planeCount == planeCount
      ensures this.permanentState == UNKNOWN && this.stateInitialized == stateInitialized
    {
      this.desc, this.planeCount := desc, planeCount;
      this.permanentState, this.stateInitialized := UNKNOWN, stateInitialized;
    }
  }

  datatype CpuAccessMode = NoAccess | Read | Write

  datatype BufferDesc = BufferDesc(
    isVolatile: bool,
    cpuAccess: CpuAccessMode,
    initialState: States,
    keepInitialState: bool)

  // BufferStateExtension
  class Buffer {
    const desc: BufferDesc
    var permanentState: States

    constructor (desc: BufferDesc)
      ensures this.desc == desc && this.permanentState == UNKNOWN
    {
      this.desc, this.permanentState := desc, UNKNOWN;
    }
  }

  // Errors reported through the message callback.
  datatype Message =
    | UnknownTextureState(texture: Texture)
    | UnknownSubresourceState(texture: Texture, mipLevel: nat, arraySlice: nat)
    | PartialPermanentTransition(texture: Texture)
    | SwitchPermanentTexture(texture: Texture, state: States)
    | UnknownBufferState(buffer: Buffer)
    | SwitchPermanentBuffer(buffer: Buffer, state: States)
    | PermanentStateMismatch(isTexture: bool, permanentState: States, requiredState: States)

  // verifyPermanentResourceState
  function VerifyPermanent(isTexture: bool, permanentState: States, requiredState: States): seq<Message> {
    if requiredState <= permanentState then [] else [PermanentStateMismatch(isTexture, permanentState, requiredState)]
  }
}
