/**
 Resource states (include/nvrhi/nvrhi.h, `ResourceStates`) and their translation to
 legacy D3D12 states (src/d3d12/d3d12-constants.cpp, `convertResourceStates`).

 Both enumerations are bit masks. A mask is modelled as the set of its flags: `|` is
 union, `(mask & flag) != 0` is membership and a mask of zero is the empty set.
 */
module ResourceStates {

  datatype Flag =
    | Common
    | ConstantBuffer
    | VertexBuffer
    | IndexBuffer
    | IndirectArgument
    | PixelShaderResource
    | NonPixelShaderResource
    | UnorderedAccess
    | RenderTarget
    | DepthWrite
    | DepthRead
    | StreamOut
    | CopyDest
    | CopySource
    | ResolveDest
    | ResolveSource
    | Present
    | AccelStructRead
    | AccelStructWrite
    | AccelStructBuildInput
    | AccelStructBuildBlas
    | ShadingRateSurface
    | OpacityMicromapWrite
    | OpacityMicromapBuildInput
    | ConvertCoopVecMatrixInput
    | ConvertCoopVecMatrixOutput

  type States = set<Flag>

  const UNKNOWN: States := {}
  const COMMON: States := {Common}

  datatype D3DFlag =
    | D3DVertexAndConstantBuffer
    | D3DIndexBuffer
    | D3DRenderTarget
    | D3DUnorderedAccess
    | D3DDepthWrite
    | D3DDepthRead
    | D3DNonPixelShaderResource
    | D3DPixelShaderResource
    | D3DStreamOut
    | D3DIndirectArgument
    | D3DCopyDest
    | D3DCopySource
    | D3DResolveDest
    | D3DResolveSource
    | D3DRaytracingAccelerationStructure
    | D3DShadingRateSource

  type D3DStates = set<D3DFlag>

  // D3D12_RESOURCE_STATE_COMMON and D3D12_RESOURCE_STATE_PRESENT are both zero.
  const D3D_COMMON: D3DStates := {}
  const D3D_PRESENT: D3DStates := {}

  predicate HasUav(states: States) {
    UnorderedAccess in states
  }

  // The D3D12 flags that one requested flag contributes: one test of convertResourceStates.
  function FlagImage(flag: Flag): D3DStates {
    match flag
    case Common => D3D_COMMON
    case ConstantBuffer => {D3DVertexAndConstantBuffer}
    case VertexBuffer => {D3DVertexAndConstantBuffer}
    case IndexBuffer => {D3DIndexBuffer}
    case IndirectArgument => {D3DIndirectArgument}
    case PixelShaderResource => {D3DPixelShaderResource}
    case NonPixelShaderResource => {D3DNonPixelShaderResource}
    case UnorderedAccess => {D3DUnorderedAccess}
    case RenderTarget => {D3DRenderTarget}
    case DepthWrite => {D3DDepthWrite}
    case DepthRead => {D3DDepthRead}
    case StreamOut => {D3DStreamOut}
    case CopyDest => {D3DCopyDest}
    case CopySource => {D3DCopySource}
    case ResolveDest => {D3DResolveDest}
    case ResolveSource => {D3DResolveSource}
    case Present => D3D_PRESENT
    case AccelStructRead => {D3DRaytracingAccelerationStructure}
    case AccelStructWrite => {D3DRaytracingAccelerationStructure}
    case AccelStructBuildInput => {D3DNonPixelShaderResource}
    case AccelStructBuildBlas => {D3DRaytracingAccelerationStructure}
    case ShadingRateSurface => {D3DShadingRateSource}
    case OpacityMicromapWrite => {D3DRaytracingAccelerationStructure}
    case OpacityMicromapBuildInput => {D3DNonPixelShaderResource}
    case ConvertCoopVecMatrixInput => {D3DNonPixelShaderResource}
    case ConvertCoopVecMatrixOutput => {D3DUnorderedAccess}
  }

  // convertResourceStates
  function Convert(states: States): D3DStates {
    if states == COMMON then D3D_COMMON
    else set flag, image | flag in states && image in FlagImage(flag) :: image
  }

  // Membership, early exit included: an image comes from some requested flag.
  lemma ConvertMember(states: States, image: D3DFlag)
    ensures image in Convert(states) <==> exists flag :: flag in states && image in FlagImage(flag)
  {
  }

  // The translation distributes over union, so merging two requests merges their
  // D3D12 states. The early exit for Common does not disturb this.
  lemma ConvertOfUnion(a: States, b: States)
    ensures Convert(a + b) == Convert(a) + Convert(b)
  {
  }

  // A request for unordered access is one for D3D12 unordered access.
  lemma ConvertKeepsUav(states: States)
    ensures HasUav(states) ==> D3DUnorderedAccess in Convert(states)
  {
    if HasUav(states) {
      assert D3DUnorderedAccess in FlagImage(UnorderedAccess);
      ConvertMember(states, D3DUnorderedAccess);
    }
  }

  // The states whose buffers are kept out of D3D12 transitions.
  predicate IsAccelStruct(states: States) {
    D3DRaytracingAccelerationStructure in Convert(states)
  }

}
