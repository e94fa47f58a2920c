/**
 Translation of resource states to enhanced D3D12 barriers (src/d3d12/d3d12-constants.cpp,
 `g_ResourceStateMap` and `convertResourceStatesForEnhancedBarriers`). Masks are sets of
 flags, as in `ResourceStates`.
 */
module EnhancedStates {
  import opened ResourceStates

  datatype Sync =
    | SyncAll
    | SyncAllShading
    | SyncIndexInput
    | SyncExecuteIndirect
    | SyncPixelShading
    | SyncNonPixelShading
    | SyncRenderTarget
    | SyncDepthStencil
    | SyncVertexShading
    | SyncCopy
    | SyncResolve
    | SyncBuildAccelStruct
    | SyncConvertMatrix

  // D3D12_BARRIER_ACCESS_COMMON is zero, so it is no flag.
  datatype Access =
    | AccessConstantBuffer
    | AccessVertexBuffer
    | AccessIndexBuffer
    | AccessIndirectArgument
    | AccessShaderResource
    | AccessUnorderedAccess
    | AccessRenderTarget
    | AccessDepthWrite
    | AccessDepthRead
    | AccessStreamOutput
    | AccessCopyDest
    | AccessCopySource
    | AccessResolveDest
    | AccessResolveSource
    | AccessAccelStructRead
    | AccessAccelStructWrite
    | AccessShadingRateSource

  // D3D12_BARRIER_LAYOUT_COMMON and D3D12_BARRIER_LAYOUT_PRESENT are the same value.
  datatype Layout =
    | LayoutCommon
    | LayoutShaderResource
    | LayoutUnorderedAccess
    | LayoutRenderTarget
    | LayoutDepthWrite
    | LayoutDepthRead
    | LayoutCopyDest
    | LayoutCopySource
    | LayoutResolveDest
    | LayoutResolveSource
    | LayoutShadingRateSource

  datatype Mapping = Mapping(state: States, sync: set<Sync>, access: set<Access>, layout: Layout)

  // One entry of g_ResourceStateMap.
  function Entry(flag: Flag): (m: Mapping)
    ensures m.state == {flag}
  {
    match flag
    case Common => Mapping({flag}, {SyncAll}, {}, LayoutCommon)
    case ConstantBuffer => Mapping({flag}, {SyncAllShading}, {AccessConstantBuffer}, LayoutCommon)
    case VertexBuffer => Mapping({flag}, {SyncAllShading}, {AccessVertexBuffer}, LayoutCommon)
    case IndexBuffer => Mapping({flag}, {SyncIndexInput}, {AccessIndexBuffer}, LayoutCommon)
    case IndirectArgument => Mapping({flag}, {SyncExecuteIndirect}, {AccessIndirectArgument}, LayoutCommon)
    case PixelShaderResource => Mapping({flag}, {SyncPixelShading}, {AccessShaderResource}, LayoutShaderResource)
    case NonPixelShaderResource => Mapping({flag}, {SyncNonPixelShading}, {AccessShaderResource}, LayoutShaderResource)
    case UnorderedAccess => Mapping({flag}, {SyncAllShading}, {AccessUnorderedAccess}, LayoutUnorderedAccess)
    case RenderTarget => Mapping({flag}, {SyncRenderTarget}, {AccessRenderTarget}, LayoutRenderTarget)
    case DepthWrite => Mapping({flag}, {SyncDepthStencil}, {AccessDepthWrite}, LayoutDepthWrite)
    case DepthRead => Mapping({flag}, {SyncDepthStencil}, {AccessDepthRead}, LayoutDepthRead)
    case StreamOut => Mapping({flag}, {SyncVertexShading}, {AccessStreamOutput}, LayoutCommon)
    case CopyDest => Mapping({flag}, {SyncCopy}, {AccessCopyDest}, LayoutCopyDest)
    case CopySource => Mapping({flag}, {SyncCopy}, {AccessCopySource}, LayoutCopySource)
    case ResolveDest => Mapping({flag}, {SyncResolve}, {AccessResolveDest}, LayoutResolveDest)
    case ResolveSource => Mapping({flag}, {SyncResolve}, {AccessResolveSource}, LayoutResolveSource)
    case Present => Mapping({flag}, {SyncAll}, {AccessCopySource}, LayoutCommon)
    case AccelStructRead => Mapping({flag}, {SyncAllShading}, {AccessAccelStructRead}, LayoutCommon)
    case AccelStructWrite =>
      Mapping({flag}, {SyncBuildAccelStruct}, {AccessAccelStructRead, AccessAccelStructWrite}, LayoutCommon)
    case AccelStructBuildInput => Mapping({flag}, {SyncBuildAccelStruct}, {AccessShaderResource}, LayoutCommon)
    case AccelStructBuildBlas => Mapping({flag}, {SyncBuildAccelStruct}, {AccessAccelStructRead}, LayoutCommon)
    case ShadingRateSurface => Mapping({flag}, {SyncAllShading}, {AccessShadingRateSource}, LayoutShadingRateSource)
    case OpacityMicromapWrite => Mapping({flag}, {SyncBuildAccelStruct}, {AccessAccelStructWrite}, LayoutCommon)
    case OpacityMicromapBuildInput => Mapping({flag}, {SyncAllShading}, {AccessShaderResource}, LayoutShaderResource)
    case ConvertCoopVecMatrixInput => Mapping({flag}, {SyncConvertMatrix}, {AccessShaderResource}, LayoutShaderResource)
    case ConvertCoopVecMatrixOutput => Mapping({flag}, {SyncConvertMatrix}, {AccessUnorderedAccess}, LayoutUnorderedAccess)
  }

  const NUM_STATE_BITS := 26

  // The bit of a flag, which is also the index of its entry in the table.
  function BitIndex(flag: Flag): (i: nat)
    ensures i < NUM_STATE_BITS
  {
    match flag
    case Common => 0
    case ConstantBuffer => 1
    case VertexBuffer => 2
    case IndexBuffer => 3
    case IndirectArgument => 4
    case PixelShaderResource => 5
    case NonPixelShaderResource => 6
    case UnorderedAccess => 7
    case RenderTarget => 8
    case DepthWrite => 9
    case DepthRead => 10
    case StreamOut => 11
    case CopyDest => 12
    case CopySource => 13
    case ResolveDest => 14
    case ResolveSource => 15
    case Present => 16
    case AccelStructRead => 17
    case AccelStructWrite => 18
    case AccelStructBuildInput => 19
    case AccelStructBuildBlas => 20
    case ShadingRateSurface => 21
    case OpacityMicromapWrite => 22
    case OpacityMicromapBuildInput => 23
    case ConvertCoopVecMatrixInput => 24
    case ConvertCoopVecMatrixOutput => 25
  }

  // The flags in the order of their bits.
  const FLAGS: seq<Flag> := [
    Common, ConstantBuffer, VertexBuffer, IndexBuffer, IndirectArgument, PixelShaderResource,
    NonPixelShaderResource, UnorderedAccess, RenderTarget, DepthWrite, DepthRead, StreamOut, CopyDest,
    CopySource, ResolveDest, ResolveSource, Present, AccelStructRead, AccelStructWrite,
    AccelStructBuildInput, AccelStructBuildBlas, ShadingRateSurface, OpacityMicromapWrite,
    OpacityMicromapBuildInput, ConvertCoopVecMatrixInput, ConvertCoopVecMatrixOutput
  ]

  function FlagOf(bitIndex: nat): (flag: Flag)
    requires bitIndex < NUM_STATE_BITS
    ensures BitIndex(flag) == bitIndex
  {
    FLAGS[bitIndex]
  }

  // ---------- What the translation means ----------

  function AllSync(states: States): set<Sync> {
    set flag, sync | flag in states && sync in Entry(flag).sync :: sync
  }

  function AllAccess(states: States): set<Access> {
    set flag, access | flag in states && access in Entry(flag).access :: access
  }

  // The layout of the lowest flag that has one of its own.
  ghost predicate IsLowestLayout(states: States, layout: Layout) {
    if layout == LayoutCommon then forall flag :: flag in states ==> Entry(flag).layout == LayoutCommon
    else exists flag :: flag in states && Entry(flag).layout == layout && LowestOwn(states, flag)
  }

  ghost predicate LowestOwn(states: States, flag: Flag) {
    forall lower :: lower in states && BitIndex(lower) < BitIndex(flag) ==> Entry(lower).layout == LayoutCommon
  }

  // Flags above one that has a layout of its own have the same layout.
  predicate LayoutsAgree(states: States) {
    forall f, g :: f in states && g in states && BitIndex(f) < BitIndex(g) && Entry(f).layout != LayoutCommon ==>
      Entry(g).layout == Entry(f).layout
  }

  ghost predicate IsTranslation(states: States, isTexture: bool, m: Mapping, agreed: bool) {
    && m.state == states && m.sync == AllSync(states) && m.access == AllAccess(states)
    && (if isTexture then IsLowestLayout(states, m.layout) && (agreed <==> LayoutsAgree(states))
        else m.layout == LayoutCommon && agreed)
  }

  ghost predicate AllBelow(states: States, bitIndex: nat) {
    forall flag :: flag in states ==> BitIndex(flag) < bitIndex
  }

  lemma UnionsOneMore(states: States, flag: Flag)
    ensures AllSync(states + {flag}) == AllSync(states) + Entry(flag).sync
    ensures AllAccess(states + {flag}) == AllAccess(states) + Entry(flag).access
  {
  }

  lemma LowestOneMore(states: States, flag: Flag, layout: Layout)
    requires AllBelow(states, BitIndex(flag)) && IsLowestLayout(states, layout)
    ensures IsLowestLayout(states + {flag}, if layout == LayoutCommon then Entry(flag).layout else layout)
  {
  }

  // A texture sampled and depth-tested at once: the two layouts conflict.
  lemma ConflictExample()
    ensures !LayoutsAgree({PixelShaderResource, DepthRead})
  {
    var states := {PixelShaderResource, DepthRead};
    assert PixelShaderResource in states && DepthRead in states;
  }

  // The layout of a mask, as far as its bits below `bitIndex` determine it.
  function LayoutBelow(states: States, bitIndex: nat): Layout
    requires bitIndex <= NUM_STATE_BITS
  {
    if bitIndex == 0 then LayoutCommon
    else
      var layout := LayoutBelow(states, bitIndex - 1);
      if layout == LayoutCommon && FlagOf(bitIndex - 1) in states then Entry(FlagOf(bitIndex - 1)).layout else layout
  }

  function LayoutOf(states: States): Layout {
    LayoutBelow(states, NUM_STATE_BITS)
  }

  function Below(states: States, bitIndex: nat): (r: States)
    ensures AllBelow(r, bitIndex)
  {
    set flag | flag in states && BitIndex(flag) < bitIndex
  }

  lemma {:induction false} LayoutBelowIsLowest(states: States, bitIndex: nat)
    requires bitIndex <= NUM_STATE_BITS
    ensures IsLowestLayout(Below(states, bitIndex), LayoutBelow(states, bitIndex))
  {
    if bitIndex != 0 {
      LayoutBelowIsLowest(states, bitIndex - 1);
      var flag := FlagOf(bitIndex - 1);
      BelowOneMore(states, flag);
      if flag in states {
        LowestOneMore(Below(states, bitIndex - 1), flag, LayoutBelow(states, bitIndex - 1));
      }
    }
  }

  lemma BelowOneMore(states: States, flag: Flag)
    ensures Below(states, BitIndex(flag) + 1) == Below(states, BitIndex(flag)) + (if flag in states then {flag} else {})
  {
  }

  // The translated layout is the layout of the lowest flag that has one, and no other.
  lemma LowestLayoutIff(states: States, layout: Layout)
    ensures IsLowestLayout(states, layout) <==> layout == LayoutOf(states)
  {
    LayoutBelowIsLowest(states, NUM_STATE_BITS);
    assert Below(states, NUM_STATE_BITS) == states;
    if IsLowestLayout(states, layout) {
      LowestUnique(states, layout, LayoutOf(states));
    }
  }

  lemma LowestUnique(states: States, a: Layout, b: Layout)
    requires IsLowestLayout(states, a) && IsLowestLayout(states, b)
    ensures a == b
  {
    if a != LayoutCommon && b != LayoutCommon {
      var f :| f in states && Entry(f).layout == a && LowestOwn(states, f);
      var g :| g in states && Entry(g).layout == b && LowestOwn(states, g);
      if BitIndex(f) == BitIndex(g) {
        SameBit(f, g);
      }
    }
  }

  lemma AgreeWithMore(states: States, flag: Flag, layout: Layout)
    requires AllBelow(states, BitIndex(flag)) && IsLowestLayout(states, layout)
    requires LayoutsAgree(states) && (layout == LayoutCommon || layout == Entry(flag).layout)
    ensures LayoutsAgree(states + {flag})
  {
    var more := states + {flag};
    forall f, g | f in more && g in more && BitIndex(f) < BitIndex(g) && Entry(f).layout != LayoutCommon
      ensures Entry(g).layout == Entry(f).layout
    {
      if g in states {
        assert f in states;
      } else {
        OwnLayoutIs(states, layout, f);
      }
    }
  }

  lemma OwnLayoutIs(states: States, layout: Layout, f: Flag)
    requires IsLowestLayout(states, layout) && LayoutsAgree(states)
    requires f in states && Entry(f).layout != LayoutCommon
    ensures Entry(f).layout == layout
  {
    if layout != LayoutCommon {
      var low :| low in states && Entry(low).layout == layout && LowestOwn(states, low);
      OwnLayoutsAre(states, low, f);
    }
  }

  lemma AgreeWithLess(states: States, flag: Flag, layout: Layout)
    requires AllBelow(states, BitIndex(flag)) && IsLowestLayout(states, layout)
    requires LayoutsAgree(states + {flag})
    ensures LayoutsAgree(states) && (layout == LayoutCommon || layout == Entry(flag).layout)
  {
  }

  lemma AgreeOneMore(states: States, flag: Flag, layout: Layout)
    requires AllBelow(states, BitIndex(flag)) && IsLowestLayout(states, layout)
    ensures LayoutsAgree(states + {flag})
            <==> LayoutsAgree(states) && (layout == LayoutCommon || layout == Entry(flag).layout)
  {
    if LayoutsAgree(states) && (layout == LayoutCommon || layout == Entry(flag).layout) {
      AgreeWithMore(states, flag, layout);
    }
    if LayoutsAgree(states + {flag}) {
      AgreeWithLess(states, flag, layout);
    }
  }

  lemma OwnLayoutsAre(states: States, low: Flag, f: Flag)
    requires low in states && f in states && LowestOwn(states, low) && LayoutsAgree(states)
    requires Entry(low).layout != LayoutCommon && Entry(f).layout != LayoutCommon
    ensures Entry(f).layout == Entry(low).layout
  {
    if BitIndex(f) == BitIndex(low) {
      SameBit(f, low);
    }
  }

  lemma SameBit(f: Flag, g: Flag)
    requires BitIndex(f) == BitIndex(g)
    ensures f == g
  {
  }

  // convertResourceStatesForEnhancedBarriers. `agreed` says that no layout assertion
  // failed; the last assertion of the source is the first part of the translation.
  method ConvertForEnhancedBarriers(states: States, isTexture: bool) returns (result: Mapping, agreed: bool)
    ensures IsTranslation(states, isTexture, result, agreed)
  {
    result, agreed := Mapping({}, {}, {}, LayoutCommon), true;
    var stateTmp := states;
    var bitIndex := 0;
    while stateTmp != {} && bitIndex < NUM_STATE_BITS
      invariant bitIndex <= NUM_STATE_BITS && stateTmp <= states
      invariant AllBelow(states - stateTmp, bitIndex)
      invariant forall flag :: flag in stateTmp ==> bitIndex <= BitIndex(flag)
      invariant IsTranslation(states - stateTmp, isTexture, result, agreed)
    {
      var bit := FlagOf(bitIndex);
      if bit in stateTmp {
        var mapping := Entry(bit);
        ghost var seen := states - stateTmp;
        UnionsOneMore(seen, bit);
        if isTexture {
          LowestOneMore(seen, bit, result.layout);
          AgreeOneMore(seen, bit, result.layout);
        }
        result := result.(state := result.state + mapping.state, sync := result.sync + mapping.sync,
                          access := result.access + mapping.access);
        if isTexture {
          if result.layout == LayoutCommon {
            result := result.(layout := mapping.layout);
          } else if result.layout != mapping.layout {
            agreed := false;
          }
        }
        stateTmp := stateTmp - {bit};
        assert states - stateTmp == seen + {bit};
      }
      forall flag | flag in stateTmp ensures bitIndex + 1 <= BitIndex(flag) {
        if BitIndex(flag) == bitIndex {
          SameBit(flag, bit);
        }
      }
      bitIndex := bitIndex + 1;
    }
    assert states - stateTmp == states;
  }

  // ---------- The two translations ----------

  // The legacy state that stands for an access.
  function Legacy(access: Access): D3DFlag {
    match access
    case AccessConstantBuffer => D3DVertexAndConstantBuffer
    case AccessVertexBuffer => D3DVertexAndConstantBuffer
    case AccessIndexBuffer => D3DIndexBuffer
    case AccessIndirectArgument => D3DIndirectArgument
    case AccessShaderResource => D3DNonPixelShaderResource
    case AccessUnorderedAccess => D3DUnorderedAccess
    case AccessRenderTarget => D3DRenderTarget
    case AccessDepthWrite => D3DDepthWrite
    case AccessDepthRead => D3DDepthRead
    case AccessStreamOutput => D3DStreamOut
    case AccessCopyDest => D3DCopyDest
    case AccessCopySource => D3DCopySource
    case AccessResolveDest => D3DResolveDest
    case AccessResolveSource => D3DResolveSource
    case AccessAccelStructRead => D3DRaytracingAccelerationStructure
    case AccessAccelStructWrite => D3DRaytracingAccelerationStructure
    case AccessShadingRateSource => D3DShadingRateSource
  }

  predicate SameLegacy(access: Access, image: D3DFlag) {
    Legacy(access) == image || (access == AccessShaderResource && image == D3DPixelShaderResource)
  }

  // The access by which a flag's entry names a legacy state.
  function AccessFor(flag: Flag, image: D3DFlag): (access: Access)
    ensures SameLegacy(access, image)
  {
    match image
    case D3DVertexAndConstantBuffer => if flag == ConstantBuffer then AccessConstantBuffer else AccessVertexBuffer
    case D3DIndexBuffer => AccessIndexBuffer
    case D3DRenderTarget => AccessRenderTarget
    case D3DUnorderedAccess => AccessUnorderedAccess
    case D3DDepthWrite => AccessDepthWrite
    case D3DDepthRead => AccessDepthRead
    case D3DNonPixelShaderResource => AccessShaderResource
    case D3DPixelShaderResource => AccessShaderResource
    case D3DStreamOut => AccessStreamOutput
    case D3DIndirectArgument => AccessIndirectArgument
    case D3DCopyDest => AccessCopyDest
    case D3DCopySource => AccessCopySource
    case D3DResolveDest => AccessResolveDest
    case D3DResolveSource => AccessResolveSource
    case D3DRaytracingAccelerationStructure =>
      if flag == OpacityMicromapWrite then AccessAccelStructWrite else AccessAccelStructRead
    case D3DShadingRateSource => AccessShadingRateSource
  }

  // Flag by flag, both translations name the same uses.
  lemma ImageHasAccess(flag: Flag, image: D3DFlag)
    requires image in FlagImage(flag)
    ensures AccessFor(flag, image) in Entry(flag).access
  {
    match flag
    case AccelStructWrite =>
    case _ =>
  }

  // Only Present has an access (copy source) and no legacy state.
  lemma AccessHasImage(flag: Flag, access: Access)
    requires access in Entry(flag).access && flag != Present
    ensures exists image :: image in FlagImage(flag) && SameLegacy(access, image)
  {
    if flag == PixelShaderResource {
      assert D3DPixelShaderResource in FlagImage(flag) && SameLegacy(access, D3DPixelShaderResource);
    } else {
      assert Legacy(access) in FlagImage(flag) && SameLegacy(access, Legacy(access));
    }
  }

  // The layout that textures need for an access; Common stands for none.
  function LayoutFor(access: Access): Layout {
    match access
    case AccessShaderResource => LayoutShaderResource
    case AccessUnorderedAccess => LayoutUnorderedAccess
    case AccessRenderTarget => LayoutRenderTarget
    case AccessDepthWrite => LayoutDepthWrite
    case AccessDepthRead => LayoutDepthRead
    case AccessCopyDest => LayoutCopyDest
    case AccessCopySource => LayoutCopySource
    case AccessResolveDest => LayoutResolveDest
    case AccessResolveSource => LayoutResolveSource
    case AccessShadingRateSource => LayoutShadingRateSource
    case _ => LayoutCommon
  }

  // The accesses that a part of the pipeline performs.
  predicate Performs(sync: Sync, access: Access) {
    match sync
    case SyncAll => true
    case SyncAllShading =>
      access in {AccessConstantBuffer, AccessVertexBuffer, AccessShaderResource, AccessUnorderedAccess, AccessAccelStructRead,
                 AccessShadingRateSource}
    case SyncIndexInput => access == AccessIndexBuffer
    case SyncExecuteIndirect => access == AccessIndirectArgument
    case SyncPixelShading => access == AccessShaderResource
    case SyncNonPixelShading => access == AccessShaderResource
    case SyncRenderTarget => access == AccessRenderTarget
    case SyncDepthStencil => access == AccessDepthWrite || access == AccessDepthRead
    case SyncVertexShading => access == AccessStreamOutput
    case SyncCopy => access == AccessCopyDest || access == AccessCopySource
    case SyncResolve => access == AccessResolveDest || access == AccessResolveSource
    case SyncBuildAccelStruct => access in {AccessShaderResource, AccessAccelStructRead, AccessAccelStructWrite}
    case SyncConvertMatrix => access == AccessShaderResource || access == AccessUnorderedAccess
  }

  // Flag by flag, the layout is the one that each of the entry's accesses needs, presenting
  // and building acceleration structures excepted, which have none.
  lemma LayoutAdmitsAccess(flag: Flag, access: Access)
    requires access in Entry(flag).access
    ensures Entry(flag).layout == if flag == Present || flag == AccelStructBuildInput then LayoutCommon else LayoutFor(access)
  {
  }

  // Flag by flag, the entry waits for a part of the pipeline that performs its accesses, and
  // for pixel shading or shading before it exactly as the legacy states tell them apart.
  lemma SyncPerformsAccess(flag: Flag)
    ensures Entry(flag).sync != {}
    ensures forall sync, access :: sync in Entry(flag).sync && access in Entry(flag).access ==> Performs(sync, access)
    ensures SyncPixelShading in Entry(flag).sync <==> D3DPixelShaderResource in FlagImage(flag)
    ensures SyncNonPixelShading in Entry(flag).sync ==> D3DNonPixelShaderResource in FlagImage(flag)
  {
  }

  // Every mask is given the same uses by the legacy and the enhanced translation.
  lemma LegacyAndEnhancedAgree(states: States)
    ensures forall image :: image in Convert(states) ==> exists access :: access in AllAccess(states) && SameLegacy(access, image)
    ensures forall access :: access in AllAccess(states) && !(access == AccessCopySource && Present in states) ==>
              exists image :: image in Convert(states) && SameLegacy(access, image)
  {
    forall image | image in Convert(states)
      ensures exists access :: access in AllAccess(states) && SameLegacy(access, image)
    {
      ConvertMember(states, image);
      var flag :| flag in states && image in FlagImage(flag);
      ImageHasAccess(flag, image);
      assert AccessFor(flag, image) in AllAccess(states);
    }
    forall access | access in AllAccess(states) && !(access == AccessCopySource && Present in states)
      ensures exists image :: image in Convert(states) && SameLegacy(access, image)
    {
      var flag :| flag in states && access in Entry(flag).access;
      AccessHasImage(flag, access);
      var image :| image in FlagImage(flag) && SameLegacy(access, image);
      ConvertMember(states, image);
    }
  }
}
