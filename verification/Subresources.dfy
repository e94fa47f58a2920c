/**
 Texture subresource ranges: `TextureSubresourceSet::resolve` and `isEntireTexture`
 (src/common/misc.cpp), the tracker's `calcSubresource` (src/common/state-tracking.cpp)
 and the order in which the tracker's loops visit a resolved range.
 */
module Subresources {
  import opened Arithmetic
  import opened ResourceStates

  const UINT32_RANGE := 0x1_0000_0000

  type uint32 = x: int | 0 <= x < UINT32_RANGE

  // Unsigned 32-bit arithmetic, and conversions between `int` and `uint32_t`.
  function Wrap(x: int): uint32 {
    x % UINT32_RANGE
  }

  function Min(a: int, b: int): int {
    if a < b then a else b
  }

  datatype TextureDimension =
    | Unknown
    | Texture1D
    | Texture1DArray
    | Texture2D
    | Texture2DArray
    | TextureCube
    | TextureCubeArray
    | Texture2DMS
    | Texture2DMSArray
    | Texture3D
  {
    predicate IsArray() {
      Texture1DArray? || Texture2DArray? || TextureCube? || TextureCubeArray? || Texture2DMSArray?
    }
  }

  datatype TextureDescFields = TextureDesc(
    mipLevels: uint32,
    arraySize: uint32,
    dimension: TextureDimension,
    initialState: States,
    keepInitialState: bool)
  {
    // What a created texture satisfies: it is not empty, only array dimensions have
    // several slices, and its subresources can be numbered in 32 bits.
    predicate Valid() {
      && 0 < mipLevels
      && 0 < arraySize
      && (dimension.IsArray() || arraySize == 1)
      && mipLevels * arraySize < UINT32_RANGE
    }

    function NumSubresources(): nat {
      mipLevels * arraySize
    }
  }

  type TextureDesc = d: TextureDescFields | d.Valid()
    witness TextureDesc(1, 1, Texture2D, UNKNOWN, false)

  // calcSubresource
  function CalcSubresource(mipLevel: nat, arraySlice: nat, desc: TextureDesc): nat {
    mipLevel + arraySlice * desc.mipLevels
  }

  datatype TextureSubresourceSet = TextureSubresourceSet(
    baseMipLevel: uint32,
    numMipLevels: uint32,
    baseArraySlice: uint32,
    numArraySlices: uint32)
  {
    function Resolve(desc: TextureDesc, singleMipLevel: bool): TextureSubresourceSet {
      var mips := if singleMipLevel then 1 else ResolvedCount(baseMipLevel, numMipLevels, desc.mipLevels);
      if desc.dimension.IsArray() then
        TextureSubresourceSet(baseMipLevel, mips,
                              baseArraySlice, ResolvedCount(baseArraySlice, numArraySlices, desc.arraySize))
      else
        TextureSubresourceSet(baseMipLevel, mips, 0, 1)
    }

    predicate IsEntireTexture(desc: TextureDesc) {
      && baseMipLevel == 0
      && desc.mipLevels <= Wrap(baseMipLevel + numMipLevels)
      && (desc.dimension.IsArray() ==>
            baseArraySlice == 0 && desc.arraySize <= Wrap(baseArraySlice + numArraySlices))
    }

    // The bounds of the loops over a resolved range.
    function Bounds(): Box {
      Box(baseMipLevel, Wrap(baseMipLevel + numMipLevels), baseArraySlice, Wrap(baseArraySlice + numArraySlices))
    }
  }

  // Mip levels [firstMip, endMip) of array slices [firstSlice, endSlice).
  datatype Box = Box(firstMip: nat, endMip: nat, firstSlice: nat, endSlice: nat) {
    predicate Contains(cell: Cell) {
      firstMip <= cell.mipLevel < endMip && firstSlice <= cell.arraySlice < endSlice
    }
  }

  const ALL_SUBRESOURCES := TextureSubresourceSet(0, 0xFFFF_FFFF, 0, 0xFFFF_FFFF)

  // `max(0u, int(min(base + num, limit)) - base)`: the subtraction is unsigned, so the
  // maximum never clamps.
  function ResolvedCount(base: uint32, num: uint32, limit: uint32): uint32 {
    Wrap(Min(Wrap(base + num), limit) - base)
  }

  // One subresource, and one iteration of the tracker's nested loops.
  datatype Cell = Cell(arraySlice: nat, mipLevel: nat) {
    function Index(desc: TextureDesc): nat {
      CalcSubresource(mipLevel, arraySlice, desc)
    }
  }

  // The subresource numbered i in a texture with mipLevels levels.
  function CellAt(mipLevels: nat, i: nat): (cell: Cell)
    requires 0 < mipLevels
    ensures cell.mipLevel < mipLevels
  {
    if i < mipLevels then Cell(0, i)
    else
      var below := CellAt(mipLevels, i - mipLevels);
      Cell(below.arraySlice + 1, below.mipLevel)
  }

  // What the loops visit when `subresources` is asked for.
  function BoundsOf(desc: TextureDesc, subresources: TextureSubresourceSet): Box {
    subresources.Resolve(desc, false).Bounds()
  }

  // The subresource numbered i is in the range `subresources` asks for.
  predicate Covers(desc: TextureDesc, subresources: TextureSubresourceSet, i: nat) {
    BoundsOf(desc, subresources).Contains(CellAt(desc.mipLevels, i))
  }

  // [low, high) and [low, high') have the same elements.
  predicate SameInterval(low: int, high: int, high': int) {
    high == high' || (high <= low && high' <= low)
  }

  // The loop bound that resolving leaves is the clamped, wrapped end of the request.
  lemma ResolvedEnd(base: uint32, num: uint32, limit: uint32)
    ensures Wrap(base + ResolvedCount(base, num, limit)) == Min(Wrap(base + num), limit)
  {
  }

  lemma ResolvedCountIdempotent(base: uint32, num: uint32, limit: uint32)
    ensures ResolvedCount(base, ResolvedCount(base, num, limit), limit) == ResolvedCount(base, num, limit)
  {
    ResolvedEnd(base, num, limit);
  }

  // Resolving a resolved range changes nothing.
  lemma ResolveIdempotent(desc: TextureDesc, subresources: TextureSubresourceSet, singleMipLevel: bool)
    ensures subresources.Resolve(desc, singleMipLevel).Resolve(desc, singleMipLevel) == subresources.Resolve(desc, singleMipLevel)
  {
    ResolvedCountIdempotent(subresources.baseMipLevel, subresources.numMipLevels, desc.mipLevels);
    ResolvedCountIdempotent(subresources.baseArraySlice, subresources.numArraySlices, desc.arraySize);
  }

  // Resolving is the intended clamp of [base, base + num) to [0, limit) exactly when
  // the end does not wrap or the request starts past the limit. Otherwise, as with the
  // "all" sentinel at a base above zero, the loops visit nothing.
  lemma ResolveClampsIff(base: uint32, num: uint32, limit: uint32)
    ensures SameInterval(base, Wrap(base + ResolvedCount(base, num, limit)), Min(base + num, limit))
       <==> base + num < UINT32_RANGE || limit <= base
  {
    ResolvedEnd(base, num, limit);
  }

  // All mip levels below the top one, of a texture that has several: subresource 1 is such
  // a level, but with the "all" sentinel the range covers nothing.
  lemma SentinelExample(desc: TextureDesc)
    requires 1 < desc.mipLevels
    ensures CellAt(desc.mipLevels, 1) == Cell(0, 1)
    ensures forall i :: 0 <= i < desc.NumSubresources() ==> !Covers(desc, TextureSubresourceSet(1, 0xFFFF_FFFF, 0, 0xFFFF_FFFF), i)
  {
    ResolvedEnd(1, 0xFFFF_FFFF, desc.mipLevels);
    assert BoundsOf(desc, TextureSubresourceSet(1, 0xFFFF_FFFF, 0, 0xFFFF_FFFF)).endMip == 0;
  }

  lemma {:induction false} CellAtOfIndex(mipLevels: nat, mipLevel: nat, arraySlice: nat)
    requires mipLevel < mipLevels
    ensures CellAt(mipLevels, mipLevel + arraySlice * mipLevels) == Cell(arraySlice, mipLevel)
  {
    if 0 < arraySlice {
      CellAtOfIndex(mipLevels, mipLevel, arraySlice - 1);
      assert mipLevel + arraySlice * mipLevels == mipLevel + (arraySlice - 1) * mipLevels + mipLevels;
    }
  }

  lemma {:induction false} IndexOfCellAt(mipLevels: nat, i: nat)
    requires 0 < mipLevels
    ensures CellAt(mipLevels, i).mipLevel + CellAt(mipLevels, i).arraySlice * mipLevels == i
  {
    if mipLevels <= i {
      IndexOfCellAt(mipLevels, i - mipLevels);
    }
  }

  lemma IndexBelow(mipLevel: nat, mipLevels: nat, arraySlice: nat, arraySize: nat)
    requires mipLevel < mipLevels && arraySlice < arraySize
    ensures mipLevel + arraySlice * mipLevels < mipLevels * arraySize
  {
    ProductMonotone(arraySlice + 1, arraySize, mipLevels);
    assert (arraySlice + 1) * mipLevels == arraySlice * mipLevels + mipLevels;
  }

  // calcSubresource numbers the subresources of a texture one to one: it maps them into
  // the range of indices ...
  lemma IndexInRange(desc: TextureDesc, cell: Cell)
    requires cell.mipLevel < desc.mipLevels && cell.arraySlice < desc.arraySize
    ensures cell.Index(desc) < desc.NumSubresources()
    ensures CellAt(desc.mipLevels, cell.Index(desc)) == cell
  {
    CellAtOfIndex(desc.mipLevels, cell.mipLevel, cell.arraySlice);
    IndexBelow(cell.mipLevel, desc.mipLevels, cell.arraySlice, desc.arraySize);
  }

  // ... and reaches each of them.
  lemma IndexOnto(desc: TextureDesc, i: nat)
    requires i < desc.NumSubresources()
    ensures CellAt(desc.mipLevels, i).mipLevel < desc.mipLevels
    ensures CellAt(desc.mipLevels, i).arraySlice < desc.arraySize
    ensures CellAt(desc.mipLevels, i).Index(desc) == i
  {
  }

  lemma EndMipIs(desc: TextureDesc, s: TextureSubresourceSet)
    ensures BoundsOf(desc, s).endMip == Min(Wrap(s.baseMipLevel + s.numMipLevels), desc.mipLevels)
  {
    ResolvedEnd(s.baseMipLevel, s.numMipLevels, desc.mipLevels);
  }

  lemma EndSliceIs(desc: TextureDesc, s: TextureSubresourceSet)
    ensures BoundsOf(desc, s).endSlice
            == if desc.dimension.IsArray() then Min(Wrap(s.baseArraySlice + s.numArraySlices), desc.arraySize) else 1
  {
    ResolvedEnd(s.baseArraySlice, s.numArraySlices, desc.arraySize);
  }

  // Resolving keeps where the range starts; only array textures have other slices than 0.
  lemma ResolveKeepsStart(desc: TextureDesc, s: TextureSubresourceSet, singleMipLevel: bool)
    ensures var r := s.Resolve(desc, singleMipLevel);
            && r.baseMipLevel == s.baseMipLevel && (singleMipLevel ==> r.numMipLevels == 1)
            && r.baseArraySlice == (if desc.dimension.IsArray() then s.baseArraySlice else 0)
  {
  }

  // What a range covers, from the request alone: the mip levels and slices from its start
  // up to its end, reduced to 32 bits, or the end of the texture.
  lemma RangeCoversIff(desc: TextureDesc, s: TextureSubresourceSet, mipLevel: nat, arraySlice: nat)
    requires mipLevel < desc.mipLevels && arraySlice < desc.arraySize
    ensures Covers(desc, s, CalcSubresource(mipLevel, arraySlice, desc))
            <==> && s.baseMipLevel <= mipLevel < (s.baseMipLevel + s.numMipLevels) % 0x1_0000_0000
                 && (desc.dimension.IsArray() ==>
                       s.baseArraySlice <= arraySlice < (s.baseArraySlice + s.numArraySlices) % 0x1_0000_0000)
  {
    CellAtOfIndex(desc.mipLevels, mipLevel, arraySlice);
    ResolveKeepsStart(desc, s, false);
    EndMipIs(desc, s);
    EndSliceIs(desc, s);
  }

  lemma SizesFit(desc: TextureDesc)
    ensures desc.mipLevels < 0x1_0000_0000 && desc.arraySize < 0x1_0000_0000
  {
  }

  // The dimensions whose textures may have several slices.
  lemma HasSlicesIff(d: TextureDimension)
    ensures TextureDesc(1, 6, d, UNKNOWN, false).Valid()
            <==> d.Texture1DArray? || d.Texture2DArray? || d.TextureCube? || d.TextureCubeArray? || d.Texture2DMSArray?
  {
  }

  lemma OneAfter(base: uint32, limit: uint32)
    requires base < limit
    ensures (base + 1) % 0x1_0000_0000 == base + 1
  {
  }

  // One face of a cube, or one slice of another array, at one mip level is that
  // subresource alone.
  lemma SliceIsOne(desc: TextureDesc, mipLevel: uint32, face: uint32, otherMip: nat, otherFace: nat)
    requires var d := desc.dimension;
             d.Texture1DArray? || d.Texture2DArray? || d.TextureCube? || d.TextureCubeArray? || d.Texture2DMSArray?
    requires mipLevel < desc.mipLevels && face < desc.arraySize && otherMip < desc.mipLevels && otherFace < desc.arraySize
    ensures Covers(desc, TextureSubresourceSet(mipLevel, 1, face, 1), CalcSubresource(otherMip, otherFace, desc))
            <==> otherMip == mipLevel && otherFace == face
  {
    RangeCoversIff(desc, TextureSubresourceSet(mipLevel, 1, face, 1), otherMip, otherFace);
    SizesFit(desc);
    OneAfter(mipLevel, desc.mipLevels);
    OneAfter(face, desc.arraySize);
  }

  lemma BoundsInTexture(desc: TextureDesc, subresources: TextureSubresourceSet)
    ensures BoundsOf(desc, subresources).endMip <= desc.mipLevels
    ensures BoundsOf(desc, subresources).endSlice <= desc.arraySize
  {
    EndMipIs(desc, subresources);
    EndSliceIs(desc, subresources);
  }

  // A subresource the loops over a partial range miss.
  lemma PartialRangeMisses(desc: TextureDesc, subresources: TextureSubresourceSet) returns (missed: Cell)
    requires !subresources.Resolve(desc, false).IsEntireTexture(desc)
    ensures missed.mipLevel < desc.mipLevels && missed.arraySlice < desc.arraySize
    ensures !BoundsOf(desc, subresources).Contains(missed)
  {
    var resolved := subresources.Resolve(desc, false);
    missed := Cell(if resolved.baseArraySlice == 0 then desc.arraySize - 1 else 0,
                   if resolved.baseMipLevel == 0 then desc.mipLevels - 1 else 0);
  }

  lemma EntireRangeContains(desc: TextureDesc, subresources: TextureSubresourceSet, cell: Cell)
    requires subresources.Resolve(desc, false).IsEntireTexture(desc)
    requires cell.mipLevel < desc.mipLevels && cell.arraySlice < desc.arraySize
    ensures BoundsOf(desc, subresources).Contains(cell)
  {
  }

  // A resolved range passes for the entire texture exactly when the loops over it
  // would visit every subresource.
  lemma EntireTextureIff(desc: TextureDesc, subresources: TextureSubresourceSet)
    ensures subresources.Resolve(desc, false).IsEntireTexture(desc)
       <==> forall i: nat :: i < desc.NumSubresources() ==> Covers(desc, subresources, i)
  {
    if subresources.Resolve(desc, false).IsEntireTexture(desc) {
      forall i: nat | i < desc.NumSubresources()
        ensures Covers(desc, subresources, i)
      {
        IndexOnto(desc, i);
        EntireRangeContains(desc, subresources, CellAt(desc.mipLevels, i));
      }
    } else {
      var missed := PartialRangeMisses(desc, subresources);
      IndexInRange(desc, missed);
      assert !Covers(desc, subresources, missed.Index(desc));
    }
  }

  // The iterations left when the slice-by-slice loops over a box stand at
  // (arraySlice, mipLevel).
  function CellsFrom(box: Box, arraySlice: nat, mipLevel: nat): seq<Cell>
    decreases box.endSlice - arraySlice, box.endMip - mipLevel
  {
    if box.endSlice <= arraySlice || box.endMip <= box.firstMip then []
    else if box.endMip <= mipLevel then CellsFrom(box, arraySlice + 1, box.firstMip)
    else [Cell(arraySlice, mipLevel)] + CellsFrom(box, arraySlice, mipLevel + 1)
  }

  function Cells(box: Box): seq<Cell> {
    CellsFrom(box, box.firstSlice, box.firstMip)
  }

  lemma {:induction false} CellsFromMember(box: Box, arraySlice: nat, mipLevel: nat, cell: Cell)
    requires box.firstSlice <= arraySlice && box.firstMip <= mipLevel
    ensures cell in CellsFrom(box, arraySlice, mipLevel)
       <==> && box.Contains(cell)
            && (arraySlice < cell.arraySlice || (arraySlice == cell.arraySlice && mipLevel <= cell.mipLevel))
    decreases box.endSlice - arraySlice, box.endMip - mipLevel
  {
    if box.endSlice <= arraySlice || box.endMip <= box.firstMip {
    } else if box.endMip <= mipLevel {
      CellsFromMember(box, arraySlice + 1, box.firstMip, cell);
    } else {
      CellsFromMember(box, arraySlice, mipLevel + 1, cell);
    }
  }

  // The loops visit exactly the subresources of the box.
  lemma CellsMember(box: Box, cell: Cell)
    ensures cell in Cells(box) <==> box.Contains(cell)
  {
    CellsFromMember(box, box.firstSlice, box.firstMip, cell);
  }

  // No two iterations concern the same subresource.
  predicate Distinct(desc: TextureDesc, cells: seq<Cell>) {
    forall i, j :: 0 <= i < j < |cells| ==> cells[i].Index(desc) != cells[j].Index(desc)
  }

  lemma {:induction false} CellsFromDistinct(desc: TextureDesc, box: Box, arraySlice: nat, mipLevel: nat)
    requires box.endMip <= desc.mipLevels && box.endSlice <= desc.arraySize
    requires box.firstSlice <= arraySlice && box.firstMip <= mipLevel
    ensures Distinct(desc, CellsFrom(box, arraySlice, mipLevel))
    decreases box.endSlice - arraySlice, box.endMip - mipLevel
  {
    if box.endSlice <= arraySlice || box.endMip <= box.firstMip {
    } else if box.endMip <= mipLevel {
      CellsFromDistinct(desc, box, arraySlice + 1, box.firstMip);
    } else {
      var first, rest := Cell(arraySlice, mipLevel), CellsFrom(box, arraySlice, mipLevel + 1);
      CellsFromDistinct(desc, box, arraySlice, mipLevel + 1);
      IndexInRange(desc, first);
      forall k | 0 <= k < |rest|
        ensures rest[k].Index(desc) != first.Index(desc)
      {
        CellsFromMember(box, arraySlice, mipLevel + 1, rest[k]);
        IndexInRange(desc, rest[k]);
      }
      DistinctCons(desc, first, rest);
    }
  }

  lemma DistinctCons(desc: TextureDesc, first: Cell, rest: seq<Cell>)
    requires Distinct(desc, rest)
    requires forall k :: 0 <= k < |rest| ==> rest[k].Index(desc) != first.Index(desc)
    ensures Distinct(desc, [first] + rest)
  {
  }

  // A subresource is covered exactly when some iteration concerns it.
  lemma CoversIffVisited(desc: TextureDesc, subresources: TextureSubresourceSet, i: nat)
    requires i < desc.NumSubresources()
    ensures Covers(desc, subresources, i)
       <==> exists cell :: cell in Cells(BoundsOf(desc, subresources)) && cell.Index(desc) == i
  {
    var box := BoundsOf(desc, subresources);
    var own := CellAt(desc.mipLevels, i);
    IndexOnto(desc, i);
    CellsMember(box, own);
    BoundsInTexture(desc, subresources);
    forall cell | cell in Cells(box) && cell.Index(desc) == i
      ensures cell == own
    {
      CellsMember(box, cell);
      IndexInRange(desc, cell);
    }
    assert own.Index(desc) == i;
  }
}
