/**
 * The page geometry shared by every panel of the book: the segment layout,
 * the skin (which bones each vertex follows, and how strongly) and the bone
 * chain that bends a panel.
 */
module BookGeometry {
  import opened Wrappers
  import opened JsMath

  const PageWidth: real := 1.4
  const PageHeight: real := 2.0
  const PageDepth: real := 0.003
  const PageSegments: nat := 6
  const SegmentWidth: real := PageWidth / 6.0

  // ---------------------------------------------------------------- skin

  /** The first bone a vertex at local x follows: `max(0, floor(x / SEGMENT_WIDTH))`, not clamped above. */
  function SkinIndex(x: real): (k: int)
    ensures k >= 0
    ensures x < 0.0 ==> k == 0
  {
    MaxInt(0, (x / SegmentWidth).Floor)
  }

  /** The weight of the second bone: `(x % SEGMENT_WIDTH) / SEGMENT_WIDTH`, with JavaScript's `%`. */
  function SkinWeight(x: real): real
  {
    Fmod(x, SegmentWidth) / SegmentWidth
  }

  /** The four skin indices one vertex contributes. */
  function IndexQuad(x: real): seq<int>
  {
    [SkinIndex(x), SkinIndex(x) + 1, 0, 0]
  }

  /** The four skin weights one vertex contributes. */
  function WeightQuad(x: real): seq<real>
  {
    [1.0 - SkinWeight(x), SkinWeight(x), 0.0, 0.0]
  }

  /** The `skinIndex` buffer for a vertex list: its quads in vertex order. */
  function SkinIndexBuffer(xs: seq<real>): (b: seq<int>)
    ensures |b| == 4 * |xs|
  {
    if xs == [] then [] else SkinIndexBuffer(xs[..|xs| - 1]) + IndexQuad(xs[|xs| - 1])
  }

  /** The `skinWeight` buffer for a vertex list. */
  function SkinWeightBuffer(xs: seq<real>): (b: seq<real>)
    ensures |b| == 4 * |xs|
  {
    if xs == [] then [] else SkinWeightBuffer(xs[..|xs| - 1]) + WeightQuad(xs[|xs| - 1])
  }

  /** The loop over the vertex buffer that pushes four indices and four weights per vertex. */
  method BuildSkin(xs: seq<real>) returns (skinIndexes: seq<int>, skinWeights: seq<real>)
    ensures skinIndexes == SkinIndexBuffer(xs)
    ensures skinWeights == SkinWeightBuffer(xs)
  {
    skinIndexes, skinWeights := [], [];
    var i := 0;
    while i < |xs|
      invariant 0 <= i <= |xs|
      invariant skinIndexes == SkinIndexBuffer(xs[..i])
      invariant skinWeights == SkinWeightBuffer(xs[..i])
    {
      var x := xs[i];
      var skinIndex := MaxInt(0, (x / SegmentWidth).Floor);
      var skinWeight := Fmod(x, SegmentWidth) / SegmentWidth;
      skinIndexes := skinIndexes + [skinIndex, skinIndex + 1, 0, 0];
      skinWeights := skinWeights + [1.0 - skinWeight, skinWeight, 0.0, 0.0];
      assert xs[..i + 1][..i] == xs[..i];
      i := i + 1;
    }
    assert xs[..|xs|] == xs;
  }

  /** Vertex v's entries in the skin buffers are exactly its two quads. */
  lemma {:induction false} SkinBufferAt(xs: seq<real>, v: nat)
    requires v < |xs|
    ensures SkinIndexBuffer(xs)[4 * v..4 * v + 4] == IndexQuad(xs[v])
    ensures SkinWeightBuffer(xs)[4 * v..4 * v + 4] == WeightQuad(xs[v])
  {
    var init := xs[..|xs| - 1];
    if v < |xs| - 1 {
      SkinBufferAt(init, v);
      assert init[v] == xs[v];
    }
  }

  /**
   * For a vertex at x >= 0 the second weight lies in [0, 1), the four weights
   * sum to 1, and the pair (index, weight) locates the vertex exactly:
   * `x == (k + w) * SEGMENT_WIDTH`.
   */
  lemma SkinBinding(x: real)
    requires x >= 0.0
    ensures 0.0 <= SkinWeight(x) < 1.0
    ensures var q := WeightQuad(x); q[0] + q[1] + q[2] + q[3] == 1.0
    ensures (SkinIndex(x) as real + SkinWeight(x)) * SegmentWidth == x
  {
    var f := x / SegmentWidth;
    assert f >= 0.0;
    assert Trunc(f) == f.Floor;
    assert SkinIndex(x) == f.Floor;
    assert Fmod(x, SegmentWidth) == x - SegmentWidth * (f.Floor as real);
    assert SkinWeight(x) == f - f.Floor as real;
  }

  /** A vertex strictly inside the page width follows two bones that exist (indices 0..PAGE_SEGMENTS). */
  lemma SkinIndexInChain(x: real)
    requires 0.0 <= x < PageWidth
    ensures 0 <= SkinIndex(x) && SkinIndex(x) + 1 <= PageSegments
  {
    assert x / SegmentWidth < 6.0;
  }

  /**
   * At the free edge (x == PAGE_WIDTH, in exact arithmetic) the index is not
   * clamped: the vertex names bone 7, one past the chain, with weight 0.
   */
  lemma SkinAtFreeEdge()
    ensures IndexQuad(PageWidth) == [6, 7, 0, 0]
    ensures WeightQuad(PageWidth) == [1.0, 0.0, 0.0, 0.0]
  {
    assert PageWidth / SegmentWidth == 6.0;
  }

  /** Bone indices never decrease along the width axis. */
  lemma SkinIndexMonotone(x: real, y: real)
    requires x <= y
    ensures SkinIndex(x) <= SkinIndex(y)
  {
    assert x / SegmentWidth <= y / SegmentWidth;
  }

  // ---------------------------------------------------------------- bones

  /** A bone of the chain: its x offset from its parent, and its parent's index. */
  datatype BoneNode = BoneNode(x: real, parent: Option<nat>)

  /**
   * `PAGE_SEGMENTS + 1` bones: bone 0 at x = 0 with no parent, every other bone
   * at x = SEGMENT_WIDTH and added as a child of the bone before it.
   */
  method BuildBoneChain() returns (bones: seq<BoneNode>)
    ensures |bones| == PageSegments + 1
    ensures bones[0] == BoneNode(0.0, None)
    ensures forall i :: 1 <= i < |bones| ==> bones[i] == BoneNode(SegmentWidth, Some(i - 1))
  {
    bones := [];
    var i := 0;
    while i <= PageSegments
      invariant 0 <= i <= PageSegments + 1
      invariant |bones| == i
      invariant i > 0 ==> bones[0] == BoneNode(0.0, None)
      invariant forall j :: 1 <= j < i ==> bones[j] == BoneNode(SegmentWidth, Some(j - 1))
    {
      var bone := BoneNode(0.0, None);
      bones := bones + [bone];
      if i == 0 {
        bones := bones[i := bones[i].(x := 0.0)];
      } else {
        bones := bones[i := bones[i].(x := SegmentWidth)];
      }
      if i > 0 {
        // bones[i - 1].add(bone): the new bone becomes bone i-1's child
        bones := bones[i := bones[i].(parent := Some(i - 1))];
      }
      i := i + 1;
    }
  }

  /** A chain in which every parent comes before its child. */
  ghost predicate ParentsBefore(bones: seq<BoneNode>)
  {
    forall i :: 0 <= i < |bones| && bones[i].parent.Some? ==> bones[i].parent.value < i
  }

  /** The rest position of bone i along the width axis: the offsets summed up its parent chain. */
  ghost function RestX(bones: seq<BoneNode>, i: nat): real
    requires ParentsBefore(bones) && i < |bones|
    decreases i
  {
    match bones[i].parent
    case None => bones[i].x
    case Some(p) => RestX(bones, p) + bones[i].x
  }

  /** Bone k of the built chain rests at k * SEGMENT_WIDTH. */
  lemma {:induction false} RestXOfChain(bones: seq<BoneNode>, k: nat)
    requires |bones| == PageSegments + 1
    requires bones[0] == BoneNode(0.0, None)
    requires forall j :: 1 <= j < |bones| ==> bones[j] == BoneNode(SegmentWidth, Some(j - 1))
    requires k < |bones|
    ensures ParentsBefore(bones)
    ensures RestX(bones, k) == (k as real) * SegmentWidth
  {
    if k > 0 {
      RestXOfChain(bones, k - 1);
    }
  }

  /**
   * In the built chain bone 0 is the only root, and bone i rests at
   * i * SEGMENT_WIDTH, so the last bone sits on the free edge of the page.
   */
  lemma ChainSpansPage(bones: seq<BoneNode>, i: nat)
    requires |bones| == PageSegments + 1
    requires bones[0] == BoneNode(0.0, None)
    requires forall j :: 1 <= j < |bones| ==> bones[j] == BoneNode(SegmentWidth, Some(j - 1))
    requires i < |bones|
    ensures ParentsBefore(bones)
    ensures bones[i].parent.None? <==> i == 0
    ensures RestX(bones, i) == (i as real) * SegmentWidth
    ensures RestX(bones, PageSegments) == PageWidth
  {
    RestXOfChain(bones, i);
    RestXOfChain(bones, PageSegments);
  }

  /**
   * The two bones the cover-collision guard samples: 12% and 90% along the
   * chain, kept inside [1, bones - 1].
   */
  function SampleIndices(boneCount: nat): (r: (int, int))
    ensures r.0 >= 1 && r.1 <= boneCount - 1
    ensures boneCount >= 2 ==> 1 <= r.1
  {
    (MaxInt(1, ((boneCount as real) * 0.12).Floor),
     MinInt(boneCount - 1, MaxInt(1, ((boneCount as real) * 0.9).Floor)))
  }

  /** With the 7-bone chain the guard samples bones 1 and 6. */
  lemma SampleIndicesOfChain()
    ensures SampleIndices(PageSegments + 1) == (1, 6)
  {
    assert ((7 as real) * 0.12).Floor == 0;
    assert ((7 as real) * 0.9).Floor == 6;
  }
}
