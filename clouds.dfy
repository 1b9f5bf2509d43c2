/** Point clouds as the pipeline handles them: points with a finiteness flag,
    flat clouds, organized clouds addressed by (column, row), the pass-through
    crop and the index extraction that every stage of PointCloudProc uses. */
module Clouds {

  datatype Option<T> = None | Some(value: T)

  /** A pcl::PointXYZRGB: its coordinates and whether pcl::isFinite holds of it
      (colour plays no part in any decision and is not modelled). */
  datatype Point = Point(x: real, y: real, z: real, finite: bool)

  type Cloud = seq<Point>

  /** A geometry_msgs vector or point: three coordinates. */
  datatype Vec3 = Vec3(x: real, y: real, z: real)

  datatype Axis = X | Y | Z

  function Coord(p: Point, axis: Axis): real {
    match axis
    case X => p.x
    case Y => p.y
    case Z => p.z
  }

  // ---------------------------------------------------------------------------
  // Order-preserving subsequences
  // ---------------------------------------------------------------------------

  /** `s` is obtained from `t` by deleting elements, keeping the order of the rest. */
  ghost predicate IsSubsequence<T>(s: seq<T>, t: seq<T>)
    decreases |t|
  {
    if t == [] then s == []
    else (s != [] && s[0] == t[0] && IsSubsequence(s[1..], t[1..])) || IsSubsequence(s, t[1..])
  }

  lemma {:induction false} SubsequenceReflexive<T>(s: seq<T>)
    ensures IsSubsequence(s, s)
    decreases |s|
  {
    if s != [] {
      SubsequenceReflexive(s[1..]);
    }
  }

  lemma {:induction false} SubsequenceTransitive<T>(a: seq<T>, b: seq<T>, c: seq<T>)
    requires IsSubsequence(a, b) && IsSubsequence(b, c)
    ensures IsSubsequence(a, c)
    decreases |c|
  {
    if c == [] {
    } else if b != [] && b[0] == c[0] && IsSubsequence(b[1..], c[1..]) {
      if a != [] && a[0] == b[0] && IsSubsequence(a[1..], b[1..]) {
        SubsequenceTransitive(a[1..], b[1..], c[1..]);
      } else {
        SubsequenceTransitive(a, b[1..], c[1..]);
      }
    } else {
      SubsequenceTransitive(a, b, c[1..]);
    }
  }

  lemma {:induction false} SubsequenceShorter<T>(s: seq<T>, t: seq<T>)
    requires IsSubsequence(s, t)
    ensures |s| <= |t|
    ensures multiset(s) <= multiset(t)
    decreases |t|
  {
    if t == [] {
    } else if s != [] && s[0] == t[0] && IsSubsequence(s[1..], t[1..]) {
      SubsequenceShorter(s[1..], t[1..]);
      assert s == [s[0]] + s[1..];
      assert t == [t[0]] + t[1..];
    } else {
      SubsequenceShorter(s, t[1..]);
      assert t == [t[0]] + t[1..];
    }
  }

  // ---------------------------------------------------------------------------
  // pcl::PassThrough and the crop of filterPointCloud
  // ---------------------------------------------------------------------------

  /** The test one pass-through stage applies: non-finite points are always
      dropped, the rest are kept when the chosen field lies in [lo, hi]. */
  predicate InBand(p: Point, axis: Axis, lo: real, hi: real) {
    p.finite && lo <= Coord(p, axis) <= hi
  }

  /** pcl::PassThrough on one field: the points that pass, in input order. */
  function PassThrough(c: Cloud, axis: Axis, lo: real, hi: real): (r: Cloud)
    ensures |r| <= |c|
    ensures forall i :: 0 <= i < |r| ==> r[i] in c
    ensures forall i :: 0 <= i < |r| ==> InBand(r[i], axis, lo, hi)
  {
    if c == [] then []
    else (if InBand(c[0], axis, lo, hi) then [c[0]] else []) + PassThrough(c[1..], axis, lo, hi)
  }

  /** The six pass limits of filterPointCloud: x in [xMin, xMax], then y, then z. */
  datatype Box = Box(xMin: real, xMax: real, yMin: real, yMax: real, zMin: real, zMax: real)

  predicate InBox(b: Box, p: Point) {
    InBand(p, X, b.xMin, b.xMax) && InBand(p, Y, b.yMin, b.yMax) && InBand(p, Z, b.zMin, b.zMax)
  }

  /** The three pass-through stages of filterPointCloud, x first, then y, then z. */
  function Crop(b: Box, c: Cloud): (r: Cloud)
    ensures |r| <= |c|
    ensures forall i :: 0 <= i < |r| ==> r[i] in c && InBox(b, r[i])
  {
    PassThrough(PassThrough(PassThrough(c, X, b.xMin, b.xMax), Y, b.yMin, b.yMax), Z, b.zMin, b.zMax)
  }

  lemma {:induction false} PassThroughConcat(s: Cloud, t: Cloud, axis: Axis, lo: real, hi: real)
    ensures PassThrough(s + t, axis, lo, hi) == PassThrough(s, axis, lo, hi) + PassThrough(t, axis, lo, hi)
    decreases |s|
  {
    if s == [] {
      assert s + t == t;
    } else {
      assert (s + t)[1..] == s[1..] + t;
      PassThroughConcat(s[1..], t, axis, lo, hi);
    }
  }

  /** Cropping a cloud that starts with `p` keeps `p` exactly when it is in the box. */
  lemma CropCons(b: Box, p: Point, c: Cloud)
    ensures Crop(b, [p] + c) == (if InBox(b, p) then [p] else []) + Crop(b, c)
  {
    var px := if InBand(p, X, b.xMin, b.xMax) then [p] else [];
    var cx := PassThrough(c, X, b.xMin, b.xMax);
    assert ([p] + c)[1..] == c;
    assert PassThrough([p] + c, X, b.xMin, b.xMax) == px + cx;
    PassThroughConcat(px, cx, Y, b.yMin, b.yMax);
    var py := PassThrough(px, Y, b.yMin, b.yMax);
    var cy := PassThrough(cx, Y, b.yMin, b.yMax);
    PassThroughConcat(py, cy, Z, b.zMin, b.zMax);
    if px != [] {
      assert px[1..] == [];
      if py != [] {
        assert py[1..] == [];
      }
    }
  }

  /** The crop is the same as one filter that tests all three bands at once. */
  lemma {:induction false} CropKeepsExactlyTheBox(b: Box, c: Cloud)
    ensures forall p :: p in Crop(b, c) <==> p in c && InBox(b, p)
    decreases |c|
  {
    if c != [] {
      assert c == [c[0]] + c[1..];
      CropCons(b, c[0], c[1..]);
      CropKeepsExactlyTheBox(b, c[1..]);
    }
  }

  /** The crop is an order-preserving subsequence of its input. */
  lemma {:induction false} CropIsSubsequence(b: Box, c: Cloud)
    ensures IsSubsequence(Crop(b, c), c)
    decreases |c|
  {
    if c != [] {
      assert c == [c[0]] + c[1..];
      CropCons(b, c[0], c[1..]);
      CropIsSubsequence(b, c[1..]);
      var r := Crop(b, c);
      if InBox(b, c[0]) {
        assert r[0] == c[0] && r[1..] == Crop(b, c[1..]);
        assert IsSubsequence(r, c);
      } else {
        assert r == Crop(b, c[1..]);
        assert IsSubsequence(r, c);
      }
    }
  }

  /** Cropping an already-cropped cloud with the same limits changes nothing. */
  lemma {:induction false} CropIdempotent(b: Box, c: Cloud)
    ensures Crop(b, Crop(b, c)) == Crop(b, c)
    decreases |c|
  {
    if c != [] {
      assert c == [c[0]] + c[1..];
      CropCons(b, c[0], c[1..]);
      CropIdempotent(b, c[1..]);
      if InBox(b, c[0]) {
        CropCons(b, c[0], Crop(b, c[1..]));
      } else {
        assert Crop(b, c) == Crop(b, c[1..]);
      }
    }
  }

  /** The crop is empty exactly when no input point is finite and inside the box. */
  lemma {:induction false} CropEmptyIff(b: Box, c: Cloud)
    ensures Crop(b, c) == [] <==> forall i :: 0 <= i < |c| ==> !InBox(b, c[i])
    decreases |c|
  {
    if c != [] {
      assert c == [c[0]] + c[1..];
      CropCons(b, c[0], c[1..]);
      CropEmptyIff(b, c[1..]);
      assert forall i :: 1 <= i < |c| ==> c[i] == c[1..][i - 1];
    }
  }

  // ---------------------------------------------------------------------------
  // pcl::ExtractIndices
  // ---------------------------------------------------------------------------

  /** ExtractIndices over the points of `c`, the first of which has index `base`:
      a point is kept when its index is in `idx`, or when it is not and the
      `negative` flag is set; kept points stay in input order. */
  function ExtractFrom(c: Cloud, idx: set<int>, negative: bool, base: int): (r: Cloud)
    ensures |r| <= |c|
    ensures forall i :: 0 <= i < |r| ==> r[i] in c
    decreases |c|
  {
    if c == [] then []
    else (if (base in idx) != negative then [c[0]] else []) + ExtractFrom(c[1..], idx, negative, base + 1)
  }

  /** pcl::ExtractIndices::filter with indices `idx` and the given negative flag. */
  function Extract(c: Cloud, idx: set<int>, negative: bool): (r: Cloud)
    ensures |r| <= |c|
    ensures forall i :: 0 <= i < |r| ==> r[i] in c
  {
    ExtractFrom(c, idx, negative, 0)
  }

  /** True when every index in `idx` names a point of a cloud of `n` points. */
  predicate IndicesWithin(idx: set<int>, n: int) {
    forall i :: i in idx ==> 0 <= i < n
  }

  /** The positive and the negative extraction split the cloud between them. */
  lemma {:induction false} ExtractSplits(c: Cloud, idx: set<int>, base: int)
    ensures |ExtractFrom(c, idx, false, base)| + |ExtractFrom(c, idx, true, base)| == |c|
    ensures multiset(ExtractFrom(c, idx, false, base)) + multiset(ExtractFrom(c, idx, true, base)) == multiset(c)
    decreases |c|
  {
    if c != [] {
      ExtractSplits(c[1..], idx, base + 1);
      assert c == [c[0]] + c[1..];
    }
  }

  lemma {:induction false} ExtractIsSubsequence(c: Cloud, idx: set<int>, negative: bool, base: int)
    ensures IsSubsequence(ExtractFrom(c, idx, negative, base), c)
    decreases |c|
  {
    if c != [] {
      ExtractIsSubsequence(c[1..], idx, negative, base + 1);
      var r := ExtractFrom(c, idx, negative, base);
      var rest := ExtractFrom(c[1..], idx, negative, base + 1);
      if (base in idx) != negative {
        assert r == [c[0]] + rest;
        assert r[0] == c[0] && r[1..] == rest;
        assert IsSubsequence(r, c);
      } else {
        assert r == rest;
        assert IsSubsequence(r, c);
      }
    }
  }

  /** Only the indices that name a point of `c` matter. */
  lemma {:induction false} ExtractIgnoresOtherIndices(c: Cloud, idx: set<int>, idx': set<int>, negative: bool, base: int)
    requires forall i :: base <= i < base + |c| ==> (i in idx <==> i in idx')
    ensures ExtractFrom(c, idx, negative, base) == ExtractFrom(c, idx', negative, base)
    decreases |c|
  {
    if c != [] {
      ExtractIgnoresOtherIndices(c[1..], idx, idx', negative, base + 1);
    }
  }

  /** With indices that all name points of `c`, the positive extraction holds one point per index. */
  lemma {:induction false} ExtractCountsIndices(c: Cloud, idx: set<int>, base: int)
    requires forall i :: i in idx ==> base <= i < base + |c|
    ensures |ExtractFrom(c, idx, false, base)| == |idx|
    decreases |c|
  {
    if c == [] {
      assert forall i :: i !in idx;
      assert idx == {};
    } else if base in idx {
      var rest := idx - {base};
      ExtractIgnoresOtherIndices(c[1..], idx, rest, false, base + 1);
      ExtractCountsIndices(c[1..], rest, base + 1);
    } else {
      ExtractCountsIndices(c[1..], idx, base + 1);
    }
  }

  /** Removing a set of valid indices leaves exactly |c| - |idx| points. */
  lemma ExtractRemoves(c: Cloud, idx: set<int>)
    requires IndicesWithin(idx, |c|)
    ensures |Extract(c, idx, false)| == |idx|
    ensures |Extract(c, idx, true)| == |c| - |idx|
  {
    ExtractCountsIndices(c, idx, 0);
    ExtractSplits(c, idx, 0);
  }

  /** Every point at a selected position is extracted. */
  lemma {:induction false} ExtractKeepsSelected(c: Cloud, idx: set<int>, negative: bool, base: int, k: int)
    requires 0 <= k < |c| && ((base + k) in idx) != negative
    ensures c[k] in ExtractFrom(c, idx, negative, base)
    decreases |c|
  {
    if k > 0 {
      assert c[1..][k - 1] == c[k];
      ExtractKeepsSelected(c[1..], idx, negative, base + 1, k - 1);
    }
  }

  /** Every extracted point sits at a selected position. */
  lemma {:induction false} ExtractOnlySelected(c: Cloud, idx: set<int>, negative: bool, base: int, p: Point)
    requires p in ExtractFrom(c, idx, negative, base)
    ensures exists k :: 0 <= k < |c| && c[k] == p && ((base + k) in idx) != negative
    decreases |c|
  {
    var rest := ExtractFrom(c[1..], idx, negative, base + 1);
    if p in rest {
      ExtractOnlySelected(c[1..], idx, negative, base + 1, p);
      var k :| 0 <= k < |c[1..]| && c[1..][k] == p && ((base + 1 + k) in idx) != negative;
      assert c[k + 1] == p && ((base + (k + 1)) in idx) != negative;
    } else {
      assert c[0] == p && ((base + 0) in idx) != negative;
    }
  }

  // ---------------------------------------------------------------------------
  // Organized clouds and pcl::PointCloud::at(column, row)
  // ---------------------------------------------------------------------------

  /** A cloud with the sensor's image layout: `width` columns and `height` rows, row-major. */
  datatype Organized = Organized(points: Cloud, width: nat, height: nat)

  const EmptyOrganized: Organized := Organized([], 0, 0)

  const Uint32Modulus: int := 0x1_0000_0000

  /** `row * width + column`, computed in PCL's unsigned 32-bit arithmetic. */
  function FlatIndex(c: Organized, col: int, row: int): (i: nat)
    ensures i < Uint32Modulus
    ensures 0 <= row * c.width + col < Uint32Modulus ==> i == row * c.width + col
  {
    (row * c.width + col) % Uint32Modulus
  }

  /** at(column, row) returns a point instead of throwing: the cloud has more than
      one row and the flat index names one of its points. */
  predicate PixelInRange(c: Organized, col: int, row: int)
    ensures PixelInRange(c, col, row) ==> c.height > 1 && |c.points| > 0
  {
    c.height > 1 && FlatIndex(c, col, row) < |c.points|
  }

  function At(c: Organized, col: int, row: int): (p: Point)
    requires PixelInRange(c, col, row)
    ensures p in c.points
  {
    c.points[FlatIndex(c, col, row)]
  }

  /** On the sensor grid of a full organized cloud, at(column, row) is the
      row-major point `row * width + column` and never throws. */
  lemma GridPixel(c: Organized, col: int, row: int)
    requires c.height > 1 && |c.points| == c.width * c.height < Uint32Modulus
    requires 0 <= col < c.width && 0 <= row < c.height
    ensures PixelInRange(c, col, row)
    ensures FlatIndex(c, col, row) == row * c.width + col
    ensures At(c, col, row) == c.points[row * c.width + col]
  {
    FlatIndexOnGrid(c.width, c.height, col, row);
    assert FlatIndex(c, col, row) == row * c.width + col;
  }

  lemma FlatIndexOnGrid(w: nat, h: nat, col: int, row: int)
    requires w * h < Uint32Modulus
    requires 0 <= col < w && 0 <= row < h
    ensures 0 <= row * w + col < w * h
    ensures (row * w + col) % Uint32Modulus == row * w + col
  {
    var n := row * w + col;
    MulMonotone(row, h - 1, w);
    Distribute(h, w);
    assert n < Uint32Modulus;
    ModSmall(n, Uint32Modulus);
  }

  lemma Distribute(h: int, w: int)
    ensures (h - 1) * w + w == w * h
  {
  }

  lemma ModSmall(n: int, m: int)
    requires 0 <= n < m
    ensures n % m == n
  {
  }

  lemma MulMonotone(a: int, b: int, w: nat)
    requires 0 <= a <= b
    ensures 0 <= a * w <= b * w
  {
  }
}
