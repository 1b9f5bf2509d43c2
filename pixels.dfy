/** Pixel selection on the organized transformed cloud: the column-outer,
    row-inner rectangle scan of getObjectFromBBox and the contour scan of
    getObjectFromContour. Both keep the finite points they visit, in visiting
    order; a pixel outside the cloud makes PointCloud::at throw, which ends
    the scan. */
module Pixels {
  import opened Clouds

  /** A completed scan, or one cut short by PointCloud::at throwing. */
  datatype Scan = Scanned(points: Cloud) | Thrown

  /** Every point of `pts` is finite. */
  predicate AllFinite(pts: Cloud) {
    forall i :: 0 <= i < |pts| ==> pts[i].finite
  }

  /** Rows r0 .. r1 - 1 of column `col`, top to bottom. */
  function ScanColumn(c: Organized, col: int, r0: int, r1: int): (r: Scan)
    ensures r.Scanned? ==> |r.points| <= if r1 <= r0 then 0 else r1 - r0
    ensures r.Scanned? ==> AllFinite(r.points)
    decreases r1 - r0
  {
    if r1 <= r0 then Scanned([])
    else
      match ScanColumn(c, col, r0, r1 - 1)
      case Thrown => Thrown
      case Scanned(pts) =>
        if !PixelInRange(c, col, r1 - 1) then Thrown
        else if At(c, col, r1 - 1).finite then Scanned(pts + [At(c, col, r1 - 1)])
        else Scanned(pts)
  }

  /** Columns c0 .. c1 - 1, each scanned over rows r0 .. r1 - 1. */
  function ScanRect(c: Organized, c0: int, c1: int, r0: int, r1: int): (r: Scan)
    ensures r.Scanned? ==> AllFinite(r.points)
    decreases c1 - c0
  {
    if c1 <= c0 then Scanned([])
    else
      match ScanRect(c, c0, c1 - 1, r0, r1)
      case Thrown => Thrown
      case Scanned(pts) =>
        match ScanColumn(c, c1 - 1, r0, r1)
        case Thrown => Thrown
        case Scanned(column) => Scanned(pts + column)
  }

  /** Every pixel of the half-open rectangle can be read. */
  ghost predicate RectInRange(c: Organized, c0: int, c1: int, r0: int, r1: int) {
    forall col, row :: c0 <= col < c1 && r0 <= row < r1 ==> PixelInRange(c, col, row)
  }

  /** The pixel (col, row) of the rectangle holds p, and p is finite. */
  ghost predicate FiniteInRect(c: Organized, c0: int, c1: int, r0: int, r1: int, p: Point) {
    exists col, row :: c0 <= col < c1 && r0 <= row < r1 && PixelInRange(c, col, row) && At(c, col, row) == p && p.finite
  }

  /** The nested loops of getObjectFromBBox. */
  method ScanRectangle(c: Organized, c0: int, c1: int, r0: int, r1: int) returns (r: Scan)
    ensures r == ScanRect(c, c0, c1, r0, r1)
  {
    var pts: Cloud := [];
    var i := c0;
    while i < c1
      invariant c1 <= c0 ==> i == c0
      invariant c0 < c1 ==> c0 <= i <= c1
      invariant ScanRect(c, c0, i, r0, r1) == Scanned(pts)
    {
      var j := r0;
      var column: Cloud := [];
      while j < r1
        invariant r1 <= r0 ==> j == r0
        invariant r0 < r1 ==> r0 <= j <= r1
        invariant ScanColumn(c, i, r0, j) == Scanned(column)
      {
        if !PixelInRange(c, i, j) {
          ScanColumnThrownStays(c, i, r0, j + 1, r1);
          ScanRectThrownStays(c, c0, i + 1, c1, r0, r1);
          return Thrown;
        }
        var p := At(c, i, j);
        if p.finite {
          column := column + [p];
        }
        j := j + 1;
      }
      pts := pts + column;
      i := i + 1;
    }
    r := Scanned(pts);
  }

  lemma {:induction false} ScanColumnThrownStays(c: Organized, col: int, r0: int, j: int, r1: int)
    requires r0 < j <= r1 && ScanColumn(c, col, r0, j) == Thrown
    ensures ScanColumn(c, col, r0, r1) == Thrown
    decreases r1 - j
  {
    if j < r1 {
      ScanColumnThrownStays(c, col, r0, j + 1, r1);
    }
  }

  lemma {:induction false} ScanRectThrownStays(c: Organized, c0: int, i: int, c1: int, r0: int, r1: int)
    requires c0 < i <= c1 && ScanRect(c, c0, i, r0, r1) == Thrown
    ensures ScanRect(c, c0, c1, r0, r1) == Thrown
    decreases c1 - i
  {
    if i < c1 {
      ScanRectThrownStays(c, c0, i + 1, c1, r0, r1);
    }
  }

  /** A column scan throws exactly when one of its pixels is out of range, and
      otherwise keeps at most one point per row, all finite, and exactly the
      finite points of the column. */
  lemma {:induction false} ScanColumnFacts(c: Organized, col: int, r0: int, r1: int)
    ensures ScanColumn(c, col, r0, r1) != Thrown <==> forall row :: r0 <= row < r1 ==> PixelInRange(c, col, row)
    ensures ScanColumn(c, col, r0, r1).Scanned? ==>
      var pts := ScanColumn(c, col, r0, r1).points;
      && |pts| <= (if r1 <= r0 then 0 else r1 - r0)
      && (forall p :: p in pts ==> p.finite)
      && (forall p :: p in pts <==> exists row :: r0 <= row < r1 && PixelInRange(c, col, row) && At(c, col, row) == p && p.finite)
    decreases r1 - r0
  {
    if r1 > r0 {
      ScanColumnFacts(c, col, r0, r1 - 1);
      if ScanColumn(c, col, r0, r1).Scanned? {
        var pts := ScanColumn(c, col, r0, r1).points;
        forall p | p in pts
          ensures exists row :: r0 <= row < r1 && PixelInRange(c, col, row) && At(c, col, row) == p && p.finite
        {
          if p !in ScanColumn(c, col, r0, r1 - 1).points {
            assert At(c, col, r1 - 1) == p;
          }
        }
        forall p | exists row :: r0 <= row < r1 && PixelInRange(c, col, row) && At(c, col, row) == p && p.finite
          ensures p in pts
        {
          var row :| r0 <= row < r1 && PixelInRange(c, col, row) && At(c, col, row) == p && p.finite;
          if row < r1 - 1 {
            assert p in ScanColumn(c, col, r0, r1 - 1).points;
          }
        }
      }
    }
  }

  lemma MulAddRow(n: int, w: int)
    ensures n * w + w == (n + 1) * w
  {
  }

  /** getObjectFromBBox's scan throws exactly when the rectangle leaves the cloud. */
  lemma {:induction false} ScanRectThrows(c: Organized, c0: int, c1: int, r0: int, r1: int)
    ensures ScanRect(c, c0, c1, r0, r1) != Thrown <==> RectInRange(c, c0, c1, r0, r1)
    decreases c1 - c0
  {
    if c1 > c0 {
      ScanRectThrows(c, c0, c1 - 1, r0, r1);
      ScanColumnFacts(c, c1 - 1, r0, r1);
      if ScanRect(c, c0, c1, r0, r1).Thrown? && ScanRect(c, c0, c1 - 1, r0, r1) != Thrown {
        var row :| r0 <= row < r1 && !PixelInRange(c, c1 - 1, row);
      }
      if RectInRange(c, c0, c1, r0, r1) {
        assert RectInRange(c, c0, c1 - 1, r0, r1);
      }
    }
  }

  /** A completed rectangle scan keeps at most one point per pixel. */
  lemma {:induction false} ScanRectBound(c: Organized, c0: int, c1: int, r0: int, r1: int)
    ensures ScanRect(c, c0, c1, r0, r1).Scanned? ==>
      |ScanRect(c, c0, c1, r0, r1).points| <= (if c1 <= c0 || r1 <= r0 then 0 else (c1 - c0) * (r1 - r0))
    decreases c1 - c0
  {
    if c1 > c0 && ScanRect(c, c0, c1, r0, r1).Scanned? {
      ScanRectBound(c, c0, c1 - 1, r0, r1);
      ScanColumnFacts(c, c1 - 1, r0, r1);
      if r1 > r0 {
        MulAddRow(c1 - 1 - c0, r1 - r0);
      }
    }
  }

  /** A completed rectangle scan keeps exactly the finite points of the rectangle. */
  lemma {:induction false} ScanRectMembers(c: Organized, c0: int, c1: int, r0: int, r1: int)
    ensures ScanRect(c, c0, c1, r0, r1).Scanned? ==>
      forall p :: p in ScanRect(c, c0, c1, r0, r1).points <==> FiniteInRect(c, c0, c1, r0, r1, p)
    decreases c1 - c0
  {
    if c1 > c0 && ScanRect(c, c0, c1, r0, r1).Scanned? {
      ScanRectMembers(c, c0, c1 - 1, r0, r1);
      ScanColumnFacts(c, c1 - 1, r0, r1);
      var pts := ScanRect(c, c0, c1, r0, r1).points;
      var front := ScanRect(c, c0, c1 - 1, r0, r1).points;
      var column := ScanColumn(c, c1 - 1, r0, r1).points;
      assert pts == front + column;
      forall p | p in pts
        ensures FiniteInRect(c, c0, c1, r0, r1, p)
      {
        if p in front {
          var col, row :| c0 <= col < c1 - 1 && r0 <= row < r1 && PixelInRange(c, col, row) && At(c, col, row) == p && p.finite;
        } else {
          var row :| r0 <= row < r1 && PixelInRange(c, c1 - 1, row) && At(c, c1 - 1, row) == p && p.finite;
        }
      }
      forall p | FiniteInRect(c, c0, c1, r0, r1, p)
        ensures p in pts
      {
        var col, row :| c0 <= col < c1 && r0 <= row < r1 && PixelInRange(c, col, row) && At(c, col, row) == p && p.finite;
        if col < c1 - 1 {
          assert FiniteInRect(c, c0, c1 - 1, r0, r1, p);
        }
      }
    }
  }

  /** getObjectFromBBox's scan throws exactly when the rectangle leaves the
      cloud; otherwise it keeps at most one point per pixel, all finite, and
      exactly the finite points of the rectangle. */
  lemma ScanRectFacts(c: Organized, c0: int, c1: int, r0: int, r1: int)
    ensures ScanRect(c, c0, c1, r0, r1) != Thrown <==> RectInRange(c, c0, c1, r0, r1)
    ensures ScanRect(c, c0, c1, r0, r1).Scanned? ==>
      var pts := ScanRect(c, c0, c1, r0, r1).points;
      && |pts| <= (if c1 <= c0 || r1 <= r0 then 0 else (c1 - c0) * (r1 - r0))
      && (forall p :: p in pts ==> p.finite)
      && (forall p :: p in pts <==> FiniteInRect(c, c0, c1, r0, r1, p))
  {
    ScanRectThrows(c, c0, c1, r0, r1);
    ScanRectBound(c, c0, c1, r0, r1);
    ScanRectMembers(c, c0, c1, r0, r1);
  }

  /** The first n contour pixels, read as at(ys[i], xs[i]): column ys[i], row xs[i]. */
  function ContourScan(c: Organized, xs: seq<int>, ys: seq<int>, n: nat): (r: Scan)
    requires n <= |xs| <= |ys|
    ensures r.Scanned? ==> |r.points| <= n
    ensures r.Scanned? ==> AllFinite(r.points)
  {
    if n == 0 then Scanned([])
    else
      match ContourScan(c, xs, ys, n - 1)
      case Thrown => Thrown
      case Scanned(pts) =>
        if !PixelInRange(c, ys[n - 1], xs[n - 1]) then Thrown
        else if At(c, ys[n - 1], xs[n - 1]).finite then Scanned(pts + [At(c, ys[n - 1], xs[n - 1])])
        else Scanned(pts)
  }

  /** The loop of getObjectFromContour. */
  method ScanContour(c: Organized, xs: seq<int>, ys: seq<int>) returns (r: Scan)
    requires |xs| <= |ys|
    ensures r == ContourScan(c, xs, ys, |xs|)
  {
    var pts: Cloud := [];
    var i := 0;
    while i < |xs|
      invariant 0 <= i <= |xs|
      invariant ContourScan(c, xs, ys, i) == Scanned(pts)
    {
      if !PixelInRange(c, ys[i], xs[i]) {
        ContourThrownStays(c, xs, ys, i + 1);
        return Thrown;
      }
      var p := At(c, ys[i], xs[i]);
      if p.finite {
        pts := pts + [p];
      }
      i := i + 1;
    }
    r := Scanned(pts);
  }

  lemma {:induction false} ContourThrownStays(c: Organized, xs: seq<int>, ys: seq<int>, n: nat)
    requires 0 < n <= |xs| <= |ys| && ContourScan(c, xs, ys, n) == Thrown
    ensures ContourScan(c, xs, ys, |xs|) == Thrown
    decreases |xs| - n
  {
    if n < |xs| {
      ContourThrownStays(c, xs, ys, n + 1);
    }
  }

  /** The contour scan throws exactly when one of its pixels is out of range;
      otherwise it keeps at most one point per contour entry, all finite, and
      exactly the finite points at the listed pixels. */
  lemma {:induction false} ContourScanFacts(c: Organized, xs: seq<int>, ys: seq<int>, n: nat)
    requires n <= |xs| <= |ys|
    ensures ContourScan(c, xs, ys, n) != Thrown <==> forall i :: 0 <= i < n ==> PixelInRange(c, ys[i], xs[i])
    ensures ContourScan(c, xs, ys, n).Scanned? ==>
      var pts := ContourScan(c, xs, ys, n).points;
      && |pts| <= n
      && (forall p :: p in pts ==> p.finite)
      && (forall p :: p in pts <==> exists i :: 0 <= i < n && PixelInRange(c, ys[i], xs[i]) && At(c, ys[i], xs[i]) == p && p.finite)
  {
    if n > 0 {
      ContourScanFacts(c, xs, ys, n - 1);
      if ContourScan(c, xs, ys, n).Scanned? {
        var pts := ContourScan(c, xs, ys, n).points;
        forall p | p in pts
          ensures exists i :: 0 <= i < n && PixelInRange(c, ys[i], xs[i]) && At(c, ys[i], xs[i]) == p && p.finite
        {
          if p !in ContourScan(c, xs, ys, n - 1).points {
            assert At(c, ys[n - 1], xs[n - 1]) == p;
          }
        }
        forall p | exists i :: 0 <= i < n && PixelInRange(c, ys[i], xs[i]) && At(c, ys[i], xs[i]) == p && p.finite
          ensures p in pts
        {
          var i :| 0 <= i < n && PixelInRange(c, ys[i], xs[i]) && At(c, ys[i], xs[i]) == p && p.finite;
          if i < n - 1 {
            assert p in ContourScan(c, xs, ys, n - 1).points;
          }
        }
      }
    }
  }
}
