/** The multi-plane peel-off loop of segmentMultiplePlane as a function of its
    loop state, and what it guarantees: acceptance only at or above the size
    threshold, removal of exactly the accepted inliers, a bound on the number of
    planes, a polygon that accumulates across planes, and the two thresholds at
    which the loop misbehaves (0 never exits, negative accepts nothing). */
module Peel {
  import opened Clouds
  import opened Axes
  import opened Pcl
  import opened Messages

  /** A C++ `int`, the type of min_plane_size_. */
  type Int32 = x: int | -0x8000_0000 <= x < 0x8000_0000

  const SizeModulus: int := 0x1_0000_0000_0000_0000

  /** The value min_plane_size_ is compared at in `inliers->indices.size() <
      min_plane_size_`: the usual arithmetic conversions turn the int into a
      64-bit size_t, so a negative minimum becomes a huge one. */
  function SizeThreshold(m: Int32): (t: nat)
    ensures t >= 1 <==> m != 0
    ensures 0 <= m ==> t == m
    ensures m < 0 ==> t >= SizeModulus - 0x8000_0000
  {
    if m < 0 then m + SizeModulus else m
  }

  /** The state the loop carries from one iteration to the next: the working
      cloud cloud_filtered_, the counter no_planes, the plane message declared
      once outside the loop, the caller's vector and extract_'s negative flag. */
  datatype LoopState = LoopState(cloud: Cloud, count: int, msg: Plane, planes: seq<Plane>, negative: bool)

  /** `part` and `rest` hold, between them, exactly the points of `whole`. */
  ghost predicate SplitsPoints(whole: Cloud, part: Cloud, rest: Cloud) {
    multiset(part) + multiset(rest) == multiset(whole)
  }

  /** One accepted iteration: extract the inliers, hull them, overwrite the
      message's fields but append to its polygon, label it, push it, and make
      the non-inliers the new working cloud. */
  function Accept(lib: Library, seg: Segmentation, p: LoopState): (r: LoopState)
    ensures r.planes == p.planes + [r.msg] && r.count == p.count + 1 && r.negative
    ensures |r.cloud| + |r.msg.cloud| == |p.cloud| && r.msg.size == |r.msg.cloud|
    ensures SplitsPoints(p.cloud, r.msg.cloud, r.cloud)
  {
    ExtractSplits(p.cloud, seg.inliers, 0);
    var plane := Extract(p.cloud, seg.inliers, false);
    var hull := lib.hull(plane);
    var msg := p.msg.(
      cloud := plane,
      center := lib.centroid(hull),
      min := lib.bounds(plane).0,
      max := lib.bounds(plane).1,
      polygon := p.msg.polygon + Vertices(hull),
      coef := seg.coef,
      orientation := Some(Classify(seg.coef)),
      size := |plane|);
    LoopState(Extract(p.cloud, seg.inliers, true), p.count + 1, msg, p.planes + [msg], true)
  }

  /** How the loop ends: at the `break`, or at the "no plane found" return. */
  datatype PeelEnd = Exhausted(last: LoopState) | NoPlane(last: LoopState)

  /** The `while (true)` loop from state `p`, for a threshold of at least one
      (with a threshold of 0 the loop never ends; see ZeroMinimumNeverExits). */
  function PeelOff(lib: Library, dist: real, threshold: nat, p: LoopState): (r: PeelEnd)
    requires ValidLibrary(lib) && threshold >= 1
    ensures |r.last.cloud| <= |p.cloud| && |p.planes| <= |r.last.planes|
    ensures r.NoPlane? ==> r.last.count == 0
    ensures r.NoPlane? && p.count >= 0 ==> r.last == p
    decreases |p.cloud|
  {
    var seg := lib.segment(p.cloud, dist);
    if |seg.inliers| == 0 && p.count == 0 then NoPlane(p)
    else if |seg.inliers| < threshold then Exhausted(p)
    else
      ExtractRemoves(p.cloud, seg.inliers);
      PeelOff(lib, dist, threshold, Accept(lib, seg, p))
  }

  /** The points of the clouds of `planes`, with repetition. */
  ghost function PlanePoints(planes: seq<Plane>): multiset<Point>
    decreases |planes|
  {
    if planes == [] then multiset{} else PlanePoints(planes[..|planes| - 1]) + multiset(planes[|planes| - 1].cloud)
  }

  /** An accepted plane message's size is its point count and at least the
      threshold, and its label is the classification of its coefficients. */
  ghost predicate SizedAndLabelled(threshold: nat, plane: Plane) {
    && plane.size == |plane.cloud|
    && plane.size >= threshold
    && plane.orientation == Some(Classify(plane.coef))
  }

  /** Every plane `after` holds beyond those of `before` is sized and labelled. */
  ghost predicate NewPlanesSized(threshold: nat, before: LoopState, after: LoopState)
    requires |before.planes| <= |after.planes|
  {
    forall k :: |before.planes| <= k < |after.planes| ==> SizedAndLabelled(threshold, after.planes[k])
  }

  /** `plane`'s polygon is `previous` followed by the vertices of its own hull. */
  ghost predicate ExtendsPolygon(lib: Library, previous: seq<Vec3>, plane: Plane) {
    plane.polygon == previous + Vertices(lib.hull(plane.cloud))
  }

  /** The first plane of `ps` extends `base`, and each later one the polygon
      of the plane before it. */
  ghost predicate Chained(lib: Library, base: seq<Vec3>, ps: seq<Plane>) {
    && (|ps| > 0 ==> ExtendsPolygon(lib, base, ps[0]))
    && forall k :: 0 < k < |ps| ==> ExtendsPolygon(lib, ps[k - 1].polygon, ps[k])
  }

  /** The planes `after` holds beyond those of `before` are chained from the
      message's polygon on entry. */
  ghost predicate NewPlanesChained(lib: Library, before: LoopState, after: LoopState)
    requires |before.planes| <= |after.planes|
  {
    Chained(lib, before.msg.polygon, after.planes[|before.planes|..])
  }

  lemma ChainedCons(lib: Library, base: seq<Vec3>, x: Plane, rest: seq<Plane>)
    requires ExtendsPolygon(lib, base, x) && Chained(lib, x.polygon, rest)
    ensures Chained(lib, base, [x] + rest)
  {
    var ps := [x] + rest;
    forall k | 0 < k < |ps|
      ensures ExtendsPolygon(lib, ps[k - 1].polygon, ps[k])
    {
      if k == 1 {
        assert ps[0] == x && ps[1] == rest[0];
      } else {
        assert ExtendsPolygon(lib, rest[k - 2].polygon, rest[k - 1]);
      }
    }
  }

  /** An accepted iteration removes exactly the inliers, so with a threshold
      of at least one it strictly shrinks the working cloud. */
  lemma AcceptShrinks(lib: Library, dist: real, threshold: nat, p: LoopState)
    requires ValidLibrary(lib) && threshold >= 1
    requires |lib.segment(p.cloud, dist).inliers| >= threshold
    ensures |Accept(lib, lib.segment(p.cloud, dist), p).cloud| == |p.cloud| - |lib.segment(p.cloud, dist).inliers|
    ensures |Accept(lib, lib.segment(p.cloud, dist), p).cloud| < |p.cloud|
  {
    ExtractRemoves(p.cloud, lib.segment(p.cloud, dist).inliers);
  }

  /** One accepted iteration moves exactly the inliers from the working cloud
      into the new plane, keeping the rest in order. */
  lemma AcceptMovesInliers(lib: Library, seg: Segmentation, p: LoopState)
    requires IndicesWithin(seg.inliers, |p.cloud|)
    ensures var r := Accept(lib, seg, p);
      && |r.planes| == |p.planes| + 1
      && |r.cloud| == |p.cloud| - |seg.inliers|
      && IsSubsequence(r.cloud, p.cloud)
      && multiset(r.cloud) + PlanePoints(r.planes) == multiset(p.cloud) + PlanePoints(p.planes)
  {
    var r := Accept(lib, seg, p);
    ExtractRemoves(p.cloud, seg.inliers);
    ExtractIsSubsequence(p.cloud, seg.inliers, true, 0);
    ExtractSplits(p.cloud, seg.inliers, 0);
    assert r.planes[..|r.planes| - 1] == p.planes;
  }

  /** One accepted iteration pushes a sized and labelled plane whose polygon
      extends the message's polygon by the plane's hull. */
  lemma AcceptPushesPlane(lib: Library, seg: Segmentation, p: LoopState, threshold: nat)
    requires IndicesWithin(seg.inliers, |p.cloud|) && |seg.inliers| >= threshold
    ensures var r := Accept(lib, seg, p);
      && r.planes == p.planes + [r.msg]
      && SizedAndLabelled(threshold, r.msg)
      && ExtendsPolygon(lib, p.msg.polygon, r.msg)
  {
    ExtractRemoves(p.cloud, seg.inliers);
  }

  /** The loop only appends to the caller's vector, counts every plane in
      no_planes, leaves extract_ negative once a plane was accepted, and leaves
      the reused message equal to the last plane pushed. */
  lemma {:induction false} PeelOffAppends(lib: Library, dist: real, threshold: nat, p: LoopState)
    requires ValidLibrary(lib) && threshold >= 1
    ensures var q := PeelOff(lib, dist, threshold, p).last;
      && |p.planes| <= |q.planes|
      && q.planes[..|p.planes|] == p.planes
      && q.count == p.count + (|q.planes| - |p.planes|)
      && q.negative == (if |q.planes| == |p.planes| then p.negative else true)
      && q.msg == (if |q.planes| == |p.planes| then p.msg else q.planes[|q.planes| - 1])
    decreases |p.cloud|
  {
    var seg := lib.segment(p.cloud, dist);
    if !(|seg.inliers| == 0 && p.count == 0) && |seg.inliers| >= threshold {
      ExtractRemoves(p.cloud, seg.inliers);
      var r := Accept(lib, seg, p);
      PeelOffAppends(lib, dist, threshold, r);
      var q := PeelOff(lib, dist, threshold, r).last;
      assert q.planes[..|p.planes|] == q.planes[..|r.planes|][..|p.planes|];
    }
  }

  /** `after` keeps, in order, a sub-cloud of `before`'s working cloud, the
      points it dropped are exactly those of the new planes, and every new
      plane took at least `threshold` of them. */
  ghost predicate Partitioned(threshold: nat, before: LoopState, after: LoopState) {
    && IsSubsequence(after.cloud, before.cloud)
    && multiset(after.cloud) + PlanePoints(after.planes) == multiset(before.cloud) + PlanePoints(before.planes)
    && (|after.planes| - |before.planes|) * threshold <= |before.cloud| - |after.cloud|
  }

  /** Chaining the partition facts of one step with those of the rest of the loop. */
  lemma CombinePartitions(p: LoopState, r: LoopState, q: LoopState, threshold: nat)
    requires IsSubsequence(r.cloud, p.cloud)
    requires multiset(r.cloud) + PlanePoints(r.planes) == multiset(p.cloud) + PlanePoints(p.planes)
    requires |r.planes| == |p.planes| + 1 && |r.planes| <= |q.planes|
    requires threshold <= |p.cloud| - |r.cloud|
    requires Partitioned(threshold, r, q)
    ensures Partitioned(threshold, p, q)
  {
    SubsequenceTransitive(q.cloud, r.cloud, p.cloud);
    StepProduct(|q.planes| - |r.planes|, threshold);
  }

  lemma StepProduct(m: int, t: int)
    ensures (m + 1) * t == m * t + t
  {
  }

  /** The loop removes from the working cloud exactly the points it puts in
      the new planes, keeps the rest in order, and removes at least threshold
      points per plane. */
  lemma {:induction false} PeelOffPartitions(lib: Library, dist: real, threshold: nat, p: LoopState)
    requires ValidLibrary(lib) && threshold >= 1
    ensures Partitioned(threshold, p, PeelOff(lib, dist, threshold, p).last)
    decreases |p.cloud|
  {
    var seg := lib.segment(p.cloud, dist);
    if !(|seg.inliers| == 0 && p.count == 0) && |seg.inliers| >= threshold {
      AcceptMovesInliers(lib, seg, p);
      var r := Accept(lib, seg, p);
      var q := PeelOff(lib, dist, threshold, r).last;
      assert PeelOff(lib, dist, threshold, p).last == q;
      PeelOffPartitions(lib, dist, threshold, r);
      PeelOffAppends(lib, dist, threshold, r);
      CombinePartitions(p, r, q, threshold);
    } else {
      SubsequenceReflexive(p.cloud);
    }
  }

  /** Chaining the plane facts of one step with those of the rest of the loop. */
  lemma CombinePlanes(lib: Library, threshold: nat, p: LoopState, r: LoopState, q: LoopState)
    requires r.planes == p.planes + [r.msg]
    requires SizedAndLabelled(threshold, r.msg) && ExtendsPolygon(lib, p.msg.polygon, r.msg)
    requires |r.planes| <= |q.planes| && q.planes[..|r.planes|] == r.planes
    requires NewPlanesSized(threshold, r, q) && NewPlanesChained(lib, r, q)
    ensures NewPlanesSized(threshold, p, q) && NewPlanesChained(lib, p, q)
  {
    var n := |p.planes|;
    assert q.planes[n] == r.msg by {
      assert q.planes[..n + 1] == r.planes;
    }
    assert q.planes[n..] == [r.msg] + q.planes[n + 1..];
    ChainedCons(lib, p.msg.polygon, r.msg, q.planes[n + 1..]);
  }

  /** Every plane the loop pushes is sized and labelled, and its polygon is the
      polygon of the plane pushed before it (or the message's polygon on entry)
      followed by its own hull. */
  lemma {:induction false} PeelOffPlanes(lib: Library, dist: real, threshold: nat, p: LoopState)
    requires ValidLibrary(lib) && threshold >= 1
    ensures |p.planes| <= |PeelOff(lib, dist, threshold, p).last.planes|
    ensures NewPlanesSized(threshold, p, PeelOff(lib, dist, threshold, p).last)
    ensures NewPlanesChained(lib, p, PeelOff(lib, dist, threshold, p).last)
    decreases |p.cloud|
  {
    PeelOffAppends(lib, dist, threshold, p);
    var seg := lib.segment(p.cloud, dist);
    if !(|seg.inliers| == 0 && p.count == 0) && |seg.inliers| >= threshold {
      AcceptShrinks(lib, dist, threshold, p);
      AcceptPushesPlane(lib, seg, p, threshold);
      var r := Accept(lib, seg, p);
      PeelOffPlanes(lib, dist, threshold, r);
      PeelOffAppends(lib, dist, threshold, r);
      CombinePlanes(lib, threshold, p, r, PeelOff(lib, dist, threshold, r).last);
    }
  }

  /** Started with no_planes at 1, the loop never takes the "no plane found"
      return: it ends only at the `break`, when the next candidate has fewer
      inliers than the threshold, whether or not any plane was found. */
  lemma {:induction false} PeelOffOnlyBreaks(lib: Library, dist: real, threshold: nat, p: LoopState)
    requires ValidLibrary(lib) && threshold >= 1 && p.count >= 1
    ensures PeelOff(lib, dist, threshold, p).Exhausted?
    ensures |lib.segment(PeelOff(lib, dist, threshold, p).last.cloud, dist).inliers| < threshold
    decreases |p.cloud|
  {
    var seg := lib.segment(p.cloud, dist);
    if |seg.inliers| >= threshold {
      ExtractRemoves(p.cloud, seg.inliers);
      PeelOffOnlyBreaks(lib, dist, threshold, Accept(lib, seg, p));
    }
  }

  lemma DivBound(n: nat, t: nat, c: nat)
    requires t >= 1 && n * t <= c
    ensures n <= c / t
  {
    var q := c / t;
    assert (q + 1) * t == q * t + t;
    ScaleMonotone(q + 1, n, t);
  }

  lemma ScaleMonotone(a: nat, b: nat, t: nat)
    ensures a <= b ==> a * t <= b * t
  {
  }

  /** At most |cloud| / threshold planes are accepted. */
  lemma PlaneCountBound(lib: Library, dist: real, threshold: nat, p: LoopState)
    requires ValidLibrary(lib) && threshold >= 1
    ensures |PeelOff(lib, dist, threshold, p).last.planes| - |p.planes| <= |p.cloud| / threshold
  {
    PeelOffPartitions(lib, dist, threshold, p);
    var q := PeelOff(lib, dist, threshold, p).last;
    var n := |q.planes| - |p.planes|;
    DivBound(n, threshold, |p.cloud|);
  }

  /** A negative min_plane_size_ accepts no plane at all (for any cloud that
      fits in memory), because the comparison is done in size_t. */
  lemma NegativeMinimumAcceptsNothing(lib: Library, dist: real, m: Int32, p: LoopState)
    requires ValidLibrary(lib) && m < 0 && p.count >= 1
    requires |p.cloud| < SizeModulus / 2
    ensures PeelOff(lib, dist, SizeThreshold(m), p) == Exhausted(p)
  {
    var seg := lib.segment(p.cloud, dist);
    ExtractRemoves(p.cloud, seg.inliers);
  }

  /** With min_plane_size_ == 0 the `break` is never taken: every candidate is
      accepted, and once the working cloud is empty RANSAC can only report no
      inliers, whose acceptance leaves the cloud empty and pushes one more
      plane, for ever. */
  lemma ZeroMinimumNeverExits(lib: Library, dist: real, p: LoopState)
    requires ValidLibrary(lib) && p.count >= 1
    ensures !(|lib.segment(p.cloud, dist).inliers| < SizeThreshold(0))
    ensures p.cloud == [] ==> lib.segment(p.cloud, dist).inliers == {}
    ensures p.cloud == [] ==>
      var next := Accept(lib, lib.segment(p.cloud, dist), p);
      next.cloud == [] && next.count == p.count + 1 && |next.planes| == |p.planes| + 1
  {
    var seg := lib.segment(p.cloud, dist);
    if p.cloud == [] {
      assert forall i :: i !in seg.inliers;
    }
  }

  /** The hull vertices of `planes`, one plane after another. */
  ghost function HullVertices(lib: Library, planes: seq<Plane>): seq<Vec3>
    decreases |planes|
  {
    if planes == [] then []
    else HullVertices(lib, planes[..|planes| - 1]) + Vertices(lib.hull(planes[|planes| - 1].cloud))
  }

  /** Because the plane message is never reset, the k-th plane of a chain
      from `base` has as polygon `base` followed by the hulls of the chain's
      planes up to and including the k-th. */
  lemma {:induction false} PolygonsAccumulate(lib: Library, base: seq<Vec3>, ps: seq<Plane>, k: int)
    requires Chained(lib, base, ps) && 0 <= k < |ps|
    ensures ps[k].polygon == base + HullVertices(lib, ps[..k + 1])
    decreases k
  {
    assert ps[..k + 1][..k] == ps[..k];
    if k == 0 {
      assert ps[..0] == [];
    } else {
      PolygonsAccumulate(lib, base, ps, k - 1);
      assert ExtendsPolygon(lib, ps[k - 1].polygon, ps[k]);
      var h := HullVertices(lib, ps[..k]);
      var v := Vertices(lib.hull(ps[k].cloud));
      assert ps[k].polygon == (base + h) + v;
      assert (base + h) + v == base + (h + v);
    }
  }

  /** Every plane a peel-off run appends is sized and labelled, and carries
      the message's polygon on entry followed by the hulls of all new planes
      up to itself. */
  lemma NewPlanesAccumulate(lib: Library, threshold: nat, before: LoopState, after: LoopState)
    requires |before.planes| <= |after.planes|
    requires NewPlanesSized(threshold, before, after) && NewPlanesChained(lib, before, after)
    ensures forall k :: |before.planes| <= k < |after.planes| ==>
      && SizedAndLabelled(threshold, after.planes[k])
      && after.planes[k].polygon == before.msg.polygon + HullVertices(lib, after.planes[|before.planes|..k + 1])
  {
    var n := |before.planes|;
    var ps := after.planes[n..];
    forall k | n <= k < |after.planes|
      ensures after.planes[k].polygon == before.msg.polygon + HullVertices(lib, after.planes[n..k + 1])
    {
      PolygonsAccumulate(lib, before.msg.polygon, ps, k - n);
      assert ps[..k - n + 1] == after.planes[n..k + 1];
    }
  }
}
