/** The stages of PointCloudProc as functions from the fields they read to
    the fields they overwrite, the status they return and the output they
    fill in. The class in module Proc is proved against these; the lemmas
    here state what the stages guarantee, alone and in sequence. */
module Stages {
  import opened Clouds
  import opened Axes
  import opened Pcl
  import opened Messages
  import opened Peel
  import opened Pixels

  /** The parameters the stages read (loaded from YAML by the constructor).
      Parameters that only tune a PCL algorithm live inside that oracle. */
  datatype Config = Config(
    passLimits: Box,          // pass_limits_[0..5]
    singleDistThresh: real,   // single_dist_thresh_
    multiDistThresh: real,    // multi_dist_thresh_
    minPlaneSize: Int32)      // min_plane_size_

  /** The fields the stages overwrite: cloud_transformed_, cloud_filtered_,
      cloud_hull_, cloud_tabletop_, tabletop_indicies_ and extract_'s
      negative flag. */
  datatype State = State(
    transformed: Organized,
    filtered: Cloud,
    hull: Cloud,
    tabletop: Cloud,
    tabletopIndices: set<int>,
    negative: bool)

  /** Empty clouds, and ExtractIndices' default of keeping the indexed points. */
  const InitialState: State := State(EmptyOrganized, [], [], [], {}, false)

  /** The state after a stage, the status it returns, and its output argument. */
  datatype Outcome<T> = Outcome(state: State, status: Status, value: T)

  /** The state after transformPointCloud and filterPointCloud, and what they returned. */
  datatype Step = Step(state: State, ok: bool)

  /** transformPointCloud: `frame` is the transformed cloud, or None when the
      tf lookup throws; cloud_transformed_ is cleared before either. */
  function Transform(s: State, frame: Option<Organized>): Step {
    match frame
    case None => Step(s.(transformed := EmptyOrganized), false)
    case Some(t) => Step(s.(transformed := t), true)
  }

  /** filterPointCloud: crop x, then y, then z; fail if nothing is left,
      otherwise voxelise. */
  function Filter(cfg: Config, lib: Library, s: State): (r: Step)
    ensures r.ok <==> exists i :: 0 <= i < |s.transformed.points| && InBox(cfg.passLimits, s.transformed.points[i])
    ensures !r.ok ==> r.state.filtered == []
    ensures r.ok ==> r.state.filtered == lib.voxel(Crop(cfg.passLimits, s.transformed.points))
    ensures r.state == s.(filtered := r.state.filtered)
  {
    var cropped := Crop(cfg.passLimits, s.transformed.points);
    CropEmptyIff(cfg.passLimits, s.transformed.points);
    if cropped == [] then Step(s.(filtered := cropped), false)
    else Step(s.(filtered := lib.voxel(cropped)), true)
  }

  /** segmentSinglePlane. The axis argument only selects a vector that
      nothing reads, so it is not a parameter here. */
  function SegmentSingle(cfg: Config, lib: Library, s: State, frame: Option<Organized>, plane: Plane): (o: Outcome<Plane>)
    ensures o.state == s.(transformed := o.state.transformed, filtered := o.state.filtered, hull := o.state.hull, negative := o.state.negative)
    ensures o.status != Success ==> o.value == plane && o.state.hull == s.hull && o.state.negative == s.negative
    ensures o.status == Success ==> o.value.size == |o.value.cloud| <= |o.state.filtered|
  {
    var t := Transform(s, frame);
    if !t.ok then Outcome(t.state, Failed(TransformFailed), plane)
    else
      var f := Filter(cfg, lib, t.state);
      if !f.ok then Outcome(f.state, Failed(EmptyAfterFiltering), plane)
      else
        var seg := lib.segment(f.state.filtered, cfg.singleDistThresh);
        if |seg.inliers| == 0 then Outcome(f.state, Failed(NoInliers), plane)
        else
          var cloudPlane := Extract(f.state.filtered, seg.inliers, false);
          var hull := lib.hull(cloudPlane);
          Outcome(
            f.state.(hull := hull, negative := false),
            Success,
            plane.(
              cloud := cloudPlane,
              center := lib.centroid(cloudPlane),
              min := lib.bounds(cloudPlane).0,
              max := lib.bounds(cloudPlane).1,
              polygon := plane.polygon + Vertices(hull),
              coef := seg.coef,
              size := |cloudPlane|))
  }

  /** The loop state segmentMultiplePlane enters its loop with. */
  function PeelStart(s: State, planes: seq<Plane>): LoopState {
    LoopState(s.filtered, 1, EmptyPlane, planes, s.negative)
  }

  /** segmentMultiplePlane, for a nonzero min_plane_size_ (with 0 it does not
      return; see Peel.ZeroMinimumNeverExits). */
  function SegmentMultiple(cfg: Config, lib: Library, s: State, frame: Option<Organized>, planes: seq<Plane>): (o: Outcome<seq<Plane>>)
    requires ValidLibrary(lib) && cfg.minPlaneSize != 0
    ensures o.state == s.(transformed := o.state.transformed, filtered := o.state.filtered, negative := o.state.negative)
    ensures o.status != Failed(NoPlaneFound)
    ensures |planes| <= |o.value|
  {
    var t := Transform(s, frame);
    if !t.ok then Outcome(t.state, Failed(TransformFailed), planes)
    else
      var f := Filter(cfg, lib, t.state);
      if !f.ok then Outcome(f.state, Failed(EmptyAfterFiltering), planes)
      else
        match PeelOff(lib, cfg.multiDistThresh, SizeThreshold(cfg.minPlaneSize), PeelStart(f.state, planes))
        case NoPlane(q) => Outcome(f.state.(filtered := q.cloud, negative := q.negative), Failed(NoPlaneFound), q.planes)
        case Exhausted(q) => Outcome(f.state.(filtered := q.cloud, negative := q.negative), Success, q.planes)
  }

  /** extractTabletop: the prism over cloud_hull_ of cloud_filtered_, read
      with whatever negative flag extract_ was last given. */
  function ExtractTabletop(lib: Library, s: State): (o: Outcome<()>)
    ensures o.state == s.(tabletopIndices := o.state.tabletopIndices, tabletop := o.state.tabletop)
    ensures IsSubsequence(o.state.tabletop, s.filtered)
    ensures o.status == Success <==> o.state.tabletop != []
    ensures o.status == Success || o.status == Failed(EmptyTabletop)
  {
    var indices := lib.prism(s.filtered, s.hull);
    ExtractIsSubsequence(s.filtered, indices, s.negative, 0);
    var tabletop := Extract(s.filtered, indices, s.negative);
    Outcome(
      s.(tabletopIndices := indices, tabletop := tabletop),
      if tabletop == [] then Failed(EmptyTabletop) else Success,
      ())
  }

  /** The object message built for one extracted cluster. */
  function MakeObject(lib: Library, cluster: Cloud, computeNormals: bool): Object {
    Object(
      cluster,
      if computeNormals then lib.normals(cluster) else [],
      lib.maxSegment(cluster).0,
      lib.maxSegment(cluster).1,
      lib.centroid(cluster),
      lib.bounds(cluster).0,
      lib.bounds(cluster).1)
  }

  /** One object per cluster, in cluster order. */
  function BuildObjects(lib: Library, tabletop: Cloud, clusters: seq<set<int>>, computeNormals: bool): (r: seq<Object>)
    ensures |r| == |clusters|
    decreases |clusters|
  {
    if clusters == [] then []
    else
      BuildObjects(lib, tabletop, clusters[..|clusters| - 1], computeNormals)
        + [MakeObject(lib, Extract(tabletop, clusters[|clusters| - 1], false), computeNormals)]
  }

  /** clusterObjects: segment a plane into a fresh message with the default
      axis, extract the tabletop, cluster it, and append one object per
      cluster. */
  function ClusterObjects(cfg: Config, lib: Library, s: State, frame: Option<Organized>, objects: seq<Object>, computeNormals: bool): (o: Outcome<seq<Object>>)
    ensures |objects| <= |o.value| && o.value[..|objects|] == objects
    ensures o.status != Success ==> o.value == objects
    ensures o.status == Success ==> |o.value| > |objects| && !o.state.negative
  {
    var single := SegmentSingle(cfg, lib, s, frame, EmptyPlane);
    if single.status != Success then Outcome(single.state, single.status, objects)
    else
      var top := ExtractTabletop(lib, single.state);
      if top.status != Success then Outcome(top.state, top.status, objects)
      else
        var clusters := lib.cluster(top.state.tabletop);
        if clusters == [] then Outcome(top.state, Failed(NoClusters), objects)
        else Outcome(top.state.(negative := false), Success, objects + BuildObjects(lib, top.state.tabletop, clusters, computeNormals))
  }

  /** get3DPoint: the coordinates of pixel (col, row) when it is finite. */
  function Get3DPoint(s: State, frame: Option<Organized>, col: int, row: int, point: Vec3): (o: Outcome<Vec3>)
    ensures o.state == s.(transformed := o.state.transformed)
    ensures o.status != Success ==> o.value == point
  {
    var t := Transform(s, frame);
    if !t.ok then Outcome(t.state, Failed(TransformFailed), point)
    else if !PixelInRange(t.state.transformed, col, row) then Outcome(t.state, Threw, point)
    else
      var p := At(t.state.transformed, col, row);
      if p.finite then Outcome(t.state, Success, Vertex(p))
      else Outcome(t.state, Failed(InvalidPoint), point)
  }

  /** The fields getObjectFromBBox and getObjectFromContour fill in. */
  function Summarise(lib: Library, c: Cloud, obj: Object): Object {
    obj.(min := lib.bounds(c).0, max := lib.bounds(c).1, center := lib.centroid(c))
  }

  /** getObjectFromBBox: scan columns bbox[0] .. bbox[2] - 1 and rows
      bbox[1] .. bbox[3] - 1, remove outliers, fail if nothing is left. */
  function ObjectFromBBox(lib: Library, s: State, frame: Option<Organized>, bbox: seq<int>, obj: Object): (o: Outcome<Object>)
    requires |bbox| >= 4
    ensures o.state == s.(transformed := o.state.transformed)
    ensures o.status != Success ==> o.value == obj
    ensures o.value.cloud == obj.cloud && o.value.normals == obj.normals && o.value.pmin == obj.pmin && o.value.pmax == obj.pmax
  {
    var t := Transform(s, frame);
    if !t.ok then Outcome(t.state, Failed(TransformFailed), obj)
    else
      match ScanRect(t.state.transformed, bbox[0], bbox[2], bbox[1], bbox[3])
      case Thrown => Outcome(t.state, Threw, obj)
      case Scanned(pts) =>
        var kept := RemoveOutliers(lib, pts);
        if kept == [] then Outcome(t.state, Failed(EmptyAfterOutlierRemoval), obj)
        else Outcome(t.state, Success, Summarise(lib, kept, obj))
  }

  /** getObjectFromContour: read pixel (ys[i], xs[i]) for every i of xs and
      summarise the finite ones, without outlier removal. */
  function ObjectFromContour(lib: Library, s: State, frame: Option<Organized>, xs: seq<int>, ys: seq<int>, obj: Object): (o: Outcome<Object>)
    requires |xs| <= |ys|
    ensures o.state == s.(transformed := o.state.transformed)
    ensures o.status != Success ==> o.value == obj
    ensures o.value.cloud == obj.cloud && o.value.normals == obj.normals && o.value.pmin == obj.pmin && o.value.pmax == obj.pmax
  {
    var t := Transform(s, frame);
    if !t.ok then Outcome(t.state, Failed(TransformFailed), obj)
    else
      match ContourScan(t.state.transformed, xs, ys, |xs|)
      case Thrown => Outcome(t.state, Threw, obj)
      case Scanned(pts) => Outcome(t.state, Success, Summarise(lib, pts, obj))
  }

  /** segmentSinglePlane fails only at one of its three checks and then
      leaves the caller's message alone; on success the message holds the
      inliers, its size is their number, its polygon is the old polygon
      followed by the hull stored in cloud_hull_, its orientation is never
      set, and extract_ is left keeping the indexed points. */
  lemma SegmentSingleOutcome(cfg: Config, lib: Library, s: State, frame: Option<Organized>, plane: Plane)
    requires ValidLibrary(lib)
    ensures var o := SegmentSingle(cfg, lib, s, frame, plane);
      && (o.status != Success ==> o.value == plane)
      && (o.status == Failed(TransformFailed) <==> frame.None?)
      && (o.status == Failed(EmptyAfterFiltering) <==>
            frame.Some? && forall i :: 0 <= i < |frame.value.points| ==> !InBox(cfg.passLimits, frame.value.points[i]))
      && (o.status == Failed(NoInliers) <==>
            frame.Some? && Filter(cfg, lib, s.(transformed := frame.value)).ok
            && lib.segment(o.state.filtered, cfg.singleDistThresh).inliers == {})
      && (o.status == Success || o.status == Failed(TransformFailed) || o.status == Failed(EmptyAfterFiltering) || o.status == Failed(NoInliers))
      && (o.status == Success ==>
            && o.value.size == |o.value.cloud| == |lib.segment(o.state.filtered, cfg.singleDistThresh).inliers| >= 1
            && IsSubsequence(o.value.cloud, o.state.filtered)
            && o.state.hull == lib.hull(o.value.cloud)
            && o.value.polygon == plane.polygon + Vertices(o.state.hull)
            && o.value.orientation == plane.orientation
            && !o.state.negative)
  {
    var o := SegmentSingle(cfg, lib, s, frame, plane);
    if frame.Some? {
      var f := Filter(cfg, lib, s.(transformed := frame.value));
      if f.ok {
        var seg := lib.segment(f.state.filtered, cfg.singleDistThresh);
        ExtractRemoves(f.state.filtered, seg.inliers);
        ExtractIsSubsequence(f.state.filtered, seg.inliers, false, 0);
      }
    }
  }

  /** The peel-off run segmentMultiplePlane makes after a successful filter. */
  function MultipleRun(cfg: Config, lib: Library, s: State, frame: Option<Organized>, planes: seq<Plane>): LoopState
    requires ValidLibrary(lib) && cfg.minPlaneSize != 0 && frame.Some?
  {
    var f := Filter(cfg, lib, s.(transformed := frame.value));
    PeelOff(lib, cfg.multiDistThresh, SizeThreshold(cfg.minPlaneSize), PeelStart(f.state, planes)).last
  }

  /** segmentMultiplePlane fails only when the transform fails or nothing
      survives the crop, and otherwise returns true, even when it finds no
      plane; it never reports "no plane found", only appends to the caller's
      vector, appends nothing when it fails, and leaves cloud_hull_ alone (its
      hulls are local). On success it ends
      because the next candidate is below the threshold, and extract_ is left
      negative exactly when a plane was found (or it already was). */
  lemma SegmentMultipleOutcome(cfg: Config, lib: Library, s: State, frame: Option<Organized>, planes: seq<Plane>)
    requires ValidLibrary(lib) && cfg.minPlaneSize != 0
    ensures var o := SegmentMultiple(cfg, lib, s, frame, planes);
      && o.status != Failed(NoPlaneFound)
      && (o.status != Success ==> o.value == planes)
      && |planes| <= |o.value| && o.value[..|planes|] == planes
      && o.state.hull == s.hull
      && (o.status == Failed(TransformFailed) <==> frame.None?)
      && (o.status == Failed(EmptyAfterFiltering) <==>
            frame.Some? && forall i :: 0 <= i < |frame.value.points| ==> !InBox(cfg.passLimits, frame.value.points[i]))
      && (o.status == Success <==> frame.Some? && Filter(cfg, lib, s.(transformed := frame.value)).ok)
      && (o.status == Success ==>
            && frame.Some?
            && o.value == MultipleRun(cfg, lib, s, frame, planes).planes
            && o.state.filtered == MultipleRun(cfg, lib, s, frame, planes).cloud
            && |lib.segment(o.state.filtered, cfg.multiDistThresh).inliers| < SizeThreshold(cfg.minPlaneSize)
            && o.state.negative == (|o.value| > |planes| || s.negative))
  {
    if frame.Some? {
      var f := Filter(cfg, lib, s.(transformed := frame.value));
      if f.ok {
        var t := SizeThreshold(cfg.minPlaneSize);
        var p := PeelStart(f.state, planes);
        PeelOffOnlyBreaks(lib, cfg.multiDistThresh, t, p);
        PeelOffAppends(lib, cfg.multiDistThresh, t, p);
      }
    }
  }

  /** Every plane a successful segmentMultiplePlane appends passed the size
      threshold, is labelled by Classify, and carries the hulls of all new
      planes up to itself. */
  lemma SegmentMultiplePlanes(cfg: Config, lib: Library, s: State, frame: Option<Organized>, planes: seq<Plane>)
    requires ValidLibrary(lib) && cfg.minPlaneSize != 0
    requires SegmentMultiple(cfg, lib, s, frame, planes).status == Success
    ensures var o := SegmentMultiple(cfg, lib, s, frame, planes);
      forall k :: |planes| <= k < |o.value| ==>
        && o.value[k].size == |o.value[k].cloud| >= SizeThreshold(cfg.minPlaneSize)
        && o.value[k].orientation == Some(Classify(o.value[k].coef))
        && o.value[k].polygon == HullVertices(lib, o.value[|planes|..k + 1])
  {
    var f := Filter(cfg, lib, s.(transformed := frame.value));
    var t := SizeThreshold(cfg.minPlaneSize);
    var p := PeelStart(f.state, planes);
    var q := PeelOff(lib, cfg.multiDistThresh, t, p).last;
    assert SegmentMultiple(cfg, lib, s, frame, planes).value == q.planes;
    PeelOffPlanes(lib, cfg.multiDistThresh, t, p);
    NewPlanesAccumulate(lib, t, p, q);
  }

  /** A successful segmentMultiplePlane leaves in cloud_filtered_ the filtered
      points no plane took, in order; the planes' points and the remainder are
      together the filtered cloud; and it finds at most |cloud| / threshold planes. */
  lemma SegmentMultiplePartitions(cfg: Config, lib: Library, s: State, frame: Option<Organized>, planes: seq<Plane>)
    requires ValidLibrary(lib) && cfg.minPlaneSize != 0
    requires SegmentMultiple(cfg, lib, s, frame, planes).status == Success
    ensures var o := SegmentMultiple(cfg, lib, s, frame, planes);
      var start := Filter(cfg, lib, s.(transformed := frame.value)).state.filtered;
      && IsSubsequence(o.state.filtered, start)
      && multiset(o.state.filtered) + PlanePoints(o.value) == multiset(start) + PlanePoints(planes)
      && |o.value| - |planes| <= |start| / SizeThreshold(cfg.minPlaneSize)
  {
    SegmentMultipleOutcome(cfg, lib, s, frame, planes);
    var f := Filter(cfg, lib, s.(transformed := frame.value));
    var t := SizeThreshold(cfg.minPlaneSize);
    var p := PeelStart(f.state, planes);
    PeelOffPartitions(lib, cfg.multiDistThresh, t, p);
    PlaneCountBound(lib, cfg.multiDistThresh, t, p);
  }

  /** extractTabletop reuses extract_ without setting its negative flag: right
      after a segmentMultiplePlane that found a plane, the "tabletop" is every
      filtered point OUTSIDE the prism. */
  lemma TabletopAfterMultiplePlanes(cfg: Config, lib: Library, s: State, frame: Option<Organized>, planes: seq<Plane>)
    requires ValidLibrary(lib) && cfg.minPlaneSize != 0
    requires SegmentMultiple(cfg, lib, s, frame, planes).status == Success
    requires |SegmentMultiple(cfg, lib, s, frame, planes).value| > |planes|
    ensures var m := SegmentMultiple(cfg, lib, s, frame, planes).state;
      var top := ExtractTabletop(lib, m).state;
      && top.tabletop == Extract(m.filtered, top.tabletopIndices, true)
      && forall p :: p in top.tabletop ==>
           exists k :: 0 <= k < |m.filtered| && m.filtered[k] == p && k !in top.tabletopIndices
  {
    SegmentMultipleOutcome(cfg, lib, s, frame, planes);
    var m := SegmentMultiple(cfg, lib, s, frame, planes).state;
    var top := ExtractTabletop(lib, m).state;
    forall p | p in top.tabletop
      ensures exists k :: 0 <= k < |m.filtered| && m.filtered[k] == p && k !in top.tabletopIndices
    {
      ExtractOnlySelected(m.filtered, top.tabletopIndices, true, 0, p);
    }
  }

  /** After a successful segmentSinglePlane, extractTabletop keeps exactly the
      filtered points inside the prism over that plane's hull. */
  lemma TabletopAfterSinglePlane(cfg: Config, lib: Library, s: State, frame: Option<Organized>, plane: Plane)
    requires SegmentSingle(cfg, lib, s, frame, plane).status == Success
    ensures var o := SegmentSingle(cfg, lib, s, frame, plane);
      var top := ExtractTabletop(lib, o.state).state;
      && top.tabletopIndices == lib.prism(o.state.filtered, lib.hull(o.value.cloud))
      && top.tabletop == Extract(o.state.filtered, top.tabletopIndices, false)
      && forall p :: p in top.tabletop ==>
           exists k :: 0 <= k < |o.state.filtered| && o.state.filtered[k] == p && k in top.tabletopIndices
  {
    var o := SegmentSingle(cfg, lib, s, frame, plane);
    var top := ExtractTabletop(lib, o.state).state;
    forall p | p in top.tabletop
      ensures exists k :: 0 <= k < |o.state.filtered| && o.state.filtered[k] == p && k in top.tabletopIndices
    {
      ExtractOnlySelected(o.state.filtered, top.tabletopIndices, false, 0, p);
    }
  }

  /** The k-th object is built from the points of the k-th cluster. */
  lemma {:induction false} BuildObjectsClouds(lib: Library, tabletop: Cloud, clusters: seq<set<int>>, computeNormals: bool)
    ensures forall k :: 0 <= k < |clusters| ==>
      BuildObjects(lib, tabletop, clusters, computeNormals)[k].cloud == Extract(tabletop, clusters[k], false)
    decreases |clusters|
  {
    if clusters != [] {
      BuildObjectsClouds(lib, tabletop, clusters[..|clusters| - 1], computeNormals);
    }
  }

  /** clusterObjects fails exactly when plane segmentation, tabletop extraction
      or clustering fails, and then appends nothing; on success it appends one
      object per cluster, each made of tabletop points, and the tabletop it
      clustered is the inside of the prism whatever extract_ held before. */
  lemma ClusterObjectsOutcome(cfg: Config, lib: Library, s: State, frame: Option<Organized>, objects: seq<Object>, computeNormals: bool)
    ensures var o := ClusterObjects(cfg, lib, s, frame, objects, computeNormals);
      var single := SegmentSingle(cfg, lib, s, frame, EmptyPlane);
      && (o.status != Success ==> o.value == objects)
      && (o.status == Success <==>
            && single.status == Success
            && ExtractTabletop(lib, single.state).status == Success
            && lib.cluster(ExtractTabletop(lib, single.state).state.tabletop) != [])
      && (o.status == Success ==>
            && |o.value| == |objects| + |lib.cluster(o.state.tabletop)|
            && o.value[..|objects|] == objects
            && o.state.tabletop == Extract(o.state.filtered, o.state.tabletopIndices, false)
            && !o.state.negative
            && forall k :: |objects| <= k < |o.value| ==> IsSubsequence(o.value[k].cloud, o.state.tabletop))
  {
    var o := ClusterObjects(cfg, lib, s, frame, objects, computeNormals);
    if o.status == Success {
      var clusters := lib.cluster(o.state.tabletop);
      BuildObjectsClouds(lib, o.state.tabletop, clusters, computeNormals);
      forall k | |objects| <= k < |o.value|
        ensures IsSubsequence(o.value[k].cloud, o.state.tabletop)
      {
        ExtractIsSubsequence(o.state.tabletop, clusters[k - |objects|], false, 0);
      }
    }
  }

  /** get3DPoint succeeds exactly on a finite pixel of the transformed cloud,
      throws exactly on a pixel PointCloud::at rejects, and leaves the caller's
      point alone unless it succeeds. */
  lemma Get3DPointOutcome(s: State, frame: Option<Organized>, col: int, row: int, point: Vec3)
    ensures var o := Get3DPoint(s, frame, col, row, point);
      && (o.status == Success <==> frame.Some? && PixelInRange(frame.value, col, row) && At(frame.value, col, row).finite)
      && (o.status == Threw <==> frame.Some? && !PixelInRange(frame.value, col, row))
      && (o.status == Success ==> o.value == Vertex(At(frame.value, col, row)))
      && (o.status != Success ==> o.value == point)
  {
  }

  /** On a well-formed organized cloud every in-bounds pixel can be read, and
      get3DPoint returns the point at row * width + col when it is finite. */
  lemma Get3DPointOnGrid(s: State, t: Organized, col: int, row: int, point: Vec3)
    requires t.height > 1 && |t.points| == t.width * t.height < Uint32Modulus
    requires 0 <= col < t.width && 0 <= row < t.height
    ensures PixelInRange(t, col, row) && FlatIndex(t, col, row) == row * t.width + col
    ensures var o := Get3DPoint(s, Some(t), col, row, point);
      && o.status != Threw
      && (o.status == Success <==> t.points[row * t.width + col].finite)
      && (o.status == Success ==> o.value == Vertex(t.points[row * t.width + col]))
  {
    GridPixel(t, col, row);
  }

  /** getObjectFromBBox throws exactly when the rectangle leaves the cloud;
      on a readable rectangle it succeeds exactly when some scanned point
      survives outlier removal and otherwise fails for that reason; it fails
      on a rectangle with no column or no row, and on success
      summarises a non-empty outlier-free subsequence of exactly the finite
      pixels of the rectangle; only min, max and center are written. */
  lemma ObjectFromBBoxOutcome(lib: Library, s: State, frame: Option<Organized>, bbox: seq<int>, obj: Object)
    requires |bbox| >= 4
    ensures var o := ObjectFromBBox(lib, s, frame, bbox, obj);
      && (frame.None? <==> o.status == Failed(TransformFailed))
      && (frame.Some? ==> (o.status == Threw <==> !RectInRange(frame.value, bbox[0], bbox[2], bbox[1], bbox[3])))
      && (frame.Some? && (bbox[2] <= bbox[0] || bbox[3] <= bbox[1]) ==> o.status == Failed(EmptyAfterOutlierRemoval))
      && (o.status != Success ==> o.value == obj)
      && (o.status == Success ==>
            && o.value.cloud == obj.cloud && o.value.normals == obj.normals
            && o.value.pmin == obj.pmin && o.value.pmax == obj.pmax
            && exists pts: Cloud ::
                 && |pts| <= (bbox[2] - bbox[0]) * (bbox[3] - bbox[1])
                 && (forall p :: p in pts <==> FiniteInRect(frame.value, bbox[0], bbox[2], bbox[1], bbox[3], p))
                 && RemoveOutliers(lib, pts) != []
                 && IsSubsequence(RemoveOutliers(lib, pts), pts)
                 && o.value == Summarise(lib, RemoveOutliers(lib, pts), obj))
      && (frame.Some? && RectInRange(frame.value, bbox[0], bbox[2], bbox[1], bbox[3]) ==>
            var sc := ScanRect(frame.value, bbox[0], bbox[2], bbox[1], bbox[3]);
            && sc.Scanned?
            && (o.status == Success <==> RemoveOutliers(lib, sc.points) != [])
            && (o.status != Success ==> o.status == Failed(EmptyAfterOutlierRemoval)))
  {
    if frame.Some? {
      ScanRectFacts(frame.value, bbox[0], bbox[2], bbox[1], bbox[3]);
    }
  }

  /** getObjectFromContour cannot fail once the transform succeeded: it either
      throws (exactly when a contour pixel is outside the cloud) or summarises
      exactly the finite points at pixels (ys[i], xs[i]), at most one per entry
      of xs, even when there are none; only min, max and center are written. */
  lemma ObjectFromContourOutcome(lib: Library, s: State, frame: Option<Organized>, xs: seq<int>, ys: seq<int>, obj: Object)
    requires |xs| <= |ys|
    ensures var o := ObjectFromContour(lib, s, frame, xs, ys, obj);
      && (frame.None? <==> o.status == Failed(TransformFailed))
      && (frame.Some? ==> o.status == Success || o.status == Threw)
      && (frame.Some? ==> (o.status == Threw <==> exists i :: 0 <= i < |xs| && !PixelInRange(frame.value, ys[i], xs[i])))
      && (o.status != Success ==> o.value == obj)
      && (o.status == Success ==>
            && o.value.cloud == obj.cloud && o.value.normals == obj.normals
            && o.value.pmin == obj.pmin && o.value.pmax == obj.pmax
            && exists pts: Cloud ::
                 && |pts| <= |xs|
                 && (forall p :: p in pts <==>
                       exists i :: 0 <= i < |xs| && PixelInRange(frame.value, ys[i], xs[i]) && At(frame.value, ys[i], xs[i]) == p && p.finite)
                 && o.value == Summarise(lib, pts, obj))
  {
    if frame.Some? {
      ContourScanFacts(frame.value, xs, ys, |xs|);
    }
  }
}

