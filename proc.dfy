/** The PointCloudProc object: the fields its stages overwrite, and one method
    per public stage. Each method is proved to leave the fields, return the
    status and fill in the output argument exactly as the corresponding
    function of module Stages says, so the lemmas proved there hold of it. */
module Proc {
  import opened Clouds
  import opened Axes
  import opened Pcl
  import opened Messages
  import opened Peel
  import opened Pixels
  import opened Stages

  class PointCloudProc {
    const cfg: Config
    const lib: Library

    var cloudTransformed: Organized   // cloud_transformed_
    var cloudFiltered: Cloud          // cloud_filtered_
    var cloudHull: Cloud              // cloud_hull_
    var cloudTabletop: Cloud          // cloud_tabletop_
    var tabletopIndices: set<int>     // tabletop_indicies_
    var extractNegative: bool         // extract_'s negative flag

    /** The stage fields as one value. */
    function Fields(): State
      reads this
    {
      State(cloudTransformed, cloudFiltered, cloudHull, cloudTabletop, tabletopIndices, extractNegative)
    }

    /** The parameters the constructor would load from YAML, and the PCL
        objects it configures, are given; every cloud starts empty. */
    constructor (cfg: Config, lib: Library)
      ensures this.cfg == cfg && this.lib == lib
      ensures Fields() == InitialState
    {
      this.cfg := cfg;
      this.lib := lib;
      cloudTransformed := EmptyOrganized;
      cloudFiltered := [];
      cloudHull := [];
      cloudTabletop := [];
      tabletopIndices := {};
      extractNegative := false;
    }

    /** transformPointCloud, with the tf lookup's result given as `frame`. */
    method TransformPointCloud(frame: Option<Organized>) returns (ok: bool)
      modifies this
      ensures Step(Fields(), ok) == Transform(old(Fields()), frame)
    {
      cloudTransformed := EmptyOrganized;
      match frame {
        case None =>
          ok := false;
        case Some(t) =>
          cloudTransformed := t;
          ok := true;
      }
    }

    /** filterPointCloud. */
    method FilterPointCloud() returns (ok: bool)
      modifies this
      ensures Step(Fields(), ok) == Filter(cfg, lib, old(Fields()))
    {
      cloudFiltered := PassThrough(cloudTransformed.points, X, cfg.passLimits.xMin, cfg.passLimits.xMax);
      cloudFiltered := PassThrough(cloudFiltered, Y, cfg.passLimits.yMin, cfg.passLimits.yMax);
      cloudFiltered := PassThrough(cloudFiltered, Z, cfg.passLimits.zMin, cfg.passLimits.zMax);
      if |cloudFiltered| == 0 {
        return false;
      }
      cloudFiltered := lib.voxel(cloudFiltered);
      return true;
    }

    /** segmentSinglePlane; `plane` is the caller's message, returned updated. */
    method SegmentSinglePlane(frame: Option<Organized>, axis: char, plane: Plane) returns (status: Status, planeOut: Plane)
      modifies this
      ensures Outcome(Fields(), status, planeOut) == SegmentSingle(cfg, lib, old(Fields()), frame, plane)
    {
      planeOut := plane;
      var ok := TransformPointCloud(frame);
      if !ok {
        return Failed(TransformFailed), planeOut;
      }
      ok := FilterPointCloud();
      if !ok {
        return Failed(EmptyAfterFiltering), planeOut;
      }
      // The vector is built but never handed to the segmenter.
      var axisVector := AxisVector(axis);
      var seg := lib.segment(cloudFiltered, cfg.singleDistThresh);
      if |seg.inliers| == 0 {
        return Failed(NoInliers), planeOut;
      }
      extractNegative := false;
      var cloudPlane := Extract(cloudFiltered, seg.inliers, extractNegative);
      cloudHull := [];
      cloudHull := lib.hull(cloudPlane);
      var bounds := lib.bounds(cloudPlane);
      planeOut := planeOut.(cloud := cloudPlane, center := lib.centroid(cloudPlane), min := bounds.0, max := bounds.1);
      var polygon := AppendHull(planeOut.polygon, cloudHull);
      planeOut := planeOut.(polygon := polygon, coef := seg.coef, size := |cloudPlane|);
      status := Success;
    }

    /** segmentMultiplePlane; `planes` is the caller's vector, returned
        appended to. A min_plane_size_ of 0 is excluded because the loop then
        never ends (Peel.ZeroMinimumNeverExits). */
    method SegmentMultiplePlane(frame: Option<Organized>, planes: seq<Plane>) returns (status: Status, planesOut: seq<Plane>)
      requires ValidLibrary(lib) && cfg.minPlaneSize != 0
      modifies this
      ensures Outcome(Fields(), status, planesOut) == SegmentMultiple(cfg, lib, old(Fields()), frame, planes)
    {
      planesOut := planes;
      var ok := TransformPointCloud(frame);
      if !ok {
        return Failed(TransformFailed), planesOut;
      }
      ok := FilterPointCloud();
      if !ok {
        return Failed(EmptyAfterFiltering), planesOut;
      }
      status, planesOut := PeelPlanes(planes);
    }

    /** The `while (true)` loop of segmentMultiplePlane, entered with
        no_planes at 1 and a fresh plane message: it leaves cloud_filtered_,
        extract_ and the planes where the peel-off run from there ends. */
    method PeelPlanes(planes: seq<Plane>) returns (status: Status, planesOut: seq<Plane>)
      requires ValidLibrary(lib) && cfg.minPlaneSize != 0
      modifies this
      ensures var e := PeelOff(lib, cfg.multiDistThresh, SizeThreshold(cfg.minPlaneSize), PeelStart(old(Fields()), planes));
        && Fields() == old(Fields()).(filtered := e.last.cloud, negative := e.last.negative)
        && planesOut == e.last.planes
        && status == (if e.NoPlane? then Failed(NoPlaneFound) else Success)
    {
      planesOut := planes;
      ghost var start := PeelStart(Fields(), planes);
      var threshold := SizeThreshold(cfg.minPlaneSize);
      var msg := EmptyPlane;
      var noPlanes := 1;
      while true
        invariant PeelOff(lib, cfg.multiDistThresh, threshold, LoopState(cloudFiltered, noPlanes, msg, planesOut, extractNegative))
               == PeelOff(lib, cfg.multiDistThresh, threshold, start)
        invariant Fields() == old(Fields()).(filtered := cloudFiltered, negative := extractNegative)
        decreases |cloudFiltered|
      {
        var seg := lib.segment(cloudFiltered, cfg.multiDistThresh);
        if |seg.inliers| == 0 && noPlanes == 0 {
          return Failed(NoPlaneFound), planesOut;
        } else if |seg.inliers| < threshold {
          break;
        }
        ExtractRemoves(cloudFiltered, seg.inliers);
        msg, noPlanes, planesOut := AcceptPlane(seg, msg, noPlanes, planesOut);
      }
      status := Success;
    }

    /** The body of that loop once a plane is large enough: the plane message
        is filled in from the inliers, pushed, and the inliers are removed
        from cloud_filtered_. */
    method AcceptPlane(seg: Segmentation, msg: Plane, noPlanes: int, planes: seq<Plane>)
      returns (msg': Plane, noPlanes': int, planes': seq<Plane>)
      modifies this
      ensures LoopState(cloudFiltered, noPlanes', msg', planes', extractNegative)
           == Accept(lib, seg, LoopState(old(cloudFiltered), noPlanes, msg, planes, old(extractNegative)))
      ensures Fields() == old(Fields()).(filtered := cloudFiltered, negative := extractNegative)
    {
      extractNegative := false;
      var cloudPlane := Extract(cloudFiltered, seg.inliers, extractNegative);
      var hull := lib.hull(cloudPlane);
      var center := lib.centroid(hull);
      var bounds := lib.bounds(cloudPlane);
      msg' := msg.(cloud := cloudPlane, center := center, min := bounds.0, max := bounds.1);
      var polygon := AppendHull(msg'.polygon, hull);
      msg' := msg'.(polygon := polygon, coef := seg.coef, orientation := Some(Classify(seg.coef)));
      noPlanes' := noPlanes + 1;
      msg' := msg'.(size := |cloudPlane|);
      planes' := planes + [msg'];
      extractNegative := true;
      cloudFiltered := Extract(cloudFiltered, seg.inliers, extractNegative);
    }

    /** extractTabletop. */
    method ExtractTabletop() returns (status: Status)
      modifies this
      ensures Outcome(Fields(), status, ()) == Stages.ExtractTabletop(lib, old(Fields()))
    {
      var indices := lib.prism(cloudFiltered, cloudHull);
      tabletopIndices := indices;
      cloudTabletop := Extract(cloudFiltered, indices, extractNegative);
      if |cloudTabletop| == 0 {
        status := Failed(EmptyTabletop);
      } else {
        status := Success;
      }
    }

    /** clusterObjects; `objects` is the caller's vector, returned appended
        to. `project` only selected code that is commented out. */
    method ClusterObjects(frame: Option<Organized>, objects: seq<Object>, computeNormals: bool, project: bool)
      returns (status: Status, objectsOut: seq<Object>)
      modifies this
      ensures Outcome(Fields(), status, objectsOut) == Stages.ClusterObjects(cfg, lib, old(Fields()), frame, objects, computeNormals)
    {
      objectsOut := objects;
      var plane;
      status, plane := SegmentSinglePlane(frame, 'z', EmptyPlane);
      if status != Success {
        return;
      }
      status := ExtractTabletop();
      if status != Success {
        return;
      }
      var clusters := lib.cluster(cloudTabletop);
      if |clusters| == 0 {
        return Failed(NoClusters), objectsOut;
      }
      objectsOut := AppendClusterObjects(clusters, objects, computeNormals);
    }

    /** The per-cluster loop of clusterObjects: extract_ is set to keep the
        indexed points, and one object per cluster is appended, in cluster
        order. */
    method AppendClusterObjects(clusters: seq<set<int>>, objects: seq<Object>, computeNormals: bool) returns (objectsOut: seq<Object>)
      modifies this
      ensures Fields() == old(Fields()).(negative := if clusters == [] then old(extractNegative) else false)
      ensures objectsOut == objects + BuildObjects(lib, cloudTabletop, clusters, computeNormals)
    {
      objectsOut := objects;
      var k := 0;
      while k < |clusters|
        invariant 0 <= k <= |clusters|
        invariant Fields() == old(Fields()).(negative := if k == 0 then old(extractNegative) else false)
        invariant objectsOut == objects + BuildObjects(lib, cloudTabletop, clusters[..k], computeNormals)
      {
        extractNegative := false;
        var cluster := Extract(cloudTabletop, clusters[k], extractNegative);
        var normals: seq<Vec3> := [];
        if computeNormals {
          normals := lib.normals(cluster);
        }
        var center := lib.centroid(cluster);
        var segment := lib.maxSegment(cluster);
        var bounds := lib.bounds(cluster);
        var obj := Object(cluster, normals, segment.0, segment.1, center, bounds.0, bounds.1);
        assert clusters[..k + 1][..k] == clusters[..k];
        objectsOut := objectsOut + [obj];
        k := k + 1;
      }
      assert clusters[..k] == clusters;
    }

    /** get3DPoint; `point` is the caller's point, returned updated. */
    method Get3DPoint(frame: Option<Organized>, col: int, row: int, point: Vec3) returns (status: Status, pointOut: Vec3)
      modifies this
      ensures Outcome(Fields(), status, pointOut) == Stages.Get3DPoint(old(Fields()), frame, col, row, point)
    {
      pointOut := point;
      var ok := TransformPointCloud(frame);
      if !ok {
        return Failed(TransformFailed), pointOut;
      }
      if !PixelInRange(cloudTransformed, col, row) {
        return Threw, pointOut;
      }
      var p := At(cloudTransformed, col, row);
      if p.finite {
        pointOut := Vertex(p);
        status := Success;
      } else {
        status := Failed(InvalidPoint);
      }
    }

    /** getObjectFromBBox; `bbox` holds column, row, end column, end row. */
    method GetObjectFromBBox(frame: Option<Organized>, bbox: seq<int>, obj: Object) returns (status: Status, objOut: Object)
      requires |bbox| >= 4
      modifies this
      ensures Outcome(Fields(), status, objOut) == ObjectFromBBox(lib, old(Fields()), frame, bbox, obj)
    {
      objOut := obj;
      var ok := TransformPointCloud(frame);
      if !ok {
        return Failed(TransformFailed), objOut;
      }
      var scan := ScanRectangle(cloudTransformed, bbox[0], bbox[2], bbox[1], bbox[3]);
      if scan.Thrown? {
        return Threw, objOut;
      }
      var kept := RemoveOutliers(lib, scan.points);
      if |kept| == 0 {
        return Failed(EmptyAfterOutlierRemoval), objOut;
      }
      var bounds := lib.bounds(kept);
      objOut := objOut.(min := bounds.0, max := bounds.1, center := lib.centroid(kept));
      status := Success;
    }

    /** getObjectFromContour; pixel i is read as at(ys[i], xs[i]). */
    method GetObjectFromContour(frame: Option<Organized>, xs: seq<int>, ys: seq<int>, obj: Object) returns (status: Status, objOut: Object)
      requires |xs| <= |ys|
      modifies this
      ensures Outcome(Fields(), status, objOut) == ObjectFromContour(lib, old(Fields()), frame, xs, ys, obj)
    {
      objOut := obj;
      var ok := TransformPointCloud(frame);
      if !ok {
        return Failed(TransformFailed), objOut;
      }
      var scan := ScanContour(cloudTransformed, xs, ys);
      if scan.Thrown? {
        return Threw, objOut;
      }
      var bounds := lib.bounds(scan.points);
      objOut := objOut.(min := bounds.0, max := bounds.1, center := lib.centroid(scan.points));
      status := Success;
    }
  }
}
