/** The messages the pipeline fills in (point_cloud_proc::Plane and
    point_cloud_proc::Object, headers omitted) and its outcomes. */
module Messages {
  import opened Clouds
  import opened Axes

  /** A segmented plane. `orientation` is None while it still has the message's
      default value, which segmentSinglePlane never overwrites. */
  datatype Plane = Plane(
    cloud: Cloud,
    center: Vec3,
    min: Vec3,
    max: Vec3,
    polygon: seq<Vec3>,
    coef: Coefficients,
    orientation: Option<Orientation>,
    size: int)

  const Origin: Vec3 := Vec3(0.0, 0.0, 0.0)

  /** A default-constructed Plane message. */
  const EmptyPlane: Plane := Plane([], Origin, Origin, Origin, [], Coefficients(0.0, 0.0, 0.0, 0.0), None, 0)

  /** A tabletop object: its points, optional normals, the maximum segment's end
      points, its centroid (also the pose position) and its bounding box. */
  datatype Object = Object(
    cloud: Cloud,
    normals: seq<Vec3>,
    pmin: Point,
    pmax: Point,
    center: Vec3,
    min: Vec3,
    max: Vec3)

  /** Why a stage returned false. */
  datatype Failure =
    | TransformFailed           // transformPointCloud returned false
    | EmptyAfterFiltering       // no point survived the crop
    | NoInliers                 // single-plane RANSAC found no inliers
    | NoPlaneFound              // the multi-plane "no plane found" return
    | EmptyTabletop             // the prism held no point
    | NoClusters                // clustering found no cluster
    | InvalidPoint              // the pixel holds a non-finite point
    | EmptyAfterOutlierRemoval  // nothing in the box survived outlier removal

  /** Success is `return true`; Threw is an exception from PointCloud::at
      (an unorganized cloud, or an index past the end), which nothing catches. */
  datatype Status = Success | Failed(reason: Failure) | Threw

  /** The geometry_msgs::Point32 a hull point is copied into. */
  function Vertex(p: Point): Vec3 {
    Vec3(p.x, p.y, p.z)
  }

  /** The polygon vertices of a hull: one per hull point, in hull order. */
  function Vertices(hull: Cloud): (v: seq<Vec3>)
    ensures |v| == |hull|
    ensures forall i :: 0 <= i < |hull| ==> v[i] == Vertex(hull[i])
    decreases |hull|
  {
    if hull == [] then [] else Vertices(hull[..|hull| - 1]) + [Vertex(hull[|hull| - 1])]
  }

  /** The polygon loop of both plane segmentations: one vertex per hull point,
      appended to whatever the polygon already holds. */
  method AppendHull(polygon: seq<Vec3>, hull: Cloud) returns (r: seq<Vec3>)
    ensures r == polygon + Vertices(hull)
  {
    r := polygon;
    var i := 0;
    while i < |hull|
      invariant 0 <= i <= |hull|
      invariant r == polygon + Vertices(hull[..i])
    {
      assert hull[..i + 1][..i] == hull[..i];
      r := r + [Vertex(hull[i])];
      i := i + 1;
    }
    assert hull[..|hull|] == hull;
  }
}
