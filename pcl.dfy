/** The PCL algorithms the pipeline calls but whose code is not part of this
    model, as oracles: RANSAC plane fitting, the 2D convex hull, the voxel grid,
    polygonal-prism extraction, Euclidean clustering, radius outlier removal,
    centroid, bounding box, maximum segment and normal estimation. Each is an
    arbitrary function; the only property assumed of any of them is that a
    segmentation's inliers are indices of the cloud it was given. */
module Pcl {
  import opened Clouds
  import opened Axes

  /** What SACSegmentation::segment fills in: the inlier indices and the plane. */
  datatype Segmentation = Segmentation(inliers: set<int>, coef: Coefficients)

  /** The configured PCL objects of a PointCloudProc. Configuration values that
      only parameterise one of them (prism height limits, cluster tolerance and
      size bounds, leaf size, outlier radius and neighbour count, normal
      neighbourhood size, RANSAC iteration cap) are part of that function. */
  datatype Library = Library(
    segment: (Cloud, real) -> Segmentation,   // seg_.segment at a distance threshold
    hull: Cloud -> Cloud,                     // chull_.reconstruct, dimension 2
    voxel: Cloud -> Cloud,                    // vg_.filter
    prism: (Cloud, Cloud) -> set<int>,        // prism_.segment(input, planar hull)
    cluster: Cloud -> seq<set<int>>,          // ec_.extract
    outlierKeep: Cloud -> set<int>,           // indices outrem_.filter keeps
    centroid: Cloud -> Vec3,                  // pcl::compute3DCentroid
    bounds: Cloud -> (Vec3, Vec3),            // pcl::getMinMax3D
    maxSegment: Cloud -> (Point, Point),      // pcl::getMaxSegment
    normals: Cloud -> seq<Vec3>)              // NormalEstimationOMP::compute

  /** RANSAC reports inliers among the points it was given. */
  ghost predicate ValidLibrary(lib: Library) {
    forall c: Cloud, dist: real, i: int :: i in lib.segment(c, dist).inliers ==> 0 <= i < |c|
  }

  /** removeOutliers: the points the radius outlier filter keeps, in input order. */
  function RemoveOutliers(lib: Library, c: Cloud): (r: Cloud)
    ensures IsSubsequence(r, c)
    ensures c == [] ==> r == []
  {
    ExtractIsSubsequence(c, lib.outlierKeep(c), false, 0);
    Extract(c, lib.outlierKeep(c), false)
  }
}
