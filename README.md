# point_cloud_proc in Dafny

A model of `PointCloudProc`, the tabletop-perception pipeline of
point_cloud_proc. The pipeline works in stages:

1. It transforms the sensor's organized point cloud into the fixed frame.
2. It crops that cloud to a box and voxelises it.
3. It segments one table plane, or peels off several planes one after another.
4. It extracts the prism of points above the table hull and clusters them into objects.
5. It can read single pixels, pixel rectangles or pixel contours from the organized cloud.

The object keeps its working clouds in fields. Each stage overwrites some of
them, and the stages exchange data only through those fields. The field that
matters most is the `negative` flag of the shared `ExtractIndices` object, which
persists from one stage to the next.

Files and modules:

- `clouds.dfy` (`Clouds`)
  - Points carry a finiteness flag; a cloud is a sequence of points.
  - Order-preserving subsequences.
  - The pass-through filters and the x-then-y-then-z crop.
  - `ExtractIndices`: keep the indexed points, or their complement when `negative` is set, in input order.
  - Organized clouds, with `PointCloud::at(col, row)` computed in 32-bit unsigned arithmetic.
- `axes.dfy` (`Axes`): the plane-normal classifier and the axis vector.
- `pcl.dfy` (`Pcl`): the PCL algorithms as oracles. These are the RANSAC segmenter, convex hull, voxel grid, prism, Euclidean clustering, outlier filter, centroid, bounding box, maximum segment and normals.
  - The one property assumed of them is that RANSAC's inliers are indices of its input cloud (`ValidLibrary`).
  - Index lists (RANSAC inliers, prism and cluster indices) are modelled as sets, so extraction keeps input order; this assumes PCL hands them over ascending and without duplicates, since a positive `ExtractIndices` follows the vector's order and repeats a duplicated index.
- `messages.dfy` (`Messages`)
  - The `Plane` and `Object` messages.
  - The stage statuses.
  - The hull-to-polygon loop.
- `peel.dfy` (`Peel`): the multi-plane peel-off loop as a function of its loop state, with what it guarantees.
- `pixels.dfy` (`Pixels`): the rectangle and contour scans, as specification functions and as the loops that compute them.
- `stages.dfy` (`Stages`)
  - Every stage as a function. It takes the fields it reads and returns the fields it writes, the status it returns, and the output argument it fills.
  - Lemmas on single stages and on sequences of stages.
- `proc.dfy` (`Proc`): the class `PointCloudProc`.
  - It has one field per working cloud and one for the `negative` flag.
  - Each method carries out its stage step by step.
  - Each method is proved to agree exactly with its function in `Stages`.

The model follows the code as written, including where it does something a reader might not expect:

- The contour scan does no outlier removal; that call is commented out. It also never fails once the transform has succeeded.
- `segmentSinglePlane` never sets the plane's orientation label.
- `segmentSinglePlane` never uses its axis argument.
- A negative `min_plane_size_` does not make the multi-plane loop accept everything. The comparison is done in `size_t`, so such a loop accepts nothing.

## Model

| member | source | states |
|---|---|---|
| Clouds.PassThrough | src/point_cloud_proc.cpp:104-115 | every point kept by one pass-through stage lies in that axis band and is finite; the stage never adds points |
| Clouds.Crop | src/point_cloud_proc.cpp:104-115 | the x, then y, then z pass-through chain keeps only points of its input that lie inside the box, and never adds points |
| Clouds.CropKeepsExactlyTheBox | src/point_cloud_proc.cpp:104-115 | a point survives the x, then y, then z crop iff it was in the input and lies inside all three limit bands |
| Clouds.CropIsSubsequence | src/point_cloud_proc.cpp:104-115 | the cropped cloud is an order-preserving subsequence of the input |
| Clouds.CropIdempotent | src/point_cloud_proc.cpp:104-115 | cropping the crop again with the same limits changes nothing |
| Clouds.CropEmptyIff | src/point_cloud_proc.cpp:104-122 | the crop is empty iff no input point lies in the box |
| Clouds.ExtractFrom | src/point_cloud_proc.cpp:425-427 | ExtractIndices from a given starting index: the output holds only input points and is no longer than the input |
| Clouds.Extract | src/point_cloud_proc.cpp:187-190 | ExtractIndices with the flag it was last given: the output holds only input points and is no longer than the input |
| Clouds.ExtractSplits | src/point_cloud_proc.cpp:307-310 | the kept and the complementary extraction have lengths and multisets that add up to the input |
| Clouds.ExtractIsSubsequence | src/point_cloud_proc.cpp:187-190 | an extraction, positive or negative, keeps input order |
| Clouds.ExtractCountsIndices | src/point_cloud_proc.cpp:307-310 | with in-range indices, the positive extraction has one point per index |
| Clouds.ExtractRemoves | src/point_cloud_proc.cpp:400-401 | with in-range indices, the plane gets the number of inliers in points and the remaining cloud loses exactly that many |
| Clouds.ExtractIgnoresOtherIndices | src/point_cloud_proc.cpp:425-427 | indices outside the cloud do not affect an extraction |
| Clouds.ExtractKeepsSelected | src/point_cloud_proc.cpp:425-427 | every point whose index is selected (not selected, when negative) is extracted |
| Clouds.ExtractOnlySelected | src/point_cloud_proc.cpp:425-427 | every extracted point sits at a selected index (a non-selected one, when negative) |
| Clouds.FlatIndex | src/point_cloud_proc.cpp:654-657 | `row * width + col` in unsigned 32-bit arithmetic: always below 2^32, and the plain value when it fits |
| Clouds.PixelInRange | src/point_cloud_proc.cpp:654-657 | `at(col, row)` returns only on a cloud with more than one row and at least one point |
| Clouds.At | src/point_cloud_proc.cpp:654-657 | a readable pixel is one of the cloud's points |
| Clouds.GridPixel | src/point_cloud_proc.cpp:654-658 | on a width-by-height organized cloud with more than one row, `at(col, row)` for an in-bounds pixel does not throw and reads `points[row * width + col]` |
| Axes.Classify | src/point_cloud_proc.cpp:370-391 | XAXIS iff 0.9<\|a\|<1.1, \|b\|<0.1, \|c\|<0.1; YAXIS and ZAXIS alike on b and c; NOAXIS iff none of these |
| Axes.BandsExclusive | src/point_cloud_proc.cpp:370-391 | no plane is aligned with two axes, so the order of the tests is irrelevant |
| Axes.ClassifySignInvariant | src/point_cloud_proc.cpp:370-391 | flipping the sign of a, b or c, or changing d, keeps the label |
| Axes.ClassifyExamples | src/point_cloud_proc.cpp:370-391 | (1,0,0)→X, (0,1,0)→Y, (0,0,±1)→Z, (0.57,0.57,0.57)→NOAXIS; \|a\|=0.9 and \|b\|=0.1 fall outside the bands |
| Axes.AxisVector | src/point_cloud_proc.cpp:160-168 | 'x', 'y', 'z' select the unit vector of that axis; any other character gives the zero vector |
| Pcl.RemoveOutliers | src/point_cloud_proc.cpp:132-139 | the outlier filter's output is an order-preserving subsequence of its input; the filter of an empty cloud is empty |
| Messages.AppendHull | src/point_cloud_proc.cpp:229-236 | the polygon after the loop is the polygon before it followed by one vertex per hull point, in hull order |
| Messages.Vertices | src/point_cloud_proc.cpp:229-236 | one polygon vertex per hull point, the i-th vertex holding the coordinates of the i-th hull point |
| Peel.SizeThreshold | src/point_cloud_proc.cpp:296 | `min_plane_size_` compared as size_t: positive values unchanged, 0 stays 0, a negative value becomes at least 2^64 - 2^31 |
| Peel.Accept | src/point_cloud_proc.cpp:307-401 | one accepted iteration pushes the message onto `planes`, counts it in no_planes, sets extract_ negative, splits the working cloud's points between the plane and the rest, and sizes the plane by its point count |
| Peel.PeelOff | src/point_cloud_proc.cpp:286-405 | the loop never grows the working cloud and never removes a plane; it can end at "no plane found" only when no_planes is 0, and then only in the state it started in if no_planes started non-negative |
| Peel.AcceptShrinks | src/point_cloud_proc.cpp:296-401 | an accepted iteration removes exactly its inliers from cloud_filtered_, so it strictly shrinks it |
| Peel.AcceptMovesInliers | src/point_cloud_proc.cpp:307-401 | one accepted iteration appends one plane and moves exactly its inliers out of the working cloud, keeping the rest in order |
| Peel.AcceptPushesPlane | src/point_cloud_proc.cpp:307-399 | one accepted iteration pushes the reused message, sized at least the threshold, labelled by Classify, its polygon the previous polygon followed by its hull |
| Peel.PeelOffAppends | src/point_cloud_proc.cpp:268-401 | the loop only appends to `planes`, counts each plane in no_planes, leaves extract_ negative once a plane is accepted, and leaves the reused message equal to the last plane pushed |
| Peel.PeelOffPartitions | src/point_cloud_proc.cpp:286-405 | the final cloud_filtered_ is an order-preserving subsequence of the initial one; its points plus the new planes' points are the initial cloud; each plane removes at least threshold points |
| Peel.PeelOffPlanes | src/point_cloud_proc.cpp:296-399 | every appended plane has size = its point count ≥ threshold, is labelled by Classify, and extends the previous plane's polygon by its own hull |
| Peel.ChainedCons | src/point_cloud_proc.cpp:354-360 | a plane extending the base polygon, put in front of a chain from its own polygon, gives a chain from the base |
| Peel.PolygonsAccumulate | src/point_cloud_proc.cpp:354-360 | because the message is never reset, the k-th plane of a chain has as polygon the base followed by the hulls of planes 0..k of the chain |
| Peel.NewPlanesAccumulate | src/point_cloud_proc.cpp:296-399 | every plane a run appends is sized and labelled, and its polygon is the entry polygon followed by the hulls of all new planes up to itself |
| Peel.PeelOffOnlyBreaks | src/point_cloud_proc.cpp:270-298 | with no_planes starting at 1, the "no plane found" return is unreachable; the loop ends only at the break, with the next candidate below threshold |
| Peel.PlaneCountBound | src/point_cloud_proc.cpp:286-401 | at most \|cloud\| / min_plane_size planes are produced |
| Peel.NegativeMinimumAcceptsNothing | src/point_cloud_proc.cpp:293-298 | a negative min_plane_size_ accepts no plane, for any cloud of fewer than 2^63 points |
| Peel.ZeroMinimumNeverExits | src/point_cloud_proc.cpp:286-401 | with min_plane_size_ = 0 the break is never taken; once the cloud is empty each iteration keeps it empty and pushes one more plane |
| Pixels.ScanColumn | src/point_cloud_proc.cpp:680-684 | one column's scan keeps only finite points, at most one per row |
| Pixels.ScanRect | src/point_cloud_proc.cpp:679-686 | the rectangle scan keeps only finite points |
| Pixels.ScanRectangle | src/point_cloud_proc.cpp:679-686 | the nested column-outer, row-inner loops compute the rectangle scan, including stopping at the first pixel `at` rejects |
| Pixels.ScanColumnFacts | src/point_cloud_proc.cpp:680-685 | one column's scan throws iff one of its pixels is out of range; otherwise it holds at most one point per row, all finite, exactly the finite pixels of the column |
| Pixels.ScanRectFacts | src/point_cloud_proc.cpp:679-686 | the rectangle scan throws iff the half-open rectangle leaves the cloud; otherwise it holds at most (bbox[2]-bbox[0])*(bbox[3]-bbox[1]) points, all finite, exactly the finite pixels of the rectangle |
| Pixels.ContourScan | src/point_cloud_proc.cpp:733-738 | the contour scan keeps only finite points, at most one per contour entry |
| Pixels.ScanContour | src/point_cloud_proc.cpp:733-738 | the contour loop computes the contour scan, reading pixel (ys[i], xs[i]) for each i of xs |
| Pixels.ContourScanFacts | src/point_cloud_proc.cpp:733-738 | the contour scan throws iff a listed pixel is out of range; otherwise at most \|xs\| points, all finite, exactly the finite listed pixels |
| Stages.Filter | src/point_cloud_proc.cpp:100-130 | filtering fails iff no transformed point lies in the pass box, and then leaves cloud_filtered_ empty; otherwise it is the voxelised crop; no other field changes |
| Stages.BuildObjects | src/point_cloud_proc.cpp:484-618 | one object per cluster |
| Stages.BuildObjectsClouds | src/point_cloud_proc.cpp:484-496 | the k-th object's cloud is the tabletop points of the k-th cluster |
| Stages.SegmentSingle | src/point_cloud_proc.cpp:141-250 | segmentSinglePlane leaves cloud_tabletop_ and tabletop_indicies_ alone; on failure it also leaves the message, cloud_hull_ and extract_ alone; on success the plane's size is its point count, at most that of cloud_filtered_ |
| Stages.SegmentMultiple | src/point_cloud_proc.cpp:252-413 | segmentMultiplePlane changes only cloud_transformed_, cloud_filtered_ and extract_, never returns "no plane found", and never shortens `planes` |
| Stages.ExtractTabletop | src/point_cloud_proc.cpp:415-437 | extractTabletop changes only cloud_tabletop_ and tabletop_indicies_, the tabletop keeps cloud_filtered_'s order, and it fails, as EmptyTabletop, exactly when the tabletop is empty |
| Stages.ClusterObjects | src/point_cloud_proc.cpp:439-625 | clusterObjects only appends to `objects`, appends nothing on failure, and on success appends at least one object and leaves extract_ positive |
| Stages.Get3DPoint | src/point_cloud_proc.cpp:645-664 | get3DPoint changes only cloud_transformed_ and writes the point only on success |
| Stages.ObjectFromBBox | src/point_cloud_proc.cpp:666-714 | getObjectFromBBox changes only cloud_transformed_, writes the object only on success, and never writes its cloud, normals or end points |
| Stages.ObjectFromContour | src/point_cloud_proc.cpp:716-767 | getObjectFromContour changes only cloud_transformed_, writes the object only on success, and never writes its cloud, normals or end points |
| Stages.SegmentSingleOutcome | src/point_cloud_proc.cpp:141-250 | fails exactly on transform failure, empty crop or empty inliers, leaving the message alone; on success size = point count = inliers ≥ 1, the cloud is an ordered subsequence of cloud_filtered_, cloud_hull_ is its hull, the polygon is the old polygon plus that hull, the orientation is untouched, extract_ is positive |
| Stages.SegmentMultipleOutcome | src/point_cloud_proc.cpp:252-413 | fails exactly on transform failure or an empty crop, and otherwise returns true even when no plane is found; never returns "no plane found"; only appends; appends nothing on failure; leaves cloud_hull_ alone; on success stops at a below-threshold candidate and leaves extract_ negative iff a plane was found or it already was |
| Stages.SegmentMultiplePlanes | src/point_cloud_proc.cpp:286-405 | every appended plane has size = point count ≥ threshold, label = Classify(coef), and polygon = hulls of the new planes up to it |
| Stages.SegmentMultiplePartitions | src/point_cloud_proc.cpp:286-405 | the remaining cloud_filtered_ is an ordered subsequence of the filtered cloud, together with the planes' points it is that cloud, and at most \|cloud\|/threshold planes are found |
| Stages.TabletopAfterMultiplePlanes | src/point_cloud_proc.cpp:400-427 | after a multi-plane run that found a plane, extractTabletop returns the filtered points outside the prism |
| Stages.TabletopAfterSinglePlane | src/point_cloud_proc.cpp:415-427 | after a single-plane run, extractTabletop returns exactly the filtered points inside the prism over that plane's hull |
| Stages.ClusterObjectsOutcome | src/point_cloud_proc.cpp:439-625 | fails iff plane segmentation, tabletop extraction or clustering fails, appending nothing; on success appends one object per cluster after the caller's objects, each an ordered subsequence of a positively extracted tabletop |
| Stages.Get3DPointOutcome | src/point_cloud_proc.cpp:645-664 | succeeds iff the pixel is readable and finite, returning its coordinates; throws iff `at` rejects the pixel; otherwise the point is left alone |
| Stages.Get3DPointOnGrid | src/point_cloud_proc.cpp:654-658 | on a well-formed organized cloud an in-bounds pixel never throws and is the point at row*width+col |
| Stages.ObjectFromBBoxOutcome | src/point_cloud_proc.cpp:666-714 | throws iff the rectangle leaves the cloud; on a readable rectangle, succeeds iff some scanned point survives outlier removal and otherwise fails for that reason; an empty rectangle fails; on success min, max and center summarise a non-empty outlier-free subsequence of exactly the rectangle's finite pixels, and nothing else is written |
| Stages.ObjectFromContourOutcome | src/point_cloud_proc.cpp:716-767 | never fails after a successful transform: throws iff a contour pixel is out of range, else summarises exactly the finite contour pixels, even none |
| Proc.PointCloudProc.constructor | src/point_cloud_proc.cpp:3-5 | all working clouds start empty and extract_ starts positive |
| Proc.PointCloudProc.TransformPointCloud | src/point_cloud_proc.cpp:59-98 | cloud_transformed_ is cleared, then set to the transformed cloud when the lookup succeeds; returns whether it did |
| Proc.PointCloudProc.FilterPointCloud | src/point_cloud_proc.cpp:100-130 | the three pass-through stages and the emptiness check before voxelising agree with Stages.Filter |
| Proc.PointCloudProc.SegmentSinglePlane | src/point_cloud_proc.cpp:141-250 | fields, status and plane message agree with Stages.SegmentSingle |
| Proc.PointCloudProc.SegmentMultiplePlane | src/point_cloud_proc.cpp:252-413 | the while(true) loop leaves fields, status and planes as Stages.SegmentMultiple (the peel-off function) says |
| Proc.PointCloudProc.PeelPlanes | src/point_cloud_proc.cpp:268-405 | started with no_planes = 1 and a fresh message, the while(true) loop leaves cloud_filtered_, extract_ and planes where Peel.PeelOff ends, fails as no-plane exactly when that run ends that way, and changes no other field |
| Proc.PointCloudProc.AcceptPlane | src/point_cloud_proc.cpp:305-401 | one accepted iteration leaves the message, no_planes, planes, cloud_filtered_ and extract_ as Peel.Accept says, and changes no other field |
| Proc.PointCloudProc.ExtractTabletop | src/point_cloud_proc.cpp:415-437 | tabletop_indicies_ and cloud_tabletop_ are the prism and its extraction under extract_'s current flag; fails iff empty |
| Proc.PointCloudProc.ClusterObjects | src/point_cloud_proc.cpp:439-625 | the per-cluster loop leaves fields, status and objects as Stages.ClusterObjects says |
| Proc.PointCloudProc.AppendClusterObjects | src/point_cloud_proc.cpp:484-618 | the per-cluster loop appends one object per cluster, in order, as Stages.BuildObjects builds them, and leaves extract_ positive once a cluster was extracted; no other field changes |
| Proc.PointCloudProc.Get3DPoint | src/point_cloud_proc.cpp:645-664 | agrees with Stages.Get3DPoint |
| Proc.PointCloudProc.GetObjectFromBBox | src/point_cloud_proc.cpp:666-714 | agrees with Stages.ObjectFromBBox |
| Proc.PointCloudProc.GetObjectFromContour | src/point_cloud_proc.cpp:716-767 | agrees with Stages.ObjectFromContour |

## Left out

- `pointCloudCb` and the inside of `transformPointCloud` (src/point_cloud_proc.cpp:52-98) are left out. The mutex, the polling wait on `pc_received_` and the tf lookup are concurrency and foreign calls. The transformed cloud, or the lookup's failure, is a parameter of each stage.
- The constructor's YAML loading and ROS setup (src/point_cloud_proc.cpp:7-48) are left out. The parameters are given as a `Config` and a `Library`.
- The PCL algorithms are oracles whose code is not part of this model. These are RANSAC, convex hull, voxel grid, prism, Euclidean clustering, radius outlier removal, normal estimation, centroid, bounding box and maximum segment.
  - RANSAC is randomised; it is modelled as a fixed function of the cloud and the threshold.
  - Parameters that only tune one algorithm are folded into it: `max_iter_`, `eps_angle_`, prism limits, cluster tolerance and sizes, leaf size, outlier radius and neighbours, `k_search_`.
- Coordinates and coefficients are reals, so float rounding is not modelled.
- Message headers, frame ids and timestamps are not modelled.
- The orientation quaternion of `clusterObjects` (src/point_cloud_proc.cpp:543-556, 597-600) is floating-point Eigen code, and the model does not compute it. It also has two defects:
  - it crosses `y_axis` with the uninitialised `x_axis` (line 549);
  - it puts `z_axis(1)` in the rotation's last cell (line 554).
- The pose position and `object_poses_rviz` are left out; the position duplicates `center`.
- `removeOutliers` is declared `bool` but returns nothing (src/point_cloud_proc.cpp:132-139). Only its output cloud is modelled.
- A centroid or bounding box of an empty contour cloud is whatever the oracle gives. PCL leaves the centroid unwritten in that case.
- The mesh routines, `projectPointCloudToPlane`, the getters, src/point_cloud_tools.cpp, debug publishing and the sleeps are not part of this model.
- Proc.PointCloudProc.SegmentMultiplePlane: requires `min_plane_size_ != 0`, because with 0 the loop never returns. Peel.ZeroMinimumNeverExits states the stall instead.
  - With 0, an empty inlier set is also accepted, and the code then reads `coefficients->values[0..3]` from an empty vector.
- Proc.PointCloudProc.SegmentMultiplePlane: `no_planes` is an unbounded integer. Its 32-bit overflow would need more than 2^31 planes, each of at least one point.
- Proc.PointCloudProc.GetObjectFromBBox: `bbox` is a sequence of at least four ints. `int *bbox`'s array bound is the caller's obligation and is not checked by the code.
- Proc.PointCloudProc.GetObjectFromContour: requires `contour_y` to be at least as long as `contour_x`. The code indexes `contour_y` by the positions of `contour_x` without a check.
- An exception thrown by `PointCloud::at` escapes the stage and is not modelled beyond the `Threw` status: the exception is modelled as that status, with the fields as they were when it was thrown. This covers both the unorganized-cloud error and `std::out_of_range`.
