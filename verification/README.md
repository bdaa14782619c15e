# Verification of the DB1 SDK's geometry, semantic streams and container framing

This project models the parts of the SDK whose correctness is least visible from the code and
proves what they promise. It follows the program's own structure: loops are loops, readers and
builders are classes that change their fields, and each of them is proved against a
specification about which the laws are then proved.

* **Mesh construction.** Ear clipping of contours (`Triangulation`), faces with holes
  (`FaceTriangulation`, `FaceBridging`, `FaceProjection`, `FaceLaws`), plates and straight
  members (`Prisms`, `PrismCoordinates`), members swept along paths (`Sweeps`, `SweepPaths`,
  `SweepCoordinates`), round members (`RoundMeshes`), plates lofted between rails
  (`LoftPlates`, `LoftRails`, `LoftLaws`), weld fillets (`Welds`), trimming of Boolean
  operands (`SweepTrim`) and the volume of a mesh (`MeshVolume`). "Closed oriented surface"
  means that every directed edge of the index buffer occurs exactly once and so does its
  reverse.
  `MeshTopology`, `RingChains` and `MeshIndices` hold the theory: a chain of rings joined by
  quad strips, capped by triangulated discs or bent back into a ring.
* **Boolean request graphs.** `OperationPlans` chooses the operands of an object,
  `OperandSelection` and `FittingPlanes` say which from the operations and vertices alone,
  `OperationGraph` is the recursive builder with its sharing, active set and limits, and
  `OperationMeaning` relates a built graph to the unshared expansion of the operations.
* **Semantic streams.** `SemanticRelations` is the relation stream as one unbatched pass,
  `RelationReader` the seven-phase batched machine, `RelationLists` the building of its input,
  `RelationLaws`/`RelationRuns` the laws of every stream, and `RelationOrigins` where its
  relations come from. `PropertyWinners` and
  `PropertyReader` treat attribute values the same way; `Batches` is what both share, and
  `StoredStreams` runs both over the tables of an accepted payload. `PropertyLaws` says which
  property an object ends up with.
* **Evaluation cache.** `Placements`, `EvaluationRequests`, `EvaluationCache` and
  `CacheSharing`.
* **Container.** `Container` parses, `ContainerLaws` says what accepted bytes hold, and
  `ContainerRoundTrip` writes and reads back.
* **Reinforcement.** `Budgets`, `LinkedRows`, `Spacing`, `PolylineOffsets`, `PolylineLaws`,
  `BentMeshes`, `BentMeshLaws`.

Numbers that the program holds as `double` or `float` are exact reals, so rounding is the
identity and every finiteness check passes. Tolerances keep their values and are named
constants. Vertex coordinates that the program keeps as XYZ triples are vectors here.

## What the proofs found

* A sweep does not turn a clockwise outline around, although a straight member does.
  `Sweeps.SweepIsClosed` gives the exact condition for a sweep to be a closed oriented
  surface. The outline of an irregular section is clockwise, so
  `Sweeps.IrregularSweepIsOpen`: swept along any path, with any dimensions, it is not closed.
* A hollow section whose loops differ in length is left without rims, so the member and the
  sweep are open. The two circles of a catalog tube are divided separately;
  `Sweeps.UnevenTubeIsOpen`: a tube is closed if and only if both take the same number of
  corners, and one of diameter 100 and wall 10 takes 20 and 16.
* The rims of a round member with a capped end run along its outer wall in the same direction,
  so such a member is never a closed oriented surface; without a cap it always is
  (`RoundMeshes.RoundIsClosed`).
* When a row cannot be read, the batch being filled is dropped. By itself a reader therefore
  delivers the same for every batch size if and only if no row fails or nothing precedes the
  first failure (`Batches.SteadyIffNothingLost`), and it fails exactly at unreadable rows
  (`StoredStreams.FailsIffUnreadable`, `PropertyReader.FailsIffUnreadable`).
  `StoredStreams.BrokenInputIsUnsteady` is an input on which the batch size matters. No
  accepted payload gives such an input: all its rows have whole records
  (`StoredStreams.AcceptedRecordsAreWhole`), so for the streams of a model the batch size never
  matters (`StoredStreams.StreamRelations`, `StoredStreams.StreamProperties`).
* Spacing type 6 returns three bars under a limit of two when the length is below the target
  (`Spacing.ThreeBarsUnderTwo`). Under the limits the program passes, which are at least one,
  this is the only overstep (`Spacing.PositiveLimitFits`). Called with a limit of none, which
  src/nonpart_geometry.cpp:2697 rules out, the function alone would also give one bar to a group
  without length (`Spacing.SuccessFits`, `Spacing.OneBarUnderNone`).

## Model

| member | source | states |
|---|---|---|
| Triangulation.ComputeSignedArea | src/geometry.cpp:1050-1058 | The loop computes the shoelace area, signed by the winding |
| Triangulation.Triangulate | src/geometry.cpp:1205-1243 | The loop over the shrinking vertex list is first-ear clipping from the counter-clockwise order, and fails exactly when an ear is missing |
| Triangulation.FindEar | src/geometry.cpp:1216-1239 | The first cursor that is strictly convex and whose triangle holds no other remaining vertex |
| Triangulation.SomeBlocks | src/geometry.cpp:1224-1233 | Whether any remaining vertex apart from the ear's own lies in its triangle, borders included up to the tolerance |
| Triangulation.ClippedDisc | src/geometry.cpp:1234-1241 | Putting an ear back on a polygon triangulated as an oriented disc gives an oriented disc |
| Triangulation.EarsFormDisc | src/geometry.cpp:1205-1243 | The triangles are two fewer than the vertices, and their directed edges are the boundary cycle plus opposite pairs |
| Triangulation.EarsConserveArea | src/geometry.cpp:1205-1243 | The signed areas of the triangles add up to that of the polygon |
| Triangulation.TriangulationIsSound | src/geometry.cpp:1205-1243 | For every accepted contour: n-2 triangles in range, tiling it counter-clockwise, with areas adding up to the absolute contour area |
| Triangulation.TrianglesCoverNoCorner | src/geometry.cpp:1191-1239 | In every triangulation each triangle but the last winds counter-clockwise by more than the tolerance, and every corner of a later triangle that is not its own lies more than the tolerance outside one of its edges |
| Triangulation.RefusedContoursStick | src/geometry.cpp:1214-1240 | A contour of three or more vertices is refused only where clipping leaves more than three, every one flat, turning right, or with another remaining vertex in its triangle |
| Prisms.ExtrudeContour | src/geometry.cpp:1823-1853 | Builds exactly the two rings and the capped walls of the contour, or nothing when the triangulator refuses it |
| Prisms.ContourMeshIsClosed | src/geometry.cpp:1823-1853 | Every plate that is built is a closed oriented surface over its own vertices |
| Prisms.NormalizedArea | src/geometry.cpp:1823-1830 | Turning a clockwise contour around makes its signed area its absolute area, and the triangulator then starts in stored order |
| PrismCoordinates.PlateVertices | src/geometry.cpp:1823-1840 | In an orthonormal frame a plate has every contour point twice, half its thickness below and above the plane, counter-clockwise |
| Prisms.Extrude | src/geometry.cpp:1467-1552 | Builds exactly the vertices and the index buffer of the straight member, solid or hollow |
| PrismCoordinates.MemberVertices | src/geometry.cpp:1476-1510 | In an orthonormal frame a member has its outline at the origin and at its length along the first axis, and behind them its inner loop likewise |
| Prisms.MemberIsClosed | src/geometry.cpp:1467-1552 | A member is a closed oriented surface if and only if its outline is triangulable (solid) or its loops have equal length (hollow) |
| Sweeps.Sweep | src/geometry.cpp:2050-2105 | Builds exactly one ring per station, the walls between them and the end caps or rims |
| Sweeps.SolidSweepIsClosed | src/geometry.cpp:2059-2091 | Walls over any number of stations closed by an oriented disc at either end form a closed oriented surface |
| Sweeps.HollowSweepIsClosed | src/geometry.cpp:2059-2102 | Outer walls, inner walls and two rims form a closed oriented surface when the loops have equal length |
| Sweeps.SweepIsClosed | src/geometry.cpp:2059-2102 | The exact condition for a sweep to be closed, both ways: a solid without inner loop, capped by a stored disc or by the triangulation of a counter-clockwise outline, or a hollow section with equal loops |
| Sweeps.ClockwiseSweep | src/geometry.cpp:2080-2091 | A cap triangulated from a clockwise outline leaves every sweep open |
| Sweeps.StoredCapCloses | src/geometry.cpp:2080-2091 | A stored cap closes a sweep if and only if it is a disc over the outline; the cap of an angle section always does |
| Sweeps.ClosingCapIsDisc | src/geometry.cpp:2080-2091 | Any cap that closes a sweep is a disc over the outline |
| Sweeps.InnerLoopStaysOpen | src/geometry.cpp:2070-2091 | A solid section with an inner loop leaves the walls of that loop open |
| Sweeps.IrregularSweepIsOpen | src/geometry.cpp:1011-1020 | Sweeping the irregular section along any path leaves it open, whatever its dimensions |
| Sweeps.AngleCapIsDisc | src/geometry.cpp:1031-1037 | The only stored cap is an oriented disc over the six corners of the angle section |
| Sweeps.UnevenTubeIsOpen | src/profile.cpp:79-186 | A catalog tube is closed, straight or swept, if and only if its two circles take equally many corners |
| SweepPaths.SweepPath | src/geometry.cpp:1985-2105 | Finds the tangents, carries the axes, widens the corners and builds the sweep of exactly these stations; fails exactly when a direction or axis is missing |
| SweepPaths.CarriedFrames | src/geometry.cpp:2015-2032 | At every station the carried axes are unit vectors across the path and each other, and never turn over |
| SweepCoordinates.TangentsFollowLegs | src/geometry.cpp:1989-1995 | Every tangent is the unit vector along its leg |
| SweepCoordinates.DirectionBisects | src/geometry.cpp:2016-2021 | A ring stands across the first or last leg at the ends of the path, and makes equal angles with both legs in between |
| SweepCoordinates.AxesStart | src/geometry.cpp:1996-2001 | At the start the second axis has nothing of the given first one and is not turned from the given second one |
| SweepCoordinates.AxesFollow | src/geometry.cpp:2022-2032 | The axes at a station are fixed by laws alone: unit, across the path and each other, right-handed, not turned over, the second across the previous first |
| SweepPaths.RingIsAcross | src/geometry.cpp:2033-2056 | Every point of a ring, widened or not, lies in the plane through its station across the path |
| SweepCoordinates.RingHasSection | src/geometry.cpp:2033-2056 | Every vertex of the mesh has its section point's coordinates along the carried axes, outer loop first; in a bend the one widened coordinate is divided by the cosine |
| SweepCoordinates.PathsAreRefused | src/geometry.cpp:1985-2032 | A path is refused exactly for fewer than two points, a leg too short, a first axis that vanishes across the first leg, or a station where the legs cancel or the carried axis vanishes |
| SweepCoordinates.StartsExist | src/geometry.cpp:1989-2001 | Tangents exist exactly where every leg is long enough, and the first axes exactly where the given one does not vanish across the first leg |
| SweepPaths.PathSweepIsClosed | src/geometry.cpp:1985-2105 | For every path the sweep is a closed oriented surface if and only if its section allows it |
| RoundMeshes.FanIsDisc | src/geometry.cpp:1699-1706 | A fan from the first vertex triangulates the disc bounded by its ring |
| RoundMeshes.BuildRound | src/geometry.cpp:1680-1719 | Builds exactly the walls, and the fans or the folded end, of a round member |
| RoundMeshes.RoundIsClosed | src/geometry.cpp:1680-1719 | A round member is a closed oriented surface if and only if its end is not capped |
| LoftPlates.LoftPlate | src/geometry.cpp:1800-1821 | Builds exactly the four vertices per station and the quads between and across stations |
| LoftPlates.LoftPlateIsClosed | src/geometry.cpp:1806-1821 | Every lofted plate of at least two stations is a closed oriented surface |
| LoftRails.Loft | src/geometry.cpp:1734-1821 | Places and measures the rails, pairs them at their merged parameters and builds the plate; it exists exactly when thickness, rails and normals do, and is then a closed oriented surface |
| LoftRails.SortedIsPermutation | src/geometry.cpp:1762-1764 | Sorting the parameters ascends and neither loses nor invents one |
| LoftRails.ParametersSpan | src/geometry.cpp:1752-1768 | The kept parameters rise by more than the tolerance from the start to the end of the rails, so there are at least two stations |
| LoftRails.PlateIsThick | src/geometry.cpp:1788-1804 | At every station the plate has the asked thickness, across the line between the rails |
| LoftLaws.PlateIsThickened | src/geometry.cpp:1788-1804 | The thickness lies across the way from the rung before to the rung after, on the side that makes way, rung and offset right-handed |
| LoftLaws.RefusedPlatesAreFlat | src/geometry.cpp:1734-1801 | A plate of positive thickness between rails of some length is refused exactly where the way along the pairs and a rung have no direction across them |
| LoftLaws.ParametersAreShares | src/geometry.cpp:1751-1768 | The rails are paired only at shares of their own points, and every point of either rail is met at or closely behind a parameter |
| LoftLaws.SampleIsAtParameter | src/geometry.cpp:1769-1782 | Every sampled point lies on its rail where the rail has run the parameter's share of its length, to within the tolerance |
| MeshVolume.ComputeVolume | src/geometry.cpp:2794-2811 | The loop computes the absolute sum of signed wedges from the first vertex |
| MeshVolume.PlateVolume | src/geometry.cpp:1823-1853 | A plate's signed volume is the same against every one of its vertices, in any frame |
| MeshVolume.PlateVolumeIsAreaTimesThickness | src/geometry.cpp:2794-2811 | In an orthonormal frame the reported volume of a plate is its contour area times its thickness |
| SweepTrim.TrimToRelevance | src/geometry.cpp:3715-3819 | The code computes the trimmed mesh of the specification, leaving meshes of any other shape alone |
| SweepTrim.FindHits | src/geometry.cpp:3743-3774 | The first and the last segment whose bounds come near the region |
| SweepTrim.TrimmedSweepIsSweep | src/geometry.cpp:3715-3819 | A trimmed sweep is the very mesh of sweeping the retained stations; every segment near the region is retained, with one segment of clearance on either side and no more |
| Welds.ValueCursor.Next | src/nonpart_geometry.cpp:1236-1252 | Yields the flattened rows one value at a time, empty rows included |
| Welds.PlanSweep | src/nonpart_geometry.cpp:1380-1435 | A plan exists if and only if size, count, frames, ends and addressability are all sound, and its numbers are exact |
| Welds.FitsByVertices | src/nonpart_geometry.cpp:1386-1405 | The size checks reduce to one: the last vertex of the sweep keeps a 32-bit index |
| Welds.WeldMesh.AppendSweep | src/nonpart_geometry.cpp:1437-1483 | Adds exactly the planned positions and indices; every frame it uses was validated by the plan |
| Welds.WeldIsClosed | src/nonpart_geometry.cpp:1470-1483 | One weld is a closed surface over the vertices it adds |
| Welds.WeldsStayClosed | src/nonpart_geometry.cpp:1452-1483 | A mesh that is a closed oriented surface stays one after any further weld, indices in range |
| FaceTriangulation.IsInsidePolygon | src/shape.cpp:188-205 | The scan tells whether the ray crosses the ring an odd number of times |
| FaceLaws.RayMeetsEdge | src/shape.cpp:189-205 | An edge is crossed exactly when one end alone is above the point and the edge lies to the right of it at its height |
| FaceLaws.IntersectsIffMeet | src/shape.cpp:168-187 | In general position the intersection test says exactly whether two segments have a point in common |
| FaceLaws.TouchingIsSeen | src/shape.cpp:168-174 | An end that lies on the other segment is always seen |
| FaceLaws.OnSegmentIsNear | src/shape.cpp:168-174 | A point counts as on a segment exactly when it is on its line and in no coordinate beyond both ends, to within epsilon |
| FaceTriangulation.BridgeSum | src/shape.cpp:282-296 | Walking a bridge into a hole and back keeps every edge of both rings and adds the bridge once each way |
| FaceTriangulation.EarClip | src/shape.cpp:301-363 | The loop clips first ears, or drops first flat corners when no ear is left, and fails only when there is neither |
| FaceTriangulation.ClippingAccounts | src/shape.cpp:301-363 | Kept and dropped triangles together account for every antisymmetric quantity of the polygon's edges, and number two fewer than its corners |
| FaceTriangulation.DroppedAreFlat | src/shape.cpp:343-361 | Every dropped corner spans at most epsilon |
| FaceLaws.KeptCoverNoCorner | src/shape.cpp:309-341 | Every kept triangle but the last winds counter-clockwise by more than epsilon, and no later kept triangle has a corner in it other than at its own corners |
| FaceLaws.DiagonalIsFree | src/shape.cpp:316-327 | The diagonal of an ear has no point in common with a step of the polygon in general position that ends elsewhere, nor with an end of it |
| FaceLaws.RefusedFacesStick | src/shape.cpp:309-357 | A polygon is refused only where dropping vertices leaves more than three, none flat and each turning right, with its diagonal cut, or with a vertex in its triangle |
| FaceTriangulation.ClippedArea | src/shape.cpp:301-363 | Twice the area is kept up to one epsilon for every dropped corner |
| FaceTriangulation.LoopAreaIsDouble | src/shape.cpp:152-161 | The edge sum used for faces is the shoelace area |
| FaceBridging.IsVisible | src/shape.cpp:247-275 | A candidate bridge is inside the outline, outside every hole, and free of edges and earlier bridges |
| FaceBridging.FindNearest | src/shape.cpp:243-281 | The nearest visible outline position, the first of equals |
| FaceBridging.BridgeHoles | src/shape.cpp:214-299 | The loop joins the holes, furthest right first, each at its nearest visible position |
| FaceBridging.BridgingAddsOpposites | src/shape.cpp:214-299 | The joined polygon has exactly the edges of the outline and the holes, and every bridge once each way |
| FaceLaws.ByReachDescends | src/shape.cpp:225-233 | The holes are joined from the one that reaches furthest right on, none lost and none invented |
| FaceLaws.VisibleInCoordinates | src/shape.cpp:247-275 | A bridge is visible exactly when its ends are apart, its middle is inside the outline and outside every hole, and no edge that ends elsewhere and no bridge intersects it |
| FaceLaws.NearestIsNearest | src/shape.cpp:276-281 | A hole is joined to a visible vertex, and no visible one is nearer |
| FaceLaws.BridgesRunClear | src/shape.cpp:234-296 | Every bridge starts at the rightmost, lowest vertex of its hole and intersects no step of any ring that ends elsewhere, and no earlier bridge |
| FaceBridging.FaceIsBounded | src/shape.cpp:389-404 | Kept and dropped triangles together are bounded by exactly the outline and the holes |
| FaceBridging.TriangulateFlat | src/shape.cpp:389-404 | Succeeds exactly when all loops have three corners, every hole can be joined and the polygon clipped; the triangles keep the outline's area less the holes' up to epsilon/2 for every dropped corner, and their number is accounted for |
| FaceProjection.NormalIsArea | src/shape.cpp:369-376 | The components of the normal are the doubled signed areas of the three projections |
| FaceProjection.TriangulateFace | src/shape.cpp:365-404 | Projects along the longest component of the normal, refuses exactly a face whose normal is too short or whose projection cannot be triangulated, and keeps the area of the projection |
| OperationPlans.GatherOperands | src/geometry.cpp:3998-4050 | Each Boolean target counts once; additions widen the bounds, incomplete operands are omitted |
| OperationPlans.ByVolumeIsPermutation | src/geometry.cpp:4092-4099 | Sorting operands by volume loses and invents none (the order itself is in the sort's contract) |
| OperationPlans.PlanOperands | src/geometry.cpp:3998-4099 | Gathering, pruning, trimming, widening and sorting give the additions and cutters of the specification |
| OperandSelection.AdditionsAreStated | src/geometry.cpp:4015-4046 | An object that is no Boolean cut adds exactly the operands its operations state: the first Boolean operation of a target decides, and its mesh must be there and have vertices |
| OperandSelection.CutterIsTaken | src/geometry.cpp:4051-4067 | A gathered cutter is never taken when along some axis all its vertices lie more than a thousandth above, or all below, every vertex of the host and its additions; without a recipe it is taken if and only if no axis does so and it has triangles |
| OperandSelection.CuttersAreStated | src/geometry.cpp:4051-4085 | Every cutter taken is a stated one that meets the host or its additions, widened by a thousandth among siblings of one size and by a hundred-thousandth otherwise |
| OperandSelection.ByVolumeIsStable | src/geometry.cpp:4092-4099 | Operands of one size keep the order of their operations |
| OperandSelection.ChamfersAreStated | src/geometry.cpp:4130-4153 | The chamfer cutters are those of the operations of kind 79 |
| OperationPlans.MergePlane | src/geometry.cpp:4172-4187 | A fitting replaces the first one with the same normal only when it is later |
| FittingPlanes.MergedPlanes | src/geometry.cpp:4172-4187 | A fitting takes the place of the first one of its normal if its event, or its relation within the event, is later, and joins when there is none; a line cut always joins |
| FittingPlanes.PlaneIsOffered | src/geometry.cpp:4154-4171 | A line cut offers the reversed plane of its target, a fitting the one that has the middle of the host in front of it |
| FittingPlanes.MiddleOfVertices | src/geometry.cpp:3980-3994 | The middle lies halfway between the lowest and the highest coordinates of the vertices |
| FittingPlanes.KeptAreOffered | src/geometry.cpp:4126-4191 | Every kept plane is offered by some operation |
| FittingPlanes.LatestIsKept | src/geometry.cpp:4126-4191 | The planes of all line cuts are kept, and of the fittings of one normal the latest |
| OperationPlans.ChildrenAreFew | src/geometry.cpp:3954-4193 | An object never has more children than persisted operations |
| OperationPlans.TargetsApplyOnce | src/geometry.cpp:4015-4021 | No target is applied twice, be it by adding or by cutting |
| OperationGraph.EdgesAreCharged | src/geometry.cpp:3977-3982 | The edges of a graph never exceed those charged, which the edge limit bounds |
| OperationGraph.Graph.Append | src/geometry.cpp:3870-3953 | Every exit restores the active set and keeps all invariants; each error has its exact cause: depth, cycle, nodes, bytes or edges; a success is a completed node of the same object and source, offered for sharing, and a repeated operand adds nothing |
| OperationGraph.Graph.FindShared | src/geometry.cpp:3902-3921 | Finds a candidate if and only if the table offers a node of the same object and source, and it is then completed |
| OperationGraph.Graph.Enlist | src/geometry.cpp:3922-3937 | A node is added if and only if it is within the node and byte limits, and nothing changes otherwise |
| OperationGraph.Graph.AppendOperands | src/geometry.cpp:4100-4124 | Successful operands are linked in order and failed ones omitted; without failures the children are exactly the operands |
| OperationGraph.Graph.ApplyDirect | src/geometry.cpp:4130-4188 | The chamfers are cut and the planes collected in order; the node fails only when a chamfer has no room, and that is counted |
| OperationGraph.Graph.Seal | src/geometry.cpp:4192-4193 | Completing a node keeps the order of completion, so every edge still leads to an earlier completed node |
| OperationMeaning.PathDescends | src/geometry.cpp:3954-4193 | No path of a request graph returns to its start, although a child's index may be smaller or larger than its parent's |
| OperationMeaning.NodeMeansExpansion | src/geometry.cpp:3870-4193 | If sources decide plans and nothing was cut short, a completed node denotes the unshared expansion at every depth above its completion rank |
| OperationMeaning.OperandBases | src/geometry.cpp:3884-3952 | Every operand stands for the base it is recognised by: its sweep, else its prism, else its mesh; always its mesh when faceted |
| OperationMeaning.BuildRequest | src/geometry.cpp:4201-4216 | The root of every built request is node zero, its graph acyclic and within the node, edge and byte limits; with no context-dependent failure it denotes the unshared expansion; a request is refused exactly for the bytes of its mesh or the number of its operations, or for a chamfer of the root without room |
| OperationMeaning.EqualMeshesDecide | src/geometry.cpp:3908-3919 | It is enough for sharing that equal sources imply equal meshes |
| RelationReader.Reader.constructor | src/semantic.cpp:440-470 | A new reader has the whole one-pass stream ahead of it |
| RelationReader.Reader.AppendSubelement | src/semantic.cpp:523-547 | Emits a child once per pair with the parent's next ordinal, as the one-pass step does |
| RelationReader.Reader.AppendHosted | src/semantic.cpp:549-570 | Records the pair first and takes it back when the kinds do not fit, with the effect of not recording it |
| RelationReader.Reader.ReadStored | src/semantic.cpp:598-626 | One relation row moves its event from the pending stream to the batch; an unreadable row fails |
| RelationReader.Reader.EmitAssemblies | src/semantic.cpp:628-667 | The phase may stop at the main member or at any member and resumes there |
| RelationReader.Reader.EmitSplices | src/semantic.cpp:686-703 | The phase may stop between the two ends of a splice and resumes at the second |
| RelationReader.Reader.EmitPhase | src/semantic.cpp:474-492 | Every phase fills the batch or moves to a later phase, and what is emitted plus what is pending never changes |
| RelationReader.Reader.Next | src/semantic.cpp:472-498 | The batch followed by what is now pending is what was pending; a batch is never empty and short only at the end; it terminates by phase and room |
| RelationReader.Drain | src/semantic.cpp:472-498 | Draining gives the one-pass stream for every batch size, and on an unreadable row the longest run of whole batches before it; it fails if and only if the stream does |
| Batches.SteadyIffNothingLost | src/semantic.cpp:472-498 | What a consumer receives is the same for every batch size if and only if no row fails or nothing precedes the first failure |
| StoredStreams.FailsIffUnreadable | src/semantic.cpp:598-751 | A relation stream fails if and only if a row of the relation or the joint table cannot be read |
| StoredStreams.BrokenInputIsUnsteady | src/semantic.cpp:598-609 | One relation row outside the payload, after one emitted child, makes the batch size matter |
| StoredStreams.AcceptedRecordsAreWhole | src/container.cpp:278-348 | In an accepted payload every row of every table has a full-size record |
| StoredStreams.TablesAreRead | src/container.cpp:278-288 | A table is read if and only if the payload has one at its place, and every row of it is decoded from its own bytes |
| StoredStreams.StoredRelationsAreSteady | src/semantic.cpp:472-751 | A relation stream over an accepted payload never fails and does not depend on the batch size |
| StoredStreams.StreamRelations | src/semantic.cpp:3108-3391 | Inspecting a payload, building the lists and draining gives the whole one-pass stream of what its tables state, for every batch size |
| StoredStreams.StoredPropertiesAreSteady | src/semantic.cpp:285-332 | A property stream over an accepted payload never fails and does not depend on the batch size |
| StoredStreams.SourcesAreLinkTables | src/semantic.cpp:2942-2966 | The sources are exactly the link tables that hold rows, in their order, with all their rows |
| StoredStreams.StreamProperties | src/semantic.cpp:2970-3001 | Listing the link tables of a payload and draining gives the whole one-pass stream of properties, for every batch size |
| RelationLaws.EndpointsAreLive | src/semantic.cpp:512-521 | Every emitted relation joins two distinct live model elements |
| RelationLaws.RelationsAreDistinct | src/semantic.cpp:523-588 | No kind, source, target and origin occur together twice |
| RelationLaws.ChildOrdinalsCount | src/semantic.cpp:523-547 | The n-th child of a parent has ordinal n |
| RelationLaws.ChildOrdinalsFit | src/semantic.cpp:523-547 | Child ordinals stay below the number of live objects |
| RelationLaws.MemberOrdinalsCount | src/semantic.cpp:628-667 | Ordinal 0 is the main member's alone; the other members of an assembly count 1, 2, and so on |
| RelationLists.ListObjects | src/semantic.cpp:3183-3208 | One object for every shown id, its first row; members are listed by assembly in row order |
| RelationLists.KeptIdsAreDistinct | src/semantic.cpp:3189-3192 | The kept ids are distinct and are exactly the shown ones |
| RelationLists.KeptIsFirst | src/semantic.cpp:3189-3205 | A kept row is the first shown row of its id |
| RelationLists.MembersAreDistinct | src/semantic.cpp:3206-3207 | The members of an assembly are distinct objects other than itself |
| RelationLists.ListAssemblies | src/semantic.cpp:3249-3263 | Live assemblies in stored order, with the main member of the first row of each |
| RelationLists.ListPours | src/semantic.cpp:3278-3301 | Every stated pour membership once, by unit and then by object |
| RelationLists.MakeInput | src/semantic.cpp:3183-3365 | The input is built exactly when every record can be read, and holds what the tables state: objects, endpoints, live assemblies with their mains, members in row order and pours in order, none repeated |
| RelationRuns.StreamsRelateWishes | src/semantic.cpp:512-751 | A pair is related if and only if some persisted fact relates two live model elements of fitting kinds |
| RelationOrigins.RelationsAreClaimed | src/semantic.cpp:512-751 | Every relation in a stream is claimed by a stored fact as to kind, pair, origin, relation id and uncounted ordinal, and of the facts that claim its pair by the first; memberships are not merged |
| RelationOrigins.ClaimsAreRelated | src/semantic.cpp:512-751 | Every pair that a stored fact claims is related by the stream |
| RelationOrigins.FactsAreStored | src/semantic.cpp:590-751 | The facts of a stream are exactly the rows of its tables |
| RelationRuns.StreamsDoNotRepeat | src/semantic.cpp:472-751 | For every built input, relations join live distinct elements and never repeat |
| RelationRuns.StreamsNumberChildren | src/semantic.cpp:523-547 | For every input, child ordinals run 0, 1, 2 and so on, and fit |
| RelationRuns.StreamsNumberMembers | src/semantic.cpp:628-667 | For every built input, assembly ordinals are 0 for the main member and gapless from 1 for the others |
| PropertyWinners.FindAmbiguous | src/semantic.cpp:216-232 | A name is ambiguous if and only if more than one definition of the three maps carries it |
| PropertyWinners.FindWinners | src/semantic.cpp:211-266 | The winners let exactly those links pass that state a property; it fails exactly when a name is ambiguous and a link unreadable |
| PropertyWinners.EnteringLeads | src/semantic.cpp:251-261 | Entering a link keeps, for every object and name, the highest precedence and the earliest place among equals |
| PropertyWinners.ContestedOnce | src/semantic.cpp:211-266 | For an ambiguous name every object with a link of that name gets exactly one property |
| PropertyLaws.BestLinkIsEmitted | src/semantic.cpp:189-266 | An object with links of an ambiguous name has one property of it: a reference if any link leads to one, else a number if any does, else a text; kind, name and value are those of the earliest such link |
| PropertyLaws.EmittedIsLinked | src/semantic.cpp:295-326 | Every property in the stream is what some link says |
| PropertyWinners.UncontestedPass | src/semantic.cpp:247-250 | For a name of at most one definition, an object gets one property in the stream for each of its links of that name |
| PropertyLaws.UncontestedIsEmitted | src/semantic.cpp:295-326 | What a link says of a name that one definition carries is in the stream |
| PropertyReader.Reader.Next | src/semantic.cpp:285-332 | The batch followed by what is now pending is what was pending; a batch is never empty and short only at the end |
| PropertyReader.ReadProperties | src/semantic.cpp:211-332 | The drained properties are the one-pass stream for every batch size, or its whole batches before an unreadable link |
| PropertyReader.FailsIffUnreadable | src/semantic.cpp:285-332 | A property stream fails if and only if some link cannot be read |
| Placements.Project | src/mesh_placement.cpp:54-78 | Local coordinates are given exactly when asked for in a trustworthy frame, and place back to the model positions |
| Placements.RigidIsTrustworthy | src/mesh_placement.cpp:29-40 | An exactly orthonormal frame is accepted if and only if it is right-handed |
| Placements.TrustworthyIsNearExact | src/mesh_placement.cpp:24-40 | A frame is accepted if and only if all products of its axes are within a billionth of an exact frame's and their volume is not more than that below one |
| Placements.PointReturns | src/geometry_evaluation_cache.cpp:153-183 | A point is rebuilt from its local coordinates |
| Placements.LocalReturns | src/geometry_evaluation_cache.cpp:153-183 | Local coordinates are what a point was placed from |
| EvaluationRequests.Localize | src/geometry_evaluation_cache.cpp:185-320 | Every part of a request is localised and every object id dropped |
| EvaluationRequests.RequestReturns | src/geometry_evaluation_cache.cpp:298-320 | Placing a localised request back returns it, up to the ids of its objects |
| EvaluationCache.ReplacedMeshIsEvaluation | src/geometry_evaluation_cache.cpp:346-373 | A stored mesh, re-placed, is the evaluation at the new placement |
| EvaluationCache.Cache.Find | src/geometry_evaluation_cache.cpp:332-381 | A hit is what the evaluator gives for the moved request, labelled with the caller's object |
| EvaluationCache.Cache.Insert | src/geometry_evaluation_cache.cpp:383-410 | An entry is kept if and only if it is within the entry and byte limits, and the byte count stays the sum of the entry sizes |
| EvaluationCache.Cache.EvaluateTranslated | src/geometry_evaluation_cache.cpp:422-440 | Evaluation under a translation key gives what the evaluator gives |
| EvaluationCache.Cache.Evaluate | src/geometry_evaluation_cache.cpp:441-464 | Every call gives what the evaluator gives |
| EvaluationCache.EvaluateAll | src/geometry_evaluation_cache.cpp:422-464 | So does every call of any run |
| CacheSharing.TranslatedShareKey | src/geometry_evaluation_cache.cpp:422-440 | A request whose root has a point, and the same request moved by any translation, are looked up under one key |
| CacheSharing.RigidShareKey | src/geometry_evaluation_cache.cpp:441-464 | All rigid occurrences of a request are looked up under one key, whatever the ids of its objects |
| Container.ReadTable | src/container.cpp:101-154 | Reads a section as header, whole records and footer, or refuses it |
| Container.CountMarkers | src/container.cpp:143-152 | Counts shown and hidden rows by bit 3 of their markers |
| Container.ReadDelimited | src/container.cpp:163-192 | The first footer reading in the order connected, keyed, plain that parses |
| Container.OneFooterAligns | src/container.cpp:163-192 | At most one of the three footer sizes leaves whole records |
| Container.FindDelimiters | src/container.cpp:303-314 | The ends of all delimiters, stepping over each one found |
| Container.Inspect | src/container.cpp:290-348 | The loop reads exactly the tables of the specification and totals their rows |
| Container.AcceptedPayloadIsTiled | src/container.cpp:303-348 | The sections tile everything after the global header; shown and hidden rows add up, per table and in total |
| ContainerLaws.AcceptedPayloadIsDescribed | src/container.cpp:101-192 | Byte by byte: every section begins behind a delimiter and holds the words, descriptors, rows, shown rows (bit 3 of the marker clear) and footer its table says; only the last ends finally |
| Container.RecordsAreWhole | src/container.cpp:278-288 | Every row gives a full-size record inside its own table's rows |
| Container.RecordsAreDisjoint | src/container.cpp:278-288 | Records of different rows do not overlap |
| Container.TablesAreDisjoint | src/container.cpp:303-348 | Rows of different tables do not overlap |
| ContainerRoundTrip.AppendU32 | fuzz/seed_generator.cpp:14-18 | Pushes the little-endian bytes of a word |
| ContainerRoundTrip.AppendTable | fuzz/seed_generator.cpp:26-55 | Pushes header, descriptors, rows and footer of a table |
| ContainerRoundTrip.WritePayload | fuzz/seed_generator.cpp:65-73 | Writes the global header and the tables in order, the last one with the final footer |
| ContainerRoundTrip.TableReadsBack | src/container.cpp:101-154 | Reading a written table with its own footer gives back what was written |
| ContainerRoundTrip.DelimitedReadsBack | src/container.cpp:163-192 | A written table is recognised whatever other footers its bytes could be read as |
| ContainerRoundTrip.ScanFindsEnds | src/container.cpp:303-314 | The scan finds exactly the ends of the written tables |
| ContainerRoundTrip.PayloadReadsBack | src/container.cpp:290-348 | Inspecting a written payload recovers tuple sizes, descriptors, keys, footers and row counts of every table |
| Budgets.RetainedBudget.constructor | src/nonpart_geometry.cpp:109-121 | The limit is the request, or 64 times the payload without wrapping, and never zero |
| Budgets.RetainedBudget.CanConsumeCurveSets | src/nonpart_geometry.cpp:133-147 | Checked arithmetic accepts the sets if and only if they fit in exact arithmetic |
| Budgets.RetainedBudget.MaximumFits | src/nonpart_geometry.cpp:123-126 | The reported number of curves fits, and not one more |
| Budgets.RetainedBudget.Consume | src/nonpart_geometry.cpp:205-211 | Consumes exactly when the bytes fit; the used amount never exceeds the limit |
| Budgets.VisitBudget.Consume | src/nonpart_geometry.cpp:238-242 | Grants a visit exactly while some are left |
| LinkedRows.ChainIffEnds | src/nonpart_geometry.cpp:473-497 | The walk finds the end if and only if some list of rows leads there |
| LinkedRows.LeadingIsDistinct | src/nonpart_geometry.cpp:480 | A list of rows that ends meets no row twice |
| LinkedRows.Decoder.Resolve | src/nonpart_geometry.cpp:462-511 | Without a budget running out, success if and only if the chain ends, with its contents, at the cost of its rows and bytes; a cached id costs nothing; an affordable chain succeeds |
| LinkedRows.ResolveString | src/nonpart_geometry.cpp:515-562 | A string lookup gives the texts along the ids that lead to the end, and is invalid exactly when a text or a successor is missing or an id met again |
| LinkedRows.AffordableFits | src/nonpart_geometry.cpp:474-497 | Neither budget runs out on a chain that fits both |
| LinkedRows.ResolveAll | src/nonpart_geometry.cpp:462-511 | Any run of lookups stays within both budgets, and each id is decoded once |
| Spacing.SpacingDistances | src/nonpart_geometry.cpp:607-716 | The loops compute the distances of the specification for every spacing type, with every error case |
| Spacing.RemainderBounds | src/nonpart_geometry.cpp:681-692 | The remainder lies in [target, 2 target) when a target fits, and is the length otherwise |
| Spacing.RemainderFirst | src/nonpart_geometry.cpp:693-696 | Type 4: all gaps are the target except the first, which is the remainder |
| Spacing.RemainderLast | src/nonpart_geometry.cpp:697-700 | Type 5: all gaps are the target except the last |
| Spacing.RemainderHalved | src/nonpart_geometry.cpp:701-706 | Type 6: all gaps are the target except the two ends, each half the remainder |
| Spacing.RemainderMiddle | src/nonpart_geometry.cpp:707-714 | Type 7: all gaps are the target except one in the middle |
| Spacing.EqualGaps | src/nonpart_geometry.cpp:659-676 | Type 3: all gaps are equal and at most the target |
| Spacing.CountedBars | src/nonpart_geometry.cpp:613-633 | Type 2: the nearest whole number of bars, halves upwards, in equal gaps over the length |
| Spacing.SuccessCovers | src/nonpart_geometry.cpp:653-716 | Types 3 to 7 run strictly upwards from 0 to the length |
| Spacing.SuccessFits | src/nonpart_geometry.cpp:607-716 | The number of bars keeps to the limit if and only if neither of two cases applies |
| Spacing.PositiveLimitFits | src/nonpart_geometry.cpp:607-716 | Under a limit of at least one, type 6 below its target under a limit of two is the only overstep, by one bar |
| Spacing.ThreeBarsUnderTwo | src/nonpart_geometry.cpp:686-706 | Three bars under a limit of two |
| Spacing.OneBarUnderNone | src/nonpart_geometry.cpp:658 | One bar under a limit of none, which no caller passes |
| BentMeshes.RegularDistances | src/nonpart_geometry.cpp:845-878 | Gives every distance from the start that fits the limit and no other: the last fits, one more does not; refused for a spacing that is not positive, or for a number beyond the limit |
| BentMeshes.CountFills | src/nonpart_geometry.cpp:845-861 | The count is the number of steps that fit, to a billionth of a step; the exact conditions for every refusal |
| PolylineOffsets.OffsetPolyline | src/nonpart_geometry.cpp:718-774 | Offsets a polyline exactly when it is level, has one offset per leg and no leg too short, with every point where the parallels meet |
| PolylineLaws.OffsetExactlyWhen | src/nonpart_geometry.cpp:718-735 | Exactly the polylines that are level to two thousandths, have an offset per leg, and no leg of a billionth or less can be offset |
| PolylineOffsets.LegsKeepTheirOffset | src/nonpart_geometry.cpp:736-773 | Both ends of an offset leg between sharp corners or ends lie at its offset to the left of the leg |
| PolylineLaws.OffsetsInCoordinates | src/nonpart_geometry.cpp:736-773 | In coordinates: an offset leg keeps its offset to the left between turns and ends, the polyline starts and ends trimmed as asked, and no point is raised |
| PolylineLaws.BluntCorners | src/nonpart_geometry.cpp:752-757 | At a corner that hardly turns the point is the middle of the two legs' own offsets |
| BentMeshes.Adjust | src/nonpart_geometry.cpp:1085-1141 | The loop finds the adjustment of the specification, trying the stored cover first |
| BentMeshes.AdjustmentIsBracketed | src/nonpart_geometry.cpp:1101-1141 | The adjustment keeps a mesh that is wide enough to a millionth, or is the middle of a bracket in which the excess changes sign, the widest one halved sixty times |
| BentMeshes.WideEnoughIsKept | src/nonpart_geometry.cpp:1091-1101 | A stored cover at which the mesh is wide enough to a millionth is kept |
| BentMeshes.EvaluateBent | src/nonpart_geometry.cpp:1030-1183 | A mesh is evaluated exactly when its arrays are sound, the cover can be adjusted and all bars have places within the limit; it has exactly the predicted bars, each in its place, and in both directions the last is the last that fits |
| BentMeshes.MeshFills | src/nonpart_geometry.cpp:1151-1158 | The bars of an evaluated mesh fill its length and its width: the last fits, one more does not |
| BentMeshLaws.ShapeOfCrossBars | src/nonpart_geometry.cpp:1081-1090 | The cross bars are the polygon with every leg at the middle of its stored distances less the adjustment, towards the side it turns to |
| BentMeshLaws.CrossBarInPlace | src/nonpart_geometry.cpp:1160-1167 | Every point of a cross bar is its shape's point moved along the distribution line by the bar's distance and raised to the line |
| BentMeshLaws.LongitudinalBarInPlace | src/nonpart_geometry.cpp:1168-1182 | A longitudinal bar runs the length of the line, straight across from its point of the path and the two radii to the side the polygon turns to |
| BentMeshes.RetainBent | src/nonpart_geometry.cpp:2814-2891 | A mesh is retained exactly when it is admissible and can be evaluated, never runs over the budget, uses exactly the predicted bytes, and has all bars that fit |

## Left out

- The topology kernel, its worker protocol and hosts: evaluation is an arbitrary function of the request that commutes with rigid motions, and request encoding is injective.
- Memory mapping, directory and archive discovery, decompression, and the text header of a payload: file input and library calls.
- Trigonometry and square roots: arcs, chamfers and round profiles are points like any other; the length of a vector, weld frames, rounded paths and walking along them are given functions. How many chords a circle takes is given too.
- Frames within the rigid tolerance but not exactly orthonormal: the cache's agreement is about frames that are exactly rigid whenever they are accepted as rigid.
- Double and float rounding, finiteness checks, and the float-safety test of the cache, which is an arbitrary predicate. Rounding the localised coordinates of a cache key to a millionth is the identity here, so requests that differ by less than that are different requests.
- RoundMeshes.BuildRound: builds the index buffer only; the radii and coordinates of a round profile do not matter to its surface.
- Prisms.MemberIsClosed: is about outlines of at least three points, as every section of the program has; a loop of one or two points is not a loop of the closedness theorems.
- Sweeps.SweepIsClosed: likewise takes an inner loop to be absent or to have at least three points, and a stored cap to name points of the outline.
- The 32-bit casts of index values in prisms, sweeps and lofts: indices are unbounded there. The weld plan and the trimming code keep their 32-bit checks.
- Operative decoding, widening of tangent cutters, root envelopes, edge-chamfer cutters and recipe recognition: given functions of their arguments in the operation environment.
- Diagnostics texts and the partial-result counter's value: only whether something failed is stated.
- Splices and surface hosts of the relation stream are given as lists; the stream's laws do not depend on how those two lists are built.
- EvaluationRequests.Localize: does not model the boxes of a request and the refusal of turned boxes, because requests built from operation graphs carry none.
- Environment switches and profiling output: taken as unset.
- FaceBridging.BridgeHoles: holes that reach equally far right are joined in one fixed order, while the library sort may choose any; the theorems hold for every order.
- `evaluate_operations` and `resolved_operative`, which the current entry point does not reach.
- Profile catalogs, table readers, schema generation, identifiers, tools and the site: independent of what is proved here.
