# Nav2 costmap and collision-monitor model

A Dafny model of the algorithmic core of Nav2's costmap stack (`nav2_costmap_2d`), of the
velocity arbitration in `nav2_collision_monitor`, and of the include merging in
`tools/bt2img.py`, with proofs of what they promise for all grids, windows, polygons,
messages and runs.

| files | part |
|---|---|
| `Lattice`, `DistanceRanking`, `Wavefront`, `InflationCost`, `InflationLayer`, `InflationAsLayer` | the inflation layer: ranking of distances, the bucketed wavefront, caches and costs |
| `NearestObstacle`, `TieBreaking`, `TieExample` | when the labels of the wavefront are nearest obstacles |
| `RowMajor`, `GridCells`, `CostmapValue`, `Coordinates`, `Costmap2D` | the grid kernel: layout, rectangles, the rolling window, world and map coordinates |
| `Raster`, `Outline`, `PolygonFill`, `MapRegion`, `FootprintCost` | Bresenham lines, polygon regions, clear and restore, footprint cost |
| `GridPatch`, `CostmapProtocol`, `CostmapTopics` | publisher and subscriber of a costmap |
| `LayeredCostmap`, `UpdateCycle` | the layered update, and the update loop that ties it to the publisher |
| `CollisionMonitor` | arbitration between polygons, collision time, stop publishing |
| `IncludeMerge` | `load_includes` |
| `Wrappers`, `RealOrder` | optional values, members of rearranged sequences, order of products of reals |

Where the source changes fields or arrays step by step the model has classes and loops; each
such method is proved against a function on values, and the results about runs are proved
about those functions. Proofs use `hide` to keep definitions they do not need out of sight.

Modelling decisions:

- Distances in cells are compared as squared integers; `hypot` values on cells have the same order.
  `exp` in `computeCost` is a parameter; beyond the inscribed radius, where alone it is asked for, it is
  assumed to lie in [0, 1] and not to grow with distance (`cost_scaling_factor` not negative).
- World coordinates, velocities and times are exact reals; casts to integer truncate towards zero.
  `hypot` of a command is an input constrained to be the non-negative root.
- Library sort is any sort by the comparator's key. Points in polygon tests, pose projection,
  sensor data, transforms, clocks and the effect of plugins and filters are inputs.
- `saved_origin_x_` and the other saved geometry fields of the publisher are not initialised in the
  source; the model starts them at "none".
- Slowdown ratios, limits and times before collision are not checked by the source and may have any
  sign; a time of zero makes the ratio infinite or NaN, which never wins a comparison.
- Documentation and code disagree in four places; the model follows the code, and says exactly when
  the promise holds: `worldToMapEnforceBounds` can return the size (`Coordinates.EnforceBoundsInMap`),
  inflation labels need not be the closest obstacle (`TieBreaking.ExactIffNoneTrapped`), the rolling window
  can lose the robot on maps of 1 or 2 cells (`Coordinates.RobotAlwaysInBounds`), and the set that
  "prevents infinite loops" still lets the root file be merged twice (`IncludeMerge.MergeFile`).

## Model

| member | source | states |
|---|---|---|
| `Lattice.SquareArgument` | navigation2-main/nav2_costmap_2d/plugins/inflation_layer.cpp:297-309 | Across two steps towards a source s: if the far corner has a label t at least as near as s, then t serves one of the two cells between as well as s, or the other strictly better. The lattice fact that keeps the wavefront in order. |
| `Lattice.NeighbourDistance` | navigation2-main/nav2_costmap_2d/plugins/inflation_layer.cpp:297-309 | Of the four neighbours of a cell, those one step towards the source are strictly nearer to it and the others strictly farther; none is at the same distance. |
| `DistanceRanking.GenerateIntegerDistances` | navigation2-main/nav2_costmap_2d/plugins/inflation_layer.cpp:387-425 | For every radius: levels order the offsets of the disc exactly as their lengths do (iff), the origin has level 0, and the returned value is the largest level. |
| `DistanceRanking.AssignLevels` | navigation2-main/nav2_costmap_2d/plugins/inflation_layer.cpp:410-424 | The level loop over the sorted offsets records non-decreasing levels that grow exactly where the length grows. |
| `DistanceRanking.RankOfOrigin` | navigation2-main/nav2_costmap_2d/plugins/inflation_layer.cpp:410-424 | Only the origin has level 0. |
| `Wavefront.InwardLabelled` | navigation2-main/nav2_costmap_2d/plugins/inflation_layer.cpp:257-310 | In every reachable state, when an entry comes up, both neighbours one step towards its source are already labelled with a source at least as near. |
| `Wavefront.PushGoesLater` | navigation2-main/nav2_costmap_2d/plugins/inflation_layer.cpp:328-350 | A neighbour that is still unseen is pushed into a strictly later bin than the one being drained, and that bin exists. |
| `Wavefront.NextKeepsInv` | navigation2-main/nav2_costmap_2d/plugins/inflation_layer.cpp:259-310 | Every iteration of the inner loop keeps the wavefront invariant and leaves the current and all earlier bins unchanged. |
| `Wavefront.NextBinKeepsInv` | navigation2-main/nav2_costmap_2d/plugins/inflation_layer.cpp:311-314 | Releasing a drained bin keeps the invariant. |
| `Wavefront.InitialInv` | navigation2-main/nav2_costmap_2d/plugins/inflation_layer.cpp:241-252 | Seeding bin 0 with the obstacles over empty bins establishes the invariant. |
| `Wavefront.FinalStable` | navigation2-main/nav2_costmap_2d/plugins/inflation_layer.cpp:257-317 | When the last bin is done all bins are empty and the labelling is stable: sources label themselves, every label is a source within the radius handed on by a neighbour, and no neighbour's label would be nearer. |
| `Wavefront.Coverage` | navigation2-main/nav2_costmap_2d/plugins/inflation_layer.cpp:218-310 | Every in-grid cell at Manhattan distance m <= radius from a source is seen, with a label at distance at most m. |
| `TieBreaking.ExactIffNoneTrapped` | navigation2-main/nav2_costmap_2d/include/nav2_costmap_2d/inflation_layer.hpp:62-68 | When the documented "closest obstacle" is right, for every grid, radius and set of obstacles, ties included: whatever the queue order, every cell in reach is seen with a nearest obstacle, iff no cell in reach is trapped, that is, iff its inlets can not all be held at once by nearest obstacles of theirs that are not nearest for it. |
| `TieBreaking.StableExtension` | navigation2-main/nav2_costmap_2d/plugins/inflation_layer.cpp:257-310 | Every partial labelling with nearest obstacles that are handed on from cell to cell is part of a stable labelling; in particular stable labellings exist for all obstacles in the grid. |
| `TieBreaking.HoldsStep` | navigation2-main/nav2_costmap_2d/plugins/inflation_layer.cpp:297-309 | Which nearest obstacles can hold a cell, as a table filled outwards: the obstacle itself, or one that holds a step towards it. |
| `TieBreaking.FedIsExact` | navigation2-main/nav2_costmap_2d/include/nav2_costmap_2d/inflation_layer.hpp:62-68 | A sufficient condition cell by cell: some inlet of the cell can be held only by obstacles that are nearest for it. |
| `TieExample.NotFedNotTrapped` | navigation2-main/nav2_costmap_2d/include/nav2_costmap_2d/inflation_layer.hpp:62-68 | That condition is not necessary: on a concrete 20 x 20 grid both inlets of a cell can be held by foreign obstacles, but not both at once. |
| `NearestObstacle.PathsDecide` | navigation2-main/nav2_costmap_2d/include/nav2_costmap_2d/inflation_layer.hpp:62-68 | Conditions by paths: all labels are nearest if every cell in reach ends a path of 4-neighbours that hands its nearest obstacles on, and only if every one ends a path along which one obstacle stays nearest; the two agree where no cell has two nearest obstacles. |
| `NearestObstacle.PathGivesNearest` | navigation2-main/nav2_costmap_2d/plugins/inflation_layer.cpp:257-310 | Along a path of 4-neighbours from an obstacle on which nearest obstacles are handed on (for one, if it stays strictly nearest), every stable labelling gives the end a nearest obstacle. |
| `NearestObstacle.TwoObstaclesExact` | navigation2-main/nav2_costmap_2d/include/nav2_costmap_2d/inflation_layer.hpp:62-68 | With at most two obstacles every cell in reach is seen and labelled with a nearest one; three can be too many. |
| `NearestObstacle.LabelsMayMissNearest` | navigation2-main/nav2_costmap_2d/include/nav2_costmap_2d/inflation_layer.hpp:62-68 | The documented "closest obstacle" fails with three obstacles: on a concrete 4 x 4 grid every stable labelling gives a cell an obstacle at squared distance 9 although one at 8 exists. |
| `NearestObstacle.TiesDecide` | navigation2-main/nav2_costmap_2d/include/nav2_costmap_2d/inflation_layer.hpp:62-68 | Two stable labellings of the same 3 x 3 grid, one exact and one not: stability does not fix how ties are broken. |
| `NearestObstacle.ReachedCellUnseen` | navigation2-main/nav2_costmap_2d/plugins/inflation_layer.cpp:257-310 | On a concrete 6 x 6 grid with radius 5 every stable labelling leaves a cell at distance 5 from an obstacle unseen: beyond the Manhattan ball of `Wavefront.Coverage` cells can stay uninflated. |
| `InflationCost.CostAntitone` | navigation2-main/nav2_costmap_2d/include/nav2_costmap_2d/inflation_layer.hpp:149-163 | Cost never grows with distance, and only distance 0 is lethal. |
| `InflationCost.CostBands` | navigation2-main/nav2_costmap_2d/include/nav2_costmap_2d/inflation_layer.hpp:149-163 | Off the obstacle, cost 253 is given exactly within the inscribed radius, and never more than 253. |
| `InflationCost.CostFallsOff` | navigation2-main/nav2_costmap_2d/include/nav2_costmap_2d/inflation_layer.hpp:149-163 | Beyond the inscribed radius the cost is 252 times the exponential factor, rounded down. |
| `InflationCost.ObstacleInflates` | navigation2-main/nav2_costmap_2d/plugins/inflation_layer.cpp:218-295 | An obstacle anywhere in the grid within Manhattan distance m <= radius of a window cell lies in the scanned rectangle and leaves that cell with at least the cost of m. |
| `InflationCost.UnknownInflates` | navigation2-main/nav2_costmap_2d/plugins/inflation_layer.cpp:277-295 | An unknown window cell within Manhattan distance m of an obstacle is no longer unknown afterwards, if the cost of m may overwrite it: above 0 with inflate_unknown, from 253 up without. |
| `InflationCost.ScanSuffices` | navigation2-main/nav2_costmap_2d/plugins/inflation_layer.cpp:218-252 | Scanning the widened window suffices: where labels are nearest obstacles, every window cell gets the cost it would get from inflating the obstacles of the whole grid. |
| `InflationCost.InflationIsLocal` | navigation2-main/nav2_costmap_2d/plugins/inflation_layer.cpp:277-295 | Cells outside the window are unchanged, only unknown cells are ever lowered and only as inflate_unknown allows, and every new value is the cost of the distance to a lethal (or, if wanted, unknown) cell whose squared distance is at most the squared radius. |
| `Inflation.InflationLayer.ComputeCaches` | navigation2-main/nav2_costmap_2d/plugins/inflation_layer.cpp:352-385 | Caches, ranking and bins always belong to the current radius, although distances are recomputed only when it changed; bins come out empty. |
| `Inflation.InflationLayer.MatchSize` | navigation2-main/nav2_costmap_2d/plugins/inflation_layer.cpp:120-129 | The radius becomes the fewest cells that cover inflation_radius; a new radius, resolution or size leaves the layer valid for it. |
| `Inflation.InflationLayer.DistanceLookup` | navigation2-main/nav2_costmap_2d/include/nav2_costmap_2d/inflation_layer.hpp:219-226 | The cache index is in range for cells up to one beyond the radius, and the value is the exact (squared) distance. |
| `Inflation.InflationLayer.CostLookup` | navigation2-main/nav2_costmap_2d/include/nav2_costmap_2d/inflation_layer.hpp:236-243 | In range within the radius, and equal to the cost of the distance. |
| `Inflation.InflationLayer.EnqueueCell` | navigation2-main/nav2_costmap_2d/plugins/inflation_layer.cpp:328-350 | enqueue refines the step on values; its matrix and bin indices are in range. |
| `Inflation.InflationLayer.SeedObstacles` | navigation2-main/nav2_costmap_2d/plugins/inflation_layer.cpp:241-252 | Bin 0 lists exactly the obstacles of the scanned rectangle. |
| `Inflation.InflationLayer.Propagate` | navigation2-main/nav2_costmap_2d/plugins/inflation_layer.cpp:254-314 | The two loops end, leave every bin empty, and write the costs of a stable labelling. |
| `Inflation.InflationLayer.UpdateCosts` | navigation2-main/nav2_costmap_2d/plugins/inflation_layer.cpp:189-317 | For every grid, window and option: the list is empty again afterwards; window cells near a lethal (or, with inflate_around_unknown, unknown) cell cost at least their Manhattan distance's cost and, where that may overwrite them, are no longer unknown; changes are local; a disabled layer or radius 0 changes nothing. |
| `InflationAsLayer.UpdateCosts` | navigation2-main/nav2_costmap_2d/plugins/inflation_layer.cpp:189-317 | As a layer of the layered costmap: only cells of the given window change, as `LayeredCostmaps.Behaves` asks. |
| `RowMajor.IndexToCells` | navigation2-main/nav2_costmap_2d/include/nav2_costmap_2d/costmap_2d.hpp:231-246 | indexToCells inverts getIndex. |
| `CostmapValue.RollingWindow` | navigation2-main/nav2_costmap_2d/src/costmap_2d.cpp:350-404 | After any sequence of updateOrigin calls a cell holds the original cost of its place iff that place lay in every window of the run, else the default. |
| `CostmapValue.RollingOrigin` | navigation2-main/nav2_costmap_2d/src/costmap_2d.cpp:350-404 | The origin moves by the same whole number of cells as the contents. |
| `GridKernel.CopyMapRegion` | navigation2-main/nav2_costmap_2d/include/nav2_costmap_2d/costmap_2d.hpp:427-445 | Copies the rectangle and nothing else. |
| `GridKernel.Costmap2D.UpdateOrigin` | navigation2-main/nav2_costmap_2d/src/costmap_2d.cpp:350-404 | The map becomes the window moved by whole cells towards the new origin, for shifts of any size and sign. |
| `GridKernel.Costmap2D.ResizeMap` | navigation2-main/nav2_costmap_2d/src/costmap_2d.cpp:111-123 | The map becomes one of the new geometry with every cell at the default, as the layered costmap resizes its two maps. |
| `GridKernel.Costmap2D.ResetMapToValue` | navigation2-main/nav2_costmap_2d/src/costmap_2d.cpp:136-144 | Exactly the cells of the rectangle take the value. |
| `GridKernel.Costmap2D.CopyWindow` | navigation2-main/nav2_costmap_2d/src/costmap_2d.cpp:185-206 | Succeeds iff the window fits both maps; then exactly the window is copied, otherwise nothing changes. |
| `GridKernel.Costmap2D.GetCost` | navigation2-main/nav2_costmap_2d/src/costmap_2d.cpp:265-268 | Reads the cost of the cell. |
| `GridKernel.Costmap2D.SetCost` | navigation2-main/nav2_costmap_2d/src/costmap_2d.cpp:275-278 | Changes that cell only. |
| `Coordinates.WorldToMapAccepts` | navigation2-main/nav2_costmap_2d/src/costmap_2d.cpp:292-305 | worldToMap accepts a coordinate iff it lies from the origin up to, not including, the far edge. |
| `Coordinates.CentreRoundTrip` | navigation2-main/nav2_costmap_2d/src/costmap_2d.cpp:280-305 | The centre of a cell maps back to the cell. |
| `Coordinates.EnforceBoundsInMap` | navigation2-main/nav2_costmap_2d/src/costmap_2d.cpp:328-348 | The result is inside the map iff the coordinate is not exactly on the far edge, where the size itself is returned (the header promises "within the map"). |
| `Coordinates.CellDistanceCovers` | navigation2-main/nav2_costmap_2d/src/costmap_2d.cpp:254-258 | cellDistance gives the fewest cells that cover a length. |
| `Coordinates.WindowSound` | navigation2-main/nav2_costmap_2d/src/layered_costmap.cpp:203-210 | For any bounds the window ends inside the axis and contains the cell of every in-map point between the bounds. |
| `Coordinates.UntouchedBounds` | navigation2-main/nav2_costmap_2d/src/layered_costmap.cpp:163-218 | If no layer touched the bounds the update is skipped iff the axis has at least 3 cells. |
| `Coordinates.RobotInBounds` | navigation2-main/nav2_costmap_2d/src/layered_costmap.cpp:142-149 | With at least 3 cells on an axis the robot is inside after the rolling shift. |
| `Coordinates.RobotAlwaysInBounds` | navigation2-main/nav2_costmap_2d/src/layered_costmap.cpp:142-149 | On every axis the robot is inside after the rolling shift wherever it was iff the axis has at least 3 cells. |
| `Coordinates.RobotLeavesSmallMap` | navigation2-main/nav2_costmap_2d/src/layered_costmap.cpp:142-149 | On every axis of 1 or 2 cells a robot a fifth of a cell below the origin stays outside. |
| `Raster.RaytraceLine` | navigation2-main/nav2_util/include/nav2_util/raytrace_line_2d.hpp:58-142 | The offsets visited are the indices of the Bresenham line between the two cells, cut off after the limit of steps if that is shorter. |
| `Raster.LineEnds` | navigation2-main/nav2_util/include/nav2_util/raytrace_line_2d.hpp:58-75 | The line starts and ends at the given cells. |
| `Raster.LineInBox` | navigation2-main/nav2_util/include/nav2_util/raytrace_line_2d.hpp:58-75 | The line stays in the box of its ends. |
| `Raster.LineTouching` | navigation2-main/nav2_util/include/nav2_util/raytrace_line_2d.hpp:58-75 | Consecutive cells differ by at most one in each coordinate. |
| `Raster.LineIsClosest` | navigation2-main/nav2_util/include/nav2_util/raytrace_line_2d.hpp:58-75 | Every cell of the line is within half a cell of the ideal line along the minor axis. |
| `Raster.LineIterator.Advance` | navigation2-main/nav2_util/include/nav2_util/line_iterator.hpp:112-124 | After i advances the iterator stands on cell i of the same line. |
| `Outline.ColumnsHoldTwo` | navigation2-main/nav2_costmap_2d/src/costmap_2d.cpp:460-476 | Every column between the extreme vertices of a closed polygon holds two outline entries, from different edges. |
| `Outline.OutlineColumns` | navigation2-main/nav2_costmap_2d/src/costmap_2d.cpp:510-535 | Every column from the leftmost to the rightmost outline cell holds two outline entries. |
| `PolygonFill.PolygonOutlineCells` | navigation2-main/nav2_costmap_2d/src/costmap_2d.cpp:460-476 | The list is the rasterised closed outline, cell by cell, with the costs. |
| `PolygonFill.SortByX` | navigation2-main/nav2_costmap_2d/src/costmap_2d.cpp:490-505 | The back-stepping sort ends on every non-empty list (inversions, then what is left) with an x-sorted permutation. |
| `PolygonFill.SwapRemovesInversion` | navigation2-main/nav2_costmap_2d/src/costmap_2d.cpp:494-501 | Exchanging neighbours in the wrong order removes exactly one inversion. |
| `PolygonFill.ScanColumn` | navigation2-main/nav2_costmap_2d/src/costmap_2d.cpp:519-535 | Reading on through the growing list finds exactly the entries of the column and its lowest and highest one. |
| `PolygonFill.SweepColumns` | navigation2-main/nav2_costmap_2d/src/costmap_2d.cpp:507-545 | The sweep never breaks early or mixes columns, and appends exactly the cells between two outline cells of a column. |
| `PolygonFill.ConvexFillCells` | navigation2-main/nav2_costmap_2d/src/costmap_2d.cpp:478-546 | Nothing for fewer than 3 vertices; otherwise exactly the outline cells and the cells between two of them in a column, with their costs. |
| `PolygonFill.EnclosedHasNoGaps` | navigation2-main/nav2_costmap_2d/src/costmap_2d.cpp:507-545 | The region of a polygon holds its outline and has no gaps in its columns. |
| `PolygonFill.EnclosedIsLeast` | navigation2-main/nav2_costmap_2d/src/costmap_2d.cpp:507-545 | Every set of cells that holds the outline and has no gaps in its columns holds the region. |
| `MapRegion.ToMap` | navigation2-main/nav2_costmap_2d/src/costmap_2d.cpp:292-305 | Some iff both coordinates are on the map; then the cell is in the map. |
| `MapRegion.CentreOfCell` | navigation2-main/nav2_costmap_2d/src/costmap_2d.cpp:280-305 | The centre of every cell of the map is mapped back to that cell, on both axes. |
| `MapRegion.GetMapRegion` | navigation2-main/nav2_costmap_2d/src/costmap_2d.cpp:438-458 | Fails iff a vertex is off the map; otherwise the region of the polygon. |
| `MapRegion.SetMapRegion` | navigation2-main/nav2_costmap_2d/src/costmap_2d.cpp:421-428 | Sets every listed cell. |
| `MapRegion.RestoreMapRegion` | navigation2-main/nav2_costmap_2d/src/costmap_2d.cpp:430-436 | Writes back every listed cost, the last one winning. |
| `MapRegion.LastListingWins` | navigation2-main/nav2_costmap_2d/src/costmap_2d.cpp:430-436 | Of several listings of a cell the last one decides what is restored. |
| `MapRegion.ClearThenRestore` | navigation2-main/nav2_costmap_2d/src/costmap_2d.cpp:421-436 | Collect, set to any cost, restore is the identity on the whole grid, duplicates included. |
| `MapRegion.ClearFootprintAndRestore` | navigation2-main/nav2_costmap_2d/plugins/static_layer.cpp:415-468 | StaticLayer's update leaves its own layer as it was when the footprint is put back, off the map or not cleared; without restoring, or when the transform lookup fails, exactly the enclosed cells stay cleared. |
| `MapRegion.SetConvexPolygonCost` | navigation2-main/nav2_costmap_2d/src/costmap_2d.cpp:406-419 | On success exactly the enclosed cells take the value; on failure nothing changes. |
| `GridPatch.PatchUpdates` | navigation2-main/nav2_costmap_2d/src/costmap_subscriber.cpp:74-83 | A patch cut from one grid and laid into another of the same size makes them equal iff they agreed outside the box. |
| `GridPatch.CutAt` | navigation2-main/nav2_costmap_2d/src/costmap_2d_publisher.cpp:214-235 | The layout of a patch: each cell of the box stands at its row and column in the message. |
| `CostmapProtocol.LazyIsEager` | navigation2-main/nav2_costmap_2d/src/costmap_subscriber.cpp:24-103 | For every sequence of messages and reads, holding a full grid back gives the same results as applying every message at once. |
| `CostmapProtocol.FirstAndLater` | navigation2-main/nav2_costmap_2d/src/costmap_subscriber.cpp:35-87 | The first full grid is applied at once and later ones are held; a patch without a map is lost, and one with a map leaves nothing held. |
| `CostmapProtocol.StepKeepsInv` | navigation2-main/nav2_costmap_2d/src/costmap_2d_ros.cpp:541-567 | Window-bounded updates, repeated reports of a window, geometry changes, publishes, deliveries and reads keep the replication invariant. |
| `CostmapProtocol.Replication` | navigation2-main/nav2_costmap_2d/src/costmap_2d_publisher.cpp:214-274 | In every state of every run in which publishes are safe, once all messages are delivered in order the subscriber shows the publisher's grid as of the last publish, and no patch is refused. PublishSafeExact says that this one condition is exact, TidyStep when it holds by itself. |
| `CostmapProtocol.PublishExact` | navigation2-main/nav2_costmap_2d/src/costmap_2d_publisher.cpp:237-274 | A publish that stays in the grid brings the subscriber up to date iff a full grid is sent or no cell outside the dirty box changed. |
| `CostmapProtocol.WhatIsSent` | navigation2-main/nav2_costmap_2d/src/costmap_2d_publisher.cpp:237-274 | A full grid if always_send_full_costmap is set or the geometry is not the one last sent in full; otherwise a patch with exactly the cells of the dirty box, or nothing if it has no columns. |
| `CostmapProtocol.UnionIsLeast` | navigation2-main/nav2_costmap_2d/include/nav2_costmap_2d/costmap_2d_publisher.hpp:117-123 | The dirty box grows to the smallest box around itself and the window. |
| `CostmapProtocol.PublishSafeExact` | navigation2-main/nav2_costmap_2d/src/costmap_2d_publisher.cpp:237-274 | In every state: a publish is safe, as runs require, iff a patch that is due lies in the grid and afterwards the subscriber shows the grid. |
| `CostmapProtocol.TidyStep` | navigation2-main/nav2_costmap_2d/src/costmap_2d_ros.cpp:541-567 | While the geometry stays and reported windows fit, every publish is safe: patches are cut inside the grid. |
| `CostmapProtocol.ReportExact` | navigation2-main/nav2_costmap_2d/src/costmap_2d_ros.cpp:545-548 | Any reported window keeps the invariant; after a publish the next one is safe iff the window lies in the grid, or has no columns and starts inside; on top of a dirty box with columns iff it lies in the grid. Otherwise a patch would be cut past the end of the grid. |
| `CostmapProtocol.LastFullDecides` | navigation2-main/nav2_costmap_2d/src/costmap_subscriber.cpp:35-103 | Whatever arrived before: the view is the last full grid received with the patches received after it. |
| `CostmapProtocol.OvertakingExact` | navigation2-main/nav2_costmap_2d/src/costmap_subscriber.cpp:35-87 | For every subscriber, full grid and patch: a patch received before the full grid leaves no trace, one received after it is laid in; so overtaking between the two topics, in either direction, is harmless iff the patch does not fit or changes nothing in the full grid. |
| `UpdateCycle.ReturnLosesCells` | navigation2-main/nav2_costmap_2d/src/costmap_2d_publisher.cpp:244-269 | For every map and every two cycles that roll it away and back without a publish between them: a cell that was outside in between, held more than the default and is not covered by the reported windows is missed by the publish that follows. |
| `UpdateCycle.ReturnedPublishMisses` | navigation2-main/nav2_costmap_2d/src/costmap_2d_publisher.cpp:244-269 | Concrete run of the update loop: on a 3 x 3 rolling map the robot moves one cell and back, the reported windows cover columns 1 and 2, and the subscriber keeps the lost cost of cell (0, 0). |
| `CostmapProtocol.OvertakenPatchIsLost` | navigation2-main/nav2_costmap_2d/src/costmap_subscriber.cpp:52-87 | Concrete case of the above: a patch that overtakes its full grid is lost. |
| `CostmapTopics.Costmap2DPublisher.UpdateBounds` | navigation2-main/nav2_costmap_2d/include/nav2_costmap_2d/costmap_2d_publisher.hpp:117-123 | The dirty box becomes the union with the given one. |
| `CostmapTopics.Costmap2DPublisher.PrepareCostmap` | navigation2-main/nav2_costmap_2d/src/costmap_2d_publisher.cpp:160-187 | The message is the grid with its exact geometry. |
| `CostmapTopics.Costmap2DPublisher.CreateCostmapUpdateMsg` | navigation2-main/nav2_costmap_2d/src/costmap_2d_publisher.cpp:214-235 | The row loop cuts out the dirty box. |
| `CostmapTopics.Costmap2DPublisher.PublishCostmap` | navigation2-main/nav2_costmap_2d/src/costmap_2d_publisher.cpp:237-274 | Sends full grid, patch or nothing as the protocol says and resets the dirty box; a disabled layer changes nothing. |
| `CostmapTopics.CostmapSubscriber.CostmapCallback` | navigation2-main/nav2_costmap_2d/src/costmap_subscriber.cpp:35-50 | The first full grid is applied at once, later ones are held. |
| `CostmapTopics.CostmapSubscriber.CostmapUpdateCallback` | navigation2-main/nav2_costmap_2d/src/costmap_subscriber.cpp:52-87 | Applies what is held, then the patch if it fits; ignores it without a map. |
| `CostmapTopics.CostmapSubscriber.ProcessCurrentCostmapMsg` | navigation2-main/nav2_costmap_2d/src/costmap_subscriber.cpp:89-103 | Resizing if the geometry changed and copying the data makes the map equal to the message. |
| `CostmapTopics.CostmapSubscriber.GetCostmap` | navigation2-main/nav2_costmap_2d/src/costmap_subscriber.cpp:24-33 | Returns the map with everything received applied, or fails without one. |
| `LayeredCostmaps.WindowInMap` | navigation2-main/nav2_costmap_2d/src/layered_costmap.cpp:203-218 | A window that is not skipped lies in the map and holds every in-map point within the accumulated bounds. |
| `LayeredCostmaps.AskedIsWritten` | navigation2-main/nav2_costmap_2d/src/layered_costmap.cpp:163-218 | Every in-map point of the bounds as any plugin left them lies in the window, which is then written, if no layer shrinks the bounds. |
| `LayeredCostmaps.FilterAskedIsWritten` | navigation2-main/nav2_costmap_2d/src/layered_costmap.cpp:184-218 | The same for filters. |
| `LayeredCostmaps.NobodyAsks` | navigation2-main/nav2_costmap_2d/src/layered_costmap.cpp:163-218 | If no layer touches the bounds nothing is written, on maps of at least 3 cells along an axis. |
| `LayeredCostmaps.NextKeepsState` | navigation2-main/nav2_costmap_2d/src/layered_costmap.cpp:136-262 | Primary and combined map share their geometry after every cycle. |
| `LayeredCostmaps.AdvanceKeepsState` | navigation2-main/nav2_costmap_2d/src/layered_costmap.cpp:106-262 | They share it after every update and every resize. |
| `LayeredCostmaps.WindowStaysInMap` | navigation2-main/nav2_costmap_2d/src/layered_costmap.cpp:203-262 | Updates keep the recorded window inside the map; a cycle that writes records one that fits. Only a resize can leave it outside. |
| `LayeredCostmaps.RollingKeepsRobot` | navigation2-main/nav2_costmap_2d/src/layered_costmap.cpp:142-157 | In rolling mode with at least 3 cells per axis the robot is in bounds after the shift. |
| `LayeredCostmaps.FilterIsolation` | navigation2-main/nav2_costmap_2d/src/layered_costmap.cpp:106-255 | Over whole runs of updates and resizes the primary map and the windows do not depend on what filters write. |
| `LayeredCostmaps.CombinedIsFiltered` | navigation2-main/nav2_costmap_2d/src/layered_costmap.cpp:238-254 | The combined map is the filters folded over the primary window and the previous combined map outside it. |
| `LayeredCostmaps.WindowRebuilt` | navigation2-main/nav2_costmap_2d/src/layered_costmap.cpp:220-255 | The window is rebuilt from scratch: from two states that differ only inside it, the cycle leaves the same maps. |
| `LayeredCostmaps.NextForgets` | navigation2-main/nav2_costmap_2d/src/layered_costmap.cpp:136-262 | The same for a whole cycle after the shift of the origin. |
| `LayeredCostmaps.RunsForget` | navigation2-main/nav2_costmap_2d/src/layered_costmap.cpp:136-262 | Over whole runs of updates and resizes: from the first such cycle on, the two runs are one. |
| `LayeredCostmaps.IdleWindowIsCleared` | navigation2-main/nav2_costmap_2d/src/layered_costmap.cpp:220-255 | If no layer writes, every cell of the window is back at the default: a cleared obstacle does not stay. |
| `LayeredCostmaps.LastLayerDecides` | navigation2-main/nav2_costmap_2d/src/layered_costmap.cpp:222-254 | Layers are applied in order: the last one has the last word. |
| `LayeredCostmaps.PluginWritesArrive` | navigation2-main/nav2_costmap_2d/src/layered_costmap.cpp:220-227 | Without filters, what plugins write arrives in the combined map. |
| `LayeredCostmaps.FilteredWritesArrive` | navigation2-main/nav2_costmap_2d/src/layered_costmap.cpp:228-255 | With filters, what plugins write arrives in the primary map, and in the combined map unless a filter writes over it. |
| `LayeredCostmaps.FilterWritesArrive` | navigation2-main/nav2_costmap_2d/src/layered_costmap.cpp:248-254 | What filters write arrives in the combined map. |
| `LayeredCostmaps.CycleWritesWindow` | navigation2-main/nav2_costmap_2d/src/layered_costmap.cpp:220-262 | After the shift a cycle writes the combined map only inside the window it records. |
| `LayeredCostmaps.LayeredCostmap.ResizeMap` | navigation2-main/nav2_costmap_2d/src/layered_costmap.cpp:106-128 | Both maps take the new geometry with every cell at the default; the recorded window stays as it was. |
| `LayeredCostmaps.LayeredCostmap.UpdateMap` | navigation2-main/nav2_costmap_2d/src/layered_costmap.cpp:136-262 | Performs the cycle on both maps; the "Can not copy costmap" exception is never raised. |
| `UpdateCycle.CycleIsWrite` | navigation2-main/nav2_costmap_2d/src/costmap_2d_ros.cpp:541-552 | What updateMap writes, reported by updateBounds, is an enabled write step of the replication protocol. |
| `UpdateCycle.TurnReaches` | navigation2-main/nav2_costmap_2d/src/costmap_2d_ros.cpp:533-567 | Every turn of mapUpdateLoop (shift, write or skip, missing pose, report, publish), every resize by parameter, delivery and read is a run of the replication protocol and keeps publisher and combined map linked. |
| `UpdateCycle.EndToEnd` | navigation2-main/nav2_costmap_2d/src/costmap_2d_ros.cpp:518-584 | For every run of the loop: once everything under way has arrived, the subscriber shows the combined map as of the last publish, and no patch is refused. |
| `UpdateCycle.SteadyTurn` | navigation2-main/nav2_costmap_2d/src/costmap_2d_ros.cpp:533-567 | A map that is never resized and either does not roll or publishes on every turn meets all conditions on every turn: its replication needs no further assumption. |
| `UpdateCycle.StaleWindowExact` | navigation2-main/nav2_costmap_2d/src/costmap_2d_ros.cpp:848-853 | After a resize, while no pose is available, the window of the old map is reported again: safe iff it lies in the new map, or has no columns and starts inside; otherwise the patch that is due reaches past the end of the cost array. |
| `UpdateCycle.PublishedGrid` | navigation2-main/nav2_costmap_2d/src/costmap_2d_publisher.cpp:160-187 | What the publisher sends of a costmap object is the grid of its value: the classes and the loop speak of the same grid. |
| `FootprintCost.LineCost` | navigation2-main/nav2_costmap_2d/src/footprint_collision_checker.cpp:87-107 | LETHAL if some cell of the line is LETHAL, otherwise the maximum over the line, unknown (255) included. |
| `FootprintCost.FootprintCost` | navigation2-main/nav2_costmap_2d/src/footprint_collision_checker.cpp:47-85 | LETHAL if a point is off the map; otherwise the value of the first edge at or above LETHAL, the closing edge last; otherwise the maximum over the closed outline. |
| `FootprintCost.UnknownIsReal` | navigation2-main/nav2_costmap_2d/src/footprint_collision_checker.cpp:47-107 | 255 is returned only for a footprint on the map that touches an unknown cell; without one, any result from LETHAL up is LETHAL. |
| `FootprintCost.EarlyExitHidesNothing` | navigation2-main/nav2_costmap_2d/src/footprint_collision_checker.cpp:47-107 | The result is at least LETHAL iff a point is off the map or some cell of the closed outline is at least LETHAL (unknown counts). |
| `CollisionMonitors.FactorIsFirstLeast` | navigation2-main/nav2_collision_monitor/src/collision_monitor_node.cpp:475-501 | Whatever the signs: the magnitude of the selected factor is the minimum of 1 and the magnitudes asked for by triggered polygons, and the factor is the first one of that magnitude. |
| `CollisionMonitors.MinDemandIsMinimum` | navigation2-main/nav2_collision_monitor/src/collision_monitor_node.cpp:475-501 | The minimum of 1 and the factors of the triggered polygons: a lower bound of them, and one of them. |
| `CollisionMonitors.FactorIsMinimum` | navigation2-main/nav2_collision_monitor/src/collision_monitor_node.cpp:475-501 | The selected factor is that minimum iff negative factors (which the source does not exclude) stand unopposed; always if there are none. |
| `CollisionMonitors.ScaleOrder` | navigation2-main/nav2_collision_monitor/include/nav2_collision_monitor/types.hpp:30-41 | Among multiples of a moving command, slower means the smaller magnitude of the factor. |
| `CollisionMonitors.ProcessStopSlowdownLimit` | navigation2-main/nav2_collision_monitor/src/collision_monitor_node.cpp:517-574 | The action holds the command times its factor or the polygon's, whichever is smaller in magnitude; if it changed it is the polygon's action. |
| `CollisionMonitors.ProcessApproach` | navigation2-main/nav2_collision_monitor/src/collision_monitor_node.cpp:576-603 | The same for an approach polygon. |
| `CollisionMonitors.ConsiderPolygons` | navigation2-main/nav2_collision_monitor/src/collision_monitor_node.cpp:475-501 | The loop, with its break on STOP, ends with the command times the selected factor and with an action some triggered polygon asked for. |
| `CollisionMonitors.Select` | navigation2-main/nav2_collision_monitor/src/collision_monitor_node.cpp:419-501 | A STOP action with zero velocity for an invalid source, the command if the monitor is off, else the command times the selected factor with the action of the polygon that asked for it. |
| `CollisionMonitors.StopStops` | navigation2-main/nav2_collision_monitor/src/collision_monitor_node.cpp:517-535 | An enabled STOP polygon with its shape set and at least min_points inside selects zero, whatever else is there. |
| `CollisionMonitors.TriggeredSlows` | navigation2-main/nav2_collision_monitor/src/collision_monitor_node.cpp:536-603 | The selected velocity is never faster than what an occupied SLOWDOWN polygon or an APPROACH polygon with a collision ahead asks for. |
| `CollisionMonitors.NothingTriggered` | navigation2-main/nav2_collision_monitor/src/collision_monitor_node.cpp:419-501 | With sound sources the command passes unchanged if no enabled polygon with its shape set has enough points inside or a collision ahead, and if the monitor is off. |
| `CollisionMonitors.InvalidSourceStops` | navigation2-main/nav2_collision_monitor/src/collision_monitor_node.cpp:427-446 | An enabled source without data and with a non-zero timeout selects zero. |
| `CollisionMonitors.OnePolygon` | navigation2-main/nav2_collision_monitor/src/collision_monitor_node.cpp:536-603 | The velocity selected by one SLOWDOWN, LIMIT or APPROACH polygon alone, by its fields. |
| `CollisionMonitors.OrderDoesNotMatter` | navigation2-main/nav2_collision_monitor/src/collision_monitor_node.cpp:475-501 | The selected speed does not depend on the order of the polygons, nor does the velocity unless two polygons ask for opposite factors of least magnitude. |
| `CollisionMonitors.OpposedOrders` | navigation2-main/nav2_collision_monitor/src/collision_monitor_node.cpp:475-501 | If two do, two orders select different velocities for a moving robot. |
| `CollisionMonitors.LimitsHold` | navigation2-main/nav2_collision_monitor/src/collision_monitor_node.cpp:546-570 | For every triggered LIMIT polygon, whichever polygon won: the selected velocity keeps within its linear and angular limits iff the limits are not negative. |
| `CollisionMonitors.LimitRatioLargest` | navigation2-main/nav2_collision_monitor/src/collision_monitor_node.cpp:546-570 | A LIMIT polygon asks for the largest factor up to 1 that keeps within its limits. |
| `CollisionMonitors.SelectedExact` | navigation2-main/nav2_collision_monitor/src/collision_monitor_node.cpp:475-501 | For any polygons and a moving robot: the selected velocity is the command times the minimum factor iff negative factors stand unopposed. |
| `CollisionMonitors.SelectedIsMinimum` | navigation2-main/nav2_collision_monitor/src/collision_monitor_node.cpp:475-501 | With non-negative ratios and times the selected velocity is the command times the minimum factor. |
| `CollisionMonitors.OpposedInstance` | navigation2-main/nav2_collision_monitor/src/collision_monitor_node.cpp:536-545 | Concrete case: ratios 0.5 and -0.5 select half speed forward, not the minimum. |
| `CollisionMonitors.ApproachKeepsInterval` | navigation2-main/nav2_collision_monitor/include/nav2_collision_monitor/types.hpp:65-72 | At the approach velocity the way to the collision takes exactly time_before_collision. |
| `CollisionMonitors.GetPointsInside` | navigation2-main/nav2_collision_monitor/src/polygon.cpp:229-256 | The number of positions in the gathered points whose point lies inside the polygon. |
| `CollisionMonitors.CountIsSize` | navigation2-main/nav2_collision_monitor/src/polygon.cpp:229-238 | Counting in a loop gives the size of the set of positions inside. |
| `CollisionMonitors.GatheredPoints` | navigation2-main/nav2_collision_monitor/src/polygon.cpp:262-275 | A point is gathered iff some named source delivered it. |
| `CollisionMonitors.GetCollisionTime` | navigation2-main/nav2_collision_monitor/src/polygon.cpp:258-302 | Zero if already inside, else the first simulated instant at which the transformed points are inside after projecting the pose once more, else -1; never beyond the horizon. |
| `CollisionMonitors.HitAfterSteps` | navigation2-main/nav2_collision_monitor/src/polygon.cpp:286-297 | Under a constant motion, instant k looks at the points from where the robot is after k + 1 steps. |
| `CollisionMonitors.SilenceIsSafe` | navigation2-main/nav2_collision_monitor/src/collision_monitor_node.cpp:219-241 | After every call of every run, activations and deactivations included, the last velocity published is the last one selected. |
| `CollisionMonitors.SilentOnlyWhenTold` | navigation2-main/nav2_collision_monitor/src/collision_monitor_node.cpp:219-231 | Silence is kept only after an uninterrupted stop that was published and is older than the timeout. |
| `CollisionMonitors.SilenceComes` | navigation2-main/nav2_collision_monitor/src/collision_monitor_node.cpp:219-231 | Silence does come: with zero selected since call k, a call more than the timeout after it publishes nothing. |
| `CollisionMonitors.DeactivatedIsQuiet` | navigation2-main/nav2_collision_monitor/src/collision_monitor_node.cpp:143-152 | From a deactivation to the next activation nothing is published. |
| `CollisionMonitors.CollisionMonitor.PublishVelocity` | navigation2-main/nav2_collision_monitor/src/collision_monitor_node.cpp:219-241 | Publishes the requested velocity unless the stop has lasted longer than the timeout; records when the stop began. |
| `CollisionMonitors.CollisionMonitor.OnDeactivate` | navigation2-main/nav2_collision_monitor/src/collision_monitor_node.cpp:143-152 | Resets the remembered action so that the first stop after reactivation is published. |
| `CollisionMonitors.CollisionMonitor.Process` | navigation2-main/nav2_collision_monitor/src/collision_monitor_node.cpp:406-515 | Selects, publishes and remembers; nothing while inactive. |
| `IncludeMerge.IncludeLoader.LoadIncludes` | navigation2-main/tools/bt2img.py:102-172 | Ends on every finite include graph; marks reachable files that are then complete, removes all includes and appends the trees of every newly marked file once. |
| `IncludeMerge.PartsCount` | navigation2-main/tools/bt2img.py:125-157 | Includes, trees and other children are told apart exactly, by multiplicity. |
| `IncludeMerge.MergeAll` | navigation2-main/tools/bt2img.py:175-181 | From an empty set exactly the paths reachable from the root are marked, and the trees gained are those of the loadable ones, each once. |
| `IncludeMerge.MergeFile` | navigation2-main/tools/bt2img.py:175-181 | main fails iff the root file cannot be parsed; otherwise every file of the include graph is merged exactly once iff the root file does not reach itself or holds no trees. |
| `IncludeMerge.RootMergedOnce` | navigation2-main/tools/bt2img.py:138-157 | The root's own trees plus those of the marked files count every file once iff the root is not marked or has no trees. |
| `IncludeMerge.SelfIncludeDoubles` | navigation2-main/tools/bt2img.py:138-157 | Concrete case: in a file that includes itself, its tree ends up twice. |

## Left out

- Floating-point rounding, NaN, integer overflow and unsigned wrap-around: coordinates are reals, cells and costs integers.
- TieBreaking.ExactIffNoneTrapped: speaks of all queue orders; for the one order in which the source scans rows and pushes neighbours the condition is sufficient, and a trapped cell may still come out right.
- Wavefront.Coverage: no bound in Euclidean distance beyond the Manhattan ball, where cells in reach may stay unseen (`NearestObstacle.ReachedCellUnseen`).
- InflationCost.ScanSuffices: stated for labels that are nearest obstacles; for others the two passes may break ties differently, and equality of the costs is not shown.
- `InflationLayer::updateBounds` and dynamic parameters: only min, max and flags.
- CostmapProtocol.Replication: deliveries across the two raw topics are in sending order (`CostmapProtocol.OvertakingExact` says exactly when another order does harm).
- UpdateCycle.EndToEnd: publishes that are due are safe; `UpdateCycle.SteadyTurn` says when they are so by themselves, `UpdateCycle.StaleWindowExact` and `UpdateCycle.ReturnLosesCells` when they are not.
- `Costmap2DROS::resetLayers`, which clears the map outside any reported window, and runs with `publish_cycle_` zero, which publish nothing.
- The translated OccupancyGrid topics, the costmap service, queue depths and late joining subscribers.
- LayeredCostmaps.LayeredCostmap.UpdateMap: layers are arbitrary functions that write inside the window they are given; their internal state is an input of each cycle.
- CollisionMonitors.GetCollisionTime: one projection of the pose and the transformation of a point are inputs; a time step that is not positive, with which the source does not terminate, is excluded.
- Raster.RaytraceLine: `min_length` is 0, its default, as in all modelled callers.
- GridKernel.Costmap2D.UpdateOrigin: an empty overlap copies nothing back, where the source copies rows of zero bytes.
- PolygonFill.ConvexFillCells: the region starts from an empty list, as all callers pass one.
- FootprintCost.FootprintCost: footprints of fewer than 2 points, for which the source reads unset variables.
- IncludeMerge.IncludeLoader.LoadIncludes: path resolution is done beforehand; an include carries the absolute path it resolves to, if any.
- Obstacle, voxel, static, range and denoise layers, costmap filters, AMCL, controllers, behaviour trees, launch files and node lifecycles.
- Threads and mutexes: each locked method is one step.
