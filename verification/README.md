# Verified model of the board autorouter

This project models the algorithms of a KiCad board autorouter and proves what they promise: finding paths
for copper, measuring the length of a net, keeping clearances while the board is edited, folding meanders
into tracks, reading and writing board files, and serving requests over a pipe. Code that works step by
step on slices, maps and objects is modelled by methods and classes that do the same, each proved against a
specification; the specifications are then shown to mean what the program is for.

The parts, and the files that hold them:

- **Routing.** `Grid`, `RouteSpace` and `AStar` are the search, `PathCost` what a path's cost comes to; `Lay` turns a path into copper; `Routes` says what a
  request and a route are, `Tries` what one try, one turn and many in a row may come to, and `RouteState` what a run
  keeps; `Router` is the loop that proposes, checks, lays and takes up again, over `Board` and `Clearance`.
- **Length.** `NetGraph`, `MinHeap` and `Dijkstra` measure a net and `Islands` groups its pads; `Forest`, `Clusters`,
  `Divisions`, `Connections` and `LengthGraph` build the graph that is measured, and `Mileage` says what a route through
  it comes to in the copper it runs in.
- **Clearance.** `Clearance` is the grid index that is edited as the board is, and the rules it applies.
- **Tuning.** `Meander` is the shape and its arithmetic, `Areas` where copper may go, `Stretches`, `RoomBeside` and
  `Runs` the search for room, `Replacement` the path through a track's meanders (`Along` places things on a track),
  `Tune` the lengthening of a net; `Suggest` gathers areas to propose.
- **Documents.** `Tokens`, `Sexpr`, `SexprReader` and `SexprEdits` are the S-expression file.
- **Shared.** `Geometry` and `Euclid` are points, boxes and distances, `Sorting` the sort, `Common` a few list helpers.
- **Smaller algorithms.** `IslandJoins` (a cheapest set of connections), `Glob` (name patterns), `EarClip`
  (triangulation), `Frames` and `PipeServe` (the pipe protocol).

Arithmetic is exact: coordinates and lengths are reals, every tolerance of the program (1e-6, 1e-9, 1e-12) is
zero, and nothing is snapped to a grid. A distance is any function whose square is right, and the square root
of two any number between one and two whose square is two. The distance between two shapes is any function
with one law: closer than *m* means that the box of one, grown by *m*, meets the box of the other. What the
program asks of code outside the model (custom clearance rules, whether the user has stopped a run, what a
request handler answers) comes in as a parameter, one answer for each time it is asked, or is left open as a choice.

Where the code and its comments disagree, the code is modelled:

- the name matcher compares characters before it looks for a `*`, so a `*` in the name itself is taken
  literally: `Glob.SafeNames` says for which names it is right all the same;
- the search margin of the clearance index is worked out from the candidate's net alone, although it is said
  that nothing too close is missed: `Clearance.MarginIsEnoughIff` says exactly when that is so;
- a net that is coupled to none reads as coupled to the empty name, so copper without a net is let off the zone and
  open-field clearances beside it: `Clearance.SpacingReachesIff` says exactly between which nets they can ask more,
  `Clearance.PadWithoutNet` is a case;
- the frame writer does not check the bound that the reader enforces: `Frames.FrameRoundTrip`;
- replacing a track files the new copper under the old track's net whatever its own: `Board.Board.ReplaceTrack`
  says when the lists stay in step;
- what a stretch of track can hold is not always what the planner can fold into it, although it is said to be the same
  arithmetic: `Stretches.CapacityIsTrueIff` says exactly for which styles it is;
- connections between islands are all made only if every island has a pad whose position is known:
  `IslandJoins.Joining`.

## Model

| member | source | states |
|---|---|---|
| AStar.Search | route/astar.go:61-148 | The path returned is legal and costs no more, its length, bends and vias counted on its cells (PathCost.CostIsPrice), than any legal path from any start to any goal; nothing is returned only if there is no such path or the search was stopped; it always ends. |
| AStar.MoveIsStep | route/astar.go:93-143 | Every move tried is a legal step of the cost the route is charged. |
| AStar.StepIsMove | route/astar.go:93-143 | Every legal step, sideways, diagonal or by via, is among the moves tried. |
| AStar.BetterIsNew | route/astar.go:150-157 | A cheaper way is only ever found to a state not yet expanded, so nothing needs opening again. |
| AStar.RelaxKeeps | route/astar.go:150-157 | Recording a better way keeps every recorded cost the cost of a real path, and everything open waiting in the queue. |
| AStar.Along | route/astar.go:61-148 | Along any legal route the search has already come as cheaply up to an open state, which is why the first goal taken is best. |
| AStar.GoalIsBest | route/astar.go:81-89 | When a goal state comes off the queue, no route is cheaper than its path. |
| AStar.NoneLeft | route/astar.go:144-147 | An empty queue means that no route exists. |
| AStar.Unwind | route/astar.go:159-178 | Following the recorded predecessors gives the path whose cost was recorded; the loop guard never fires. |
| PathCost.CostIsPrice | route/astar.go:110-143 | The cost of a legal path is the pitch for each step along the grid, root two times that for each diagonal one, the via price for each change of layer and the bend price for each cell it comes to one way and leaves another on one layer: counted on the cells. |
| PathCost.LegalPathMeans | route/astar.go:110-143 | A path is legal if and only if each cell is inside the grid and free or the net's, and each next one is a neighbour, with both cells beside a diagonal step open to the net too, or straight above or below where a via may stand. |
| RouteSpace.OctileIsConsistent | route/astar.go:18-43 | One move lowers the octile distance by no more than the move's own length. |
| RouteSpace.EstimateIsConsistent | route/astar.go:61-80 | No move is cheaper than the estimate it works off, whatever the bend and via prices. |
| RouteSpace.EstimateAlong | route/astar.go:61-80 | Along a legal path the cost still to come is at least what the estimate drops by: the estimate never overstates. |
| Grid.Extent.IndexInRange | route/grid.go:56-61 | Every cell inside the grid has a place in the owner slice. |
| Grid.Extent.IndexIsInjective | route/grid.go:56-61 | Two cells never share a place. |
| Grid.CellGrid.Block | route/grid.go:133-139 | Exactly one cell becomes nobody's to use. |
| Grid.CellGrid.Claim | route/grid.go:141-150 | Only a free cell changes hands. |
| Grid.CellGrid.Release | route/grid.go:152-159 | Every cell of the net, and no other, is free again. |
| Grid.WhoMayUse | route/grid.go:90-98 | Two nets may both use a cell only if it is free; one that has an owner is that net's alone, and a blocked one no net's. |
| Lay.Copper | route/lay.go:165-213 | The copper stands for the path: one via for each change of layer, one segment for each straight run that cannot be made longer, then a stub to each pad unless the pad is on the cell. |
| Lay.CellsOnSegment | route/lay.go:184-204 | Every cell of a straight run lies on its segment, evenly spaced. |
| Lay.CopperIsUnbroken | route/lay.go:165-213 | The copper runs unbroken from the first cell to the last, changes layer only at vias, and bends only where the path does. |
| Lay.PadsAreJoined | route/lay.go:206-212 | With the two stubs, the copper of a path is one run from pad centre to pad centre, whether or not the pads are on the cells. |
| Lay.DrawnAsAsked | route/lay.go:165-213 | Every piece of a path's copper is on the net; segments have the width asked and lie on layers of cells of the path, vias have the size and span asked and stand on cells of the path. |
| Routes.CentresApart | route/grid.go:64-69 | Cell centres are a pitch apart on each axis for each cell between them, and the first is at the grid's origin. |
| Routes.NearestIsNearest | route/grid.go:71-78 | The nearest cell of a point is in the grid, no other cell's centre is nearer on either axis, and a point the grid reaches is within half a pitch of it on both. |
| Routes.HalvesGoOut | route/grid.go:71-78 | A place halfway between two cells goes to the one farther from the grid's origin. |
| Routes.AtPadReaches | route/lay.go:89-118 | A route may leave a pad from every cell of the grid whose centre is within a pitch of the pad's, on each of the pad's layers. |
| Routes.OnLayerMeans | route/lay.go:91-102 | A pad is on the layers it names, and with the wildcard among them on every copper layer of the board. |
| Routes.StubsAreShort | route/lay.go:206-212 | A route's copper is what stands for a path, and at most two stubs besides, none longer than one and a half pitches on either axis between pads the grid reaches. |
| RouteState.CommitKeeps | route/lay.go:285-316 | Laying checked copper keeps board, index and results in agreement, and all copper of different nets accepted. |
| RouteState.RipUpKeeps | route/route.go:419-431 | Taking a route up leaves exactly what was there before it and every other route, still accepted. |
| RouteState.ClearIsAccepted | route/lay.go:224-244 | A clean check that excuses the net's own copper and pads has excused nothing of another net. |
| RouteState.OfferAsksClass | route/lay.go:224-244 | New copper is offered with its net's class clearance, on its layer, and has to clear all that is live there or an edge, and not excused. |
| RouteState.ExemptIs | route/lay.go:149-163 | What is excused is the net's copper by its uuid, where it has one, and the net's pads, and nothing else. |
| RouteState.TakesUp | drc/drc.go:307-325 | The box of a segment is what is within half its width, on each axis, of some place between its ends, and that of a via what is within half its size of its centre. |
| RouteState.StandsOnBoard | drc/drc.go:307-325 | Laid copper is an obstacle in each of its shapes on its own layer, or for a via on each its span reaches, on its net and by its name, and in no other way. |
| RouteState.LaidCopperKeepsClear | route/lay.go:13-22 | Any two tracks of different nets on a routed board are as far apart as everything the rules want of them asks, wherever the index looks far enough: a segment on its layer, a via on every copper layer. |
| RouteState.IndexIsAsFresh | route/lay.go:307-315 | At any point of a run the clearance index answers as one built afresh over the board as it stands. |
| Router.Router.Exempt | route/lay.go:135-163 | The cached exemptions are always those of the board as it stands. |
| Router.Router.AccessCells | route/lay.go:89-118 | Exactly the usable cells at a pad and beside it, on the pad's layers. |
| Router.Router.Propose | route/lay.go:38-66 | A proposed path is a cheapest one through the grid as it stands, a via being allowed only where one clears everything; none is proposed only if there is none or, somewhere in this very search, the answer was to stop. |
| Router.Router.Reject | route/lay.go:224-244 | Names the first piece the rules refuse, and none only if they refuse none. |
| Router.Router.BlockAround | route/lay.go:256-276 | Exactly the cells about the refused stretch of the path become unusable. |
| Tries.SpanIs | route/lay.go:259-276 | The stretch of the path meant is the cells up to two places either side of the one as far along it, rounded down, as the refused piece is in the count of pieces up to it. |
| Tries.NearIsAPitch | route/lay.go:269-274 | The cells about one are those of its layer whose centres are no farther than a pitch from its own on each axis. |
| Tries.ClaimMeans | route/lay.go:296-306 | Laying a route takes the free cells about its path from every other net and no others, and none from its own. |
| Tries.NoPathTwice | route/lay.go:56-77 | No path is tried twice for a connection: each refused path has a cell that none of the later ones goes through. |
| Router.Router.Commit | route/lay.go:285-316 | Only copper that joins the pads and was found clean is laid. The route is on the board, in the index and in the grid, the free cells about it are the net's, and every invariant of the run holds. |
| Router.Router.RipUp | route/route.go:419-431 | The route is off the board and the index, its net's cells are free, no other result changed, and every invariant of the run holds. |
| Router.Router.One | route/lay.go:13-80 | A pad is missing; or, after fewer than twelve paths, each a cheapest one through what blocking about the refused pieces of those before it left, with the first piece the rules refuse named, a cheapest path is accepted, and it is its copper, from pad centre to pad centre, that is laid; or nothing but the grid and the count of attempts has changed, because nothing beside a pad is free, or no way is left, or twelve such paths were refused, or the search was told to stop. |
| Router.Router.TryOnce | route/lay.go:56-77 | One path: a cheapest one, laid if every piece of its copper is clean, and otherwise refused for its first piece that is not, with exactly the cells about that blocked. |
| Router.Router.InTheWay | route/route.go:389-417 | Exactly the other routed requests with copper ending between the failed request's pads, and none if a pad is missing. |
| Router.Router.WhatIsInTheWay | route/route.go:389-417 | Such copper is a segment or via with an end within two pitches, on each axis, of some place in the box of the two pad centres. |
| Router.Router.HardestIsFarthest | route/route.go:379-387 | Hardest first is farthest first, by the distance between the pads' centres; a request with a missing pad counts as no distance. |
| Router.Router.MakeRoom | route/route.go:337-358 | Afterwards nothing is left in the way of any failure that had rip-ups left; only what was in the way of one was taken up, and nothing else has changed; each such failure is charged one rip-up. |
| Router.Router.OneRound | route/route.go:327-364 | Each in the queue has a turn in order; the failures are exactly those not made in their turn; what is in their way is taken up and counted. Every request not made is in the next round's queue; the run is over only when each request is made, or just failed in its turn with nothing in its way or its rip-ups used. |
| Router.Router.Route | route/route.go:306-366 | The run is a chain of turns and rounds from the board as it was to the board as it is, each turn as One says, the hardest first, stopped only on being told so. At the end the board holds its original copper and exactly the copper of the routed results, each of which joins its pads; the index matches it, and all was accepted when laid. Unless stopped or out of rounds, every request is made or was given up in the last round with nothing more to do for it. Asked only that requests with equal keys are on one net: see KeyTellsNet. |
| Router.Router.AllGivenUp | route/route.go:327-352 | Of the requests still unmade at the end, each had its turn in the last round and failed in it, for one of the reasons One gives, and has nothing in its way that could still be taken up, or has used its rip-ups. |
| Router.OutcomeIs | route/route.go:317-323 | The last request of a key has that key's answer; one made again after it has none, and no copper. |
| Router.KeyTellsNet | route/route.go:368 | Results are kept by net, a bar and the pads: requests on two nets can share one if and only if the nets are the same, or one is the other followed by a bar and more. |
| Routes.KeyTellsPads | route/route.go:368 | On one net a key tells the two pads as well, if their names have no bar in them. |
| Routes.RouteJoinsPads | route/lay.go:165-213 | The copper of a result can be put in an order in which it runs unbroken from the centre of the one pad to the centre of the other, and it leaves and reaches them on layers they are on. |
| Board.Board.AddTrack | board/board.go:362-371 | New copper is at the end of the document and of the flat list and of its net's list, which stay in step. |
| Board.Board.ReplaceTrack | board/board.go:373-399 | The new copper stands where the old did in the document and in the lists; a track no longer there is refused and nothing changes; the lists stay in step exactly when the new copper is on the old one's net. |
| Board.Board.RemoveTracks | board/board.go:401-429 | Exactly the tracks named are gone, from the document, the flat list and every net's list; the number returned is how many. |
| Board.ReplacedOnNet | board/board.go:393-398 | Replacing a track by others on its net replaces it in that net's list and in no other. |
| Board.KeptOnNet | board/board.go:414-427 | Filtering the flat list and filtering each net's list agree. |
| Board.InStepIff | board/board.go:393-398 | The per-net lists agree with the flat list after a replacement if and only if all new copper is on the old track's net. |
| Clearance.MeetingBoxesShareACell | drc/drc.go:340-351 | Two boxes that meet are listed in a common cell, so nothing near is missed. |
| Clearance.Checker.Near | drc/drc.go:565-585 | Exactly the obstacles whose boxes meet the grown box, each once. |
| Clearance.Checker.AroundComponent | drc/drc.go:231-243 | True exactly when some component's area meets the box. |
| Clearance.Checker.RequiredOf | drc/drc.go:483-521 | The clearance one obstacle asks of one shape: what RequiredIsMost says it is. |
| Clearance.RequiredIsMost | drc/drc.go:483-521 | The clearance is the most of what is wanted, or none where nothing more is: of an edge, the edge clearance; of the net's own copper other than zones and pads, the gap for it; of another net's, both class clearances and the candidate's own unless a relaxing rule answers, what a rule answers, and between nets that are no pair each zone's clearance around both pieces and, in the open, the open-field one. |
| Clearance.SharedIsBoth | drc/drc.go:244-261 | The area two boxes share is the places in both; boxes that share none give the second. |
| Clearance.Checker.Check | drc/drc.go:376-416 | Names each thing clashed with once and nothing else, with the clearance asked and what there is, tightest first; empty exactly when Clear says so. ClashMeans says in distances what a clash is. |
| Clearance.CentreIsMiddle | drc/drc.go:376-416 | The place a clash is put down at is as far from the one side of the shape's box as from the other. |
| Clearance.Checker.Clear | drc/drc.go:454-481 | True exactly when no shape of the candidate hits an obstacle; where the margin covers everything, exactly when every obstacle it has to clear is at least as far from each shape as each clearance wanted of it. |
| Clearance.ClashMeans | drc/drc.go:376-416 | A shape and an obstacle clash exactly when the obstacle is live, on the layer or an edge, and not exempt, and some clearance wanted of it is more than the distance between them. |
| Clearance.ClearMeans | drc/drc.go:454-481 | With the margin covering everything, a verdict of clear means just that all is as far off as it should be. |
| Clearance.OwnNetMeans | drc/drc.go:489-496 | Of the net's own copper, a zone or pad is never hit; anything else is hit exactly if it is nearer than the gap for the same net. |
| Clearance.EdgeMeans | drc/drc.go:483-488 | The board's edge is hit exactly if it is nearer than the edge clearance, on whatever layer. |
| Clearance.OtherNetMeans | drc/drc.go:497-521 | Another net's copper within the margin and found clear is at least both class clearances away unless a relaxing rule answers, at least what a rule answers, and unless the nets are a pair at least the clearance of every zone that holds both pieces and, in the open, the open-field one. |
| Clearance.Checker.AddTrack | drc/drc.go:307-325 | The live obstacles gain every shape of the copper on every layer of it. |
| Clearance.EveryShapeEveryLayer | drc/drc.go:307-325 | The obstacles a piece of copper makes are each of its shapes on each of its layers, by its name and on its net, and no others. |
| Clearance.BoxIsLeast | geom/geom.go:456 | The box of a shape is within just those boxes that hold all that is within its radius, on each axis, of its points. |
| Clearance.Checker.RemoveRef | drc/drc.go:327-338 | The live obstacles lose exactly those of that reference; an empty reference removes nothing. |
| Clearance.Checker.SetOpenSpacing | drc/drc.go:194-226 | The open-field clearance and the coupling are those given; around each component that has pads lies one area, its pads' extent and the margin, and the area index lists them; with no clearance there is no area. |
| Clearance.Components | drc/drc.go:203-225 | The areas are exactly the extents, grown by the margin, of the components that have pads. |
| Clearance.ExtentIsLeast | drc/drc.go:204-216 | A component's extent is the least box around its pads: within every box that holds them all. |
| Clearance.SameLiveSameAnswers | drc/drc.go:376-481 | Clear's verdict and the clashes Check names depend on the live obstacles alone, not on order or history. |
| Clearance.EditsFollowTheBoard | drc/drc.go:307-338 | After any interleaving of additions and removals, what is live is the copper on the board and what never was copper. |
| Clearance.EditedAnswersAsFresh | drc/drc.go:307-338 | An edited index answers exactly as one built afresh over the current copper. |
| Clearance.IndexAnswersAsScan | drc/drc.go:555-563 | With every clearance within the margin, the index answers as a scan of every obstacle. |
| Clearance.MarginIsEnoughIff | drc/drc.go:555-563 | Every clash with copper of another net is seen if and only if, farther apart than the margin, no two shapes are closer than class and custom rule ask; for rules that do not look at places, if and only if what they ask of each piece is within the margin; without rules, if and only if the net's class clearance is. |
| Clearance.SpacingReachesIff | drc/drc.go:504-516 | Zone and open-field clearances can ask more between two nets if and only if the nets are not coupled, and neither is the empty name beside a net that is coupled to none. |
| Clearance.PadWithoutNet | drc/drc.go:551-553 | A case where they ask nothing: a pad without a net, 0.3 from copper of a net with no partner, is clear in an open field of 0.5, and would not be if it had a net. |
| MinHeap.HeapQ.Push | netlen/graph.go:535-546 | Adds the item and keeps the heap. |
| MinHeap.HeapQ.Pop | netlen/graph.go:548-570 | Removes and returns a least item, and keeps the rest. |
| NetGraph.PartsSumToLength | netlen/netlen.go:74-91 | The parts of a route add up to its length. |
| NetGraph.ShortestIsSymmetric | netlen/netlen.go:141-154 | The shortest distance is the same from either end. |
| NetGraph.Graph.Add | netlen/graph.go:105-113 | An edge is added both ways; one from a node to itself is not. |
| Dijkstra.DijkstraFrom | netlen/graph.go:467-507 | Every distance is the least over all walks, and infinite exactly when there is none; delay, vias, parts and predecessor of each node are those of one walk of that length. |
| Dijkstra.RelabelKeeps | netlen/graph.go:490-503 | Writing a better label in all six slices keeps them describing one and the same walk. |
| Dijkstra.ClosedIsShortest | netlen/graph.go:478-489 | When a node comes off the heap at its label, though more is waiting and stale entries among it, no walk to it is shorter; nor to any expanded before it. |
| Dijkstra.TracksOnRoute | netlen/graph.go:509-529 | The predecessor chain ends at the source and yields exactly the copper of the route. |
| Dijkstra.MeasurePaths | netlen/netlen.go:219-244 | Every pair of pads is measured: found exactly if joined, with the shortest length and the delay, vias, parts and copper of one such route. |
| Mileage.ReportIsOfCopper | netlen/netlen.go:219-244 | A path reported between two terminals is some route through the copper: its length and delay are those of the stretches it runs in, its vias are as many as it passes through, and its parts and copper are theirs. |
| Dijkstra.EitherOrder | netlen/netlen.go:141-154 | Asking for a path with its pads in either order finds the same one; it is shortest, and any path measured from the other end is found just when it is and is as long. |
| Forest.Forest.Find | netlen/graph.go:127-133 | The root of an element; halving the path on the way changes no root. |
| Forest.Forest.Union | netlen/graph.go:135-140 | Joins exactly the two groups concerned. |
| Forest.HalvingKeeps | netlen/graph.go:127-133 | Skipping a parent changes nobody's root. |
| Clusters.Clusters.Union | netlen/graph.go:173-195 | Merges unless that would put two ends of one owner together; afterwards the owners kept at each root are exactly those in its cluster. |
| Clusters.MergeKeepsProper | netlen/graph.go:142-195 | A merge keeps every cluster on one layer with no owner twice. |
| Clusters.MergeJunctions | netlen/graph.go:238-259 | The pairs in reach are tried closest first, each merging exactly its own two clusters unless an owner is in both; afterwards no cluster holds two ends of one owner, every cluster is on one layer, and every pair in reach is merged or blocked. |
| Clusters.OrderDecides | netlen/graph.go:253-259 | The order of the pairs alone decides which terminals end up together, whichever root is hung under the other. |
| Divisions.DivisionLosesNothing | netlen/graph.go:271-299 | Dividing a track loses no route: each is still there, no longer. |
| Divisions.DivisionMakesNoShortcut | netlen/graph.go:286-299 | Dividing where the net was otherwise apart makes no route shorter. |
| Divisions.StopDivides | netlen/graph.go:347-361 | A stop put into a track's chain divides one piece of it in two that add up. |
| Divisions.DivisionsKeepDistances | netlen/graph.go:271-361 | All the divisions together change no distance between nodes joined before; no track passes a node twice, so no piece is dropped. |
| LengthGraph.TermNodes | netlen/graph.go:262-269 | The node of a terminal is its cluster's root, which meets what the graph asks of its nodes: no track has both ends on one. |
| LengthGraph.BuildGraph | netlen/graph.go:197-378 | The graph built is exactly that of the junctions, the chosen divisions and the via hubs; each edge carries the length, the delay, the parts, the via mark and the uuid of the very piece of copper it stands for, and each piece has its edge. |
| Mileage.RouteComesTo | netlen/graph.go:347-378 | Every route through the graph runs in the net's copper, step by step, and its length, delay, half barrels, parts and names are those of the stretches it runs in: so much of a track's length at its rate, half a via's barrel at its. |
| Mileage.AtOneRate | netlen/graph.go:347-378 | With one rate for all tracks and vias, a route's delay is its length times the rate. |
| Mileage.TrackEndToEnd | netlen/graph.go:347-361 | However a track is divided, its pieces lead from one end to the other, and together have its whole length, and its whole length times its rate for delay. |
| Mileage.AcrossVia | netlen/graph.go:363-378 | Between two layers a via reaches, a route through it has the length and delay of the whole barrel, once. |
| Mileage.BuiltStops | netlen/graph.go:347-361 | Every stop on a track as built is at a terminal, and they are in order: what the statements about routes ask. |
| Mileage.TwoHalvesEach | netlen/graph.go:363-378 | A route between terminals crosses two half barrels for each via it passes through. |
| LengthGraph.Components | netlen/graph.go:297-307 | Before any division two terminals have one label exactly when tracks and vias connect them. |
| LengthGraph.Divide | netlen/graph.go:333-345 | Candidates are taken closest first; each division joins two pieces that were separate, and every candidate ends up joined by divisions no farther off than itself. |
| LengthGraph.EndsApart | netlen/graph.go:212-224 | A track's two ends are different nodes. |
| LengthGraph.DividingChangesNoDistance | netlen/netlen.go:169-178 | Between nodes joined when no track is divided, the shortest distance is the same with the divisions. |
| Connections.DivisionsConnect | netlen/graph.go:333-345 | After the divisions, nodes with one label are still connected, those the divisions joined among them. |
| LengthGraph.LandingsAreJoined | netlen/graph.go:273-276 | Copper that lands partway along a track is joined to it in the graph, by a division or some other way: no branch is invisible. |
| LengthGraph.EveryDivisionJoins | netlen/graph.go:287-290 | No division is made for nothing: with the earlier ones made, its terminal and its track are not connected. |
| Islands.PadSets.Find | netlen/netlen.go:311-321 | The root of a pad; shortening every parent on the way changes no root. |
| Islands.PadSets.Unite | netlen/netlen.go:325-329 | Joins exactly the two sets concerned. |
| Islands.GroupPads | netlen/netlen.go:309-347 | In whatever order the paths come, each island is all the pads found paths join to any pad of it, every pad is in one, and no two are joined. |
| Islands.IslandsAreCopper | netlen/netlen.go:230-246 | Two pads of a measured net are in one island exactly if copper joins them. |
| IslandJoins.Joining | server/interfaces.go:603-654 | One connection fewer than there are islands, connecting them all as cheaply as any set could, exactly when every island has a positioned pad; otherwise those that have are connected to the first, or nothing is if the first has none. |
| IslandJoins.GiveUpOne | server/interfaces.go:603-654 | Bringing an island in, some connection crossing over can be given up: the exchange behind the greedy choice. |
| IslandJoins.NearestKeepsCheapest | server/interfaces.go:616-651 | Adding the nearest connection keeps what is made so far part of a cheapest whole. |
| IslandJoins.Nearest | server/interfaces.go:621-645 | The nearest pair of positioned pads across the boundary, or none only if there is none. |
| IslandJoins.Net.BetweenIsDistance | server/interfaces.go:638 | How far apart two pads are is the distance between their positions. |
| Suggest.Gather | tune/suggest.go:93-131 | The groups are the finest division of the spots into boxes farther apart than the margin, each with its exact box, gain and nets. |
| Geometry.GrownOverlap | tune/suggest.go:113-131 | A box grown by a margin meets another exactly when some place in each is no farther from the other than that on either axis. |
| Suggest.OrderDoesNotMatter | tune/suggest.go:110-131 | However the spots arrive, the same ones end up together. |
| Suggest.SameAreas | tune/suggest.go:110-131 | However the spots arrive, the areas have the same extent. |
| Suggest.NearStaysTogether | tune/suggest.go:113-131 | Groups that touch are together in every division into separate boxes. |
| Meander.MeanderLength | tune/shape.go:24-56 | A meander is longer than its straight by exactly n(2h - 4c(2 - root 2)). |
| Meander.PolylineLength | tune/shape.go:127-137 | The line drawn, repeats left out, has exactly that length. |
| Meander.Polyline | tune/shape.go:72-114 | The points drawn are the meander's corners in order, from the run's start to its end. |
| Meander.PolylineStays | tune/shape.go:72-114 | The line never turns back along the run, and stays between the run and the amplitude. |
| Meander.LegsApart | tune/shape.go:175-183 | Any two legs stand at least the spacing apart. |
| Meander.LegsOfExcursion | tune/shape.go:96-108 | The vertical stretches of each excursion are its legs. |
| Meander.ExcursionDrawn | tune/shape.go:91-109 | Every excursion counted is drawn. |
| Meander.Centred | tune/shape.go:74-80 | The excursions stand in the middle of the run: as much of it is left after the last as before the first. |
| Areas.EdgeDistanceExact | tune/areas.go:114-132 | A point inside a box stays inside on moving if and only if it moves no farther than the edge distance, which is none without a direction. |
| Areas.SpanIsWhole | tune/areas.go:68-84 | A stretch is allowed if and only if, where there are areas, one of them has every place in the box of its two ends. |
| Areas.RoomToward | tune/areas.go:86-112 | A stretch can be moved aside by just so much and still be, with its old place, within one area. |
| Areas.StripInside | tune/areas.go:68-112 | An area that holds the four corners of a strip beside a stretch holds all of it. |
| Stretches.PlanMeander | tune/shape.go:149-218 | Of the meanders that fit, however many excursions they have, the one with the most; none only if none fits; no longer than is wanted; and on a stretch with capacity never higher than its room. |
| Stretches.CountFits | tune/shape.go:166-185 | So many excursions with the spaces between them are no longer than the stretch exactly up to the count it starts from. |
| Stretches.HighAsMayBe | tune/shape.go:186-205 | Each meander considered gains exactly what is wanted, or is as high as there is room for, or as low as one can be. |
| Stretches.FlatIsLeast | tune/shape.go:166-178 | No meander of the style's spacing and chamfers has a narrower flat than those considered, whose legs are the spacing apart or whose four chamfers fill it. |
| Stretches.CapacityIsMost | tune/meander.go:382-401 | No meander in the style on so long a stretch and no higher than that gains more than its capacity. |
| Stretches.CapacityIsReached | tune/meander.go:382-401 | Where a spacing holds two chamfers, some meander in the style gains all of it. |
| Stretches.CapacityIsTrueIff | tune/meander.go:382-401 | A meander can gain all that the capacity says on every stretch, if and only if a spacing holds two chamfers. |
| Stretches.PlannedLegsApart | tune/shape.go:166-183 | Legs of a planned meander stand at least Gap + 1 widths apart, centre to centre. |
| Stretches.PlannedCorners | tune/shape.go:166-178 | Each excursion ramps out by the style's chamfer, in track widths, as far as it goes along, to the full amplitude and back, and is no lower than the style's least. |
| RoomBeside.MeasureRoom | tune/meander.go:518-548 | The loop of halvings computes the room that ClearRoomIs is about. |
| RoomBeside.ClearRoomIs | tune/meander.go:511-548 | The room measured fits; a 256th of the range farther out there is a place that does not, unless it fits as far out as is ever tried; and it is none exactly when not even the least excursion fits. |
| RoomBeside.SweepIsWhole | tune/meander.go:514-516 | The probe covers the whole swept area: whatever lies within the room is within half a width of a line found clear. |
| RoomBeside.RoomOfStep | tune/meander.go:430-450 | As much room as the bisection measures, capped so that copper half a width wide stays within one area; none where the step is not allowed. |
| RoomBeside.Pieces | tune/meander.go:452-472 | Exactly the contiguous stretches long enough, with room throughout, that can hold something. |
| RoomBeside.LeastIsSome | tune/meander.go:452-472 | The room of a stretch is that of one of its steps. |
| RoomBeside.UsableMeans | tune/meander.go:452-472 | A stretch is worth having if there is room for the least excursion beside each of its steps, they come to a long enough run, and it can hold something with the room of its tightest. |
| RoomBeside.TakeBest | tune/meander.go:477-508 | The stretches taken do not overlap, and each one left out overlaps one taken that holds as much. |
| RoomBeside.PieceStaysInside | tune/meander.go:421-450 | Every point beside a stretch, out to half a width beyond its amplitude, is in some area. |
| RoomBeside.MeanderStaysInside | tune/areas.go:86-96 | A meander planned for a stretch stays inside the areas, its copper on that side included. |
| Runs.SubRuns | tune/meander.go:403-508 | The runs are the best of the stretches on both sides: disjoint, with capacity, and nowhere outside the areas. |
| Runs.FindRuns | tune/meander.go:329-380 | On every straight track of the net that may carry a meander, exactly the best stretches and no others, none sharing track with another, the most capacious first. |
| Runs.EligibleMeans | tune/meander.go:335-364 | The tracks that may carry a meander are those with a width, touching an area if there are any, and with length enough for the shortest run when the gap, or the room for pads, is left at both ends. |
| Runs.StepsAre | tune/meander.go:411-418 | The room is measured in steps of half the shortest run, never less than 0.2, as many as go into the stretch. |
| Runs.LeftOfTrack | tune/meander.go:355-367 | What is left of a track for stretches begins and ends as far from its ends as the wider of the gap and the room for pads. |
| Runs.StretchKeepsOff | tune/meander.go:355-367 | No place on a stretch found is nearer to either end of its track than the gap, or than a pad is to be kept clear of. |
| Runs.GroupByTrack | tune/meander.go:243-260 | Every stretch is in the group of its track and no other; the tracks come in the order they are first found, and each one's stretches in the order they are. |
| Tune.PlanTrack | tune/meander.go:268-285 | Each stretch in turn is given the fitting meander of most excursions for exactly what the ones before it left wanting, or nothing only if nothing fits or is wanted any more; together they do not overlap and gain no more than is wanted. |
| Replacement.ReplacementPolyline | tune/shape.go:281-308 | The path that replaces a track is its line with the meanders folded in, in order, repeats left out; it joins the same ends and is longer by exactly what they gain. |
| Replacement.SumRearranged | tune/shape.go:288-291 | What meanders gain together does not depend on their order. |
| Replacement.PathIsOne | tune/shape.go:287-291 | The meanders alone decide the path: they can be put in order in one way only. |
| Replacement.PathStays | tune/areas.go:86-96 | Every step of the path is on the old track's line, or beside it with the whole band from the line out to half a width beyond the step within the areas: no meander leaves them. |
| Replacement.PointsStay | tune/areas.go:86-96 | Of such a step, every point is on the old track's line or somewhere copper is allowed. |
| Tune.ApplyTrack | tune/shape.go:220-279 | The track gives way to straight tracks along the path through its meanders, one for each step, on its net and layer, longer by exactly the gain; or nothing changes, because there was nothing to draw or the check refused that very path. |
| Tune.Tune | tune/meander.go:209-306 | Added and shortfall make up the request, neither negative, and the board's copper grows by exactly what was added. Tracks have their turns in order, each asked for exactly what the ones before left, and the board is what those turns make of it: a track that is gone may carry meanders and gave way to its path, and a track that is new is along the one it stands in for or within the areas. With a shortfall every stretch found had its turn, with no less wanted than the shortfall, and has its meander, had nothing that fits, or was on a path that was refused. |
| Tune.AllExplained | tune/meander.go:296-304 | From the turns alone: each stretch's own track was asked for at least what was missing in the end, and the reason it gained nothing, if it did, is one of those. |
| Tune.NewIsWellDrawn | tune/meander.go:286-295 | Every new track was drawn in some turn, as wide as the net's, on the net and layer of the track it stands in for, and along that or within the areas. |
| Tune.GoneGaveWay | tune/shape.go:220-228 | Every track that is gone gave way in its own turn, and all that was drawn in its place is on the board. |
| Tokens.QuoteRoundTrip | sexpr/sexpr.go:111-163 | Unquoting what was quoted gives the text back, and what was quoted is read as one token whatever follows. |
| Tokens.Quote | sexpr/sexpr.go:111-132 | The text with its special characters escaped, in quotes. |
| Tokens.EscapedOneAtATime | sexpr/sexpr.go:111-132 | The escaped text is the text with backslashes doubled, and then each quote, end of line, carriage return and tab replaced by a backslash and a quote, n, r and t. |
| Tokens.Unquote | sexpr/sexpr.go:134-163 | What an escaped text stands for; an unquoted atom is its own. |
| Tokens.Unescapes | sexpr/sexpr.go:144-163 | A backslash and n, r or t stand for the end of a line, a carriage return and a tab; a backslash and anything else for that; and all else for itself. |
| Tokens.TokenStands | sexpr/sexpr.go:587-615 | A token is read exactly: a quoted one whatever follows, a bare one up to white space or a parenthesis. |
| Tokens.BareEnds | sexpr/sexpr.go:605-611 | A bare token ends at a space, a tab, an end of line, a carriage return or a parenthesis, and at nothing else. |
| Tokens.SpaceEnds | sexpr/sexpr.go:543-554 | White space is spaces, tabs, ends of line and carriage returns, as far as they go. |
| SexprReader.Parser.SkipSpace | sexpr/sexpr.go:543-554 | Takes all the white space ahead, and only that. |
| SexprReader.Parser.ParseAtom | sexpr/sexpr.go:587-615 | Takes exactly the token ahead, or fails on a quote that is never closed. |
| SexprReader.Parser.ParseList | sexpr/sexpr.go:556-585 | Reads the list that opens here as the grammar does, and stops just after it. |
| SexprReader.Parse | sexpr/sexpr.go:481-519 | Reads a whole document, or fails just when the grammar does. |
| Sexpr.UntouchedIsExact | sexpr/sexpr.go:1-12 | Every source that is accepted is written back, untouched, byte for byte. |
| Sexpr.ReadKeepsText | sexpr/sexpr.go:556-585 | Reading a list keeps every character of it, and makes well-formed nodes. |
| Sexpr.WrittenApart | sexpr/sexpr.go:341-453 | All three ways of writing lay the items out in order with white space that keeps them apart. |
| Sexpr.WriteReads | sexpr/sexpr.go:341-453 | However much of it was edited, a node's text reads back as what the node says, wherever it stands. |
| Sexpr.DocReadsBack | sexpr/sexpr.go:530-541 | A well-formed document's text is accepted again and says the same. |
| SexprEdits.EditKeeps | sexpr/sexpr.go:263-337 | An append, replacement, removal or set number anywhere changes what the tree says just so, and keeps it well-formed. |
| SexprEdits.EditMarks | sexpr/sexpr.go:255-337 | An edit that does anything leaves the list it is made to marked as changed; a touch marks whatever it is made to and changes nothing else; a set argument is marked too; and nothing but a touch does anything to an atom. |
| SexprEdits.ChangedIsLaidAnew | sexpr/sexpr.go:341-453 | What stood between the items of a list marked as changed plays no part in how it is written. |
| SexprEdits.ClosesOnItsOwn | sexpr/sexpr.go:341-453 | A changed list with a list in it closes on a line of its own, indented as deep as the list is. |
| SexprEdits.FlatAtAnyDepth | sexpr/sexpr.go:341-453 | A changed list of atoms is written the same however deep it is. |
| SexprEdits.EditedReadsBack | sexpr/sexpr.go:263-337 | After any number of edits anywhere, the written document reads back as the document so edited. |
| SexprEdits.CleanTextKept | sexpr/sexpr.go:341-366 | Every subtree without a change stands in the written text byte for byte. |
| SexprEdits.UneditedTextKept | sexpr/sexpr.go:341-366 | Whatever is done to the lists it is in, a subtree that is not itself edited, replaced or removed is where its path has moved to in the edited document, its text stands in the new text exactly as in the source, and reading the new text back finds that text at that place. |
| SexprEdits.LostIff | sexpr/sexpr.go:263-337 | An edit takes a subtree out of that if and only if it edits within it, or replaces or removes it or a list it is in. |
| SexprEdits.DocReadAt | sexpr/sexpr.go:341-453 | What stands at a clean place of any document, edited or not, is read back at that place from its own text. |
| Glob.MatchPattern | board/project.go:237-266 | The loop with one remembered star ends, and computes the scan that the lemmas below are about. |
| Glob.ScanIsMatches | board/project.go:237-266 | It never accepts what the pattern does not mean, and for a name without `*` accepts all that it means: one remembered star is enough. |
| Glob.SafeNames | board/project.go:245-250 | It is right for every pattern if and only if the name has no `*`. |
| EarClip.CuttingTakesTheTriangle | preview/tess.go:165-172 | Cutting a vertex off takes exactly its triangle out of the area. |
| EarClip.CrossIsBaseTimesHeight | preview/tess.go:302-304 | What is summed for a triangle is its base times its height, positive to the left of the base: twice its area, counter-clockwise. |
| EarClip.InTriangleIff | preview/tess.go:306-311 | A point is in a counter-clockwise triangle if and only if it is some way towards two corners from the third, together no more than the whole way. |
| EarClip.SignedArea | preview/tess.go:165-172 | The loop computes half the shoelace sum. |
| EarClip.Dedupe | preview/tess.go:313-327 | Exactly the repeated neighbours and closing points are dropped; no two neighbours are left alike, and the area is unchanged. |
| EarClip.NoRepeatsAt | preview/tess.go:313-327 | Every point of the ring is still there, in the place that the changes before it put it, and there are no others. |
| EarClip.UnclosedIs | preview/tess.go:313-327 | All that is taken off the end is the point the ring begins with, and that is not left there. |
| EarClip.Clip | preview/tess.go:213-246 | Every triangle cut off is, in turn, an ear of what the ones before left, and counter-clockwise; it stops at a triangle or when no ear is left; what is left and what was cut off make up the ring's area. |
| EarClip.Triangulate | preview/tess.go:194-270 | The ring is reported done exactly when the triangles come to its area, which is exactly when what the ears leave has no area or is a single triangle that turns the right way. |
| Frames.FrameRoundTrip | pipehttp/pipehttp.go:198-247 | A frame reads back as itself, whatever follows, exactly when both halves are within the bound. |
| Frames.ReadIsWritten | pipehttp/pipehttp.go:198-247 | What reads as a frame is exactly what would be written of it, and is within the bound. |
| Frames.FrameLayout | pipehttp/pipehttp.go:198-208 | A frame is four digits in base 256, highest first, of how long the header is, the header, four of how long the body is, the body. |
| Frames.BigEndianIs | pipehttp/pipehttp.go:198-231 | The four bytes of a length are the only ones that, as digits in base 256 with the highest first, come to it modulo 2^32; reading them gives what they come to. |
| Frames.PartOfFrame | pipehttp/pipehttp.go:210-247 | Part of a frame never reads as one, and never as a clean end. |
| Frames.ReadPrefix | pipehttp/pipehttp.go:210-247 | Cut a stream anywhere: the reader gets the whole frames before the cut, and a clean end only between frames. |
| Frames.StreamRoundTrip | pipehttp/pipehttp.go:198-247 | A stream of frames within the bound reads back as those frames. |
| PipeServe.StepKeepsInv | pipehttp/pipehttp.go:71-104 | Every step of the reader, a handler or the locked writer keeps the invariant of the protocol. |
| PipeServe.StreamIsWholeAnswers | pipehttp/pipehttp.go:181-196 | In every interleaving the stream is whole answers, one after another, but for at most the one being written. |
| PipeServe.AnsweredAtMostOnce | pipehttp/pipehttp.go:71-104 | No request is answered twice, and every answer carries its request's id. |
| PipeServe.AllAnsweredOnReturn | pipehttp/pipehttp.go:71-104 | When Serve returns and no write failed, every request read was answered exactly once, but those whose header cannot be encoded; the stream reads back as the answers; and a clean return means the input was whole frames, each one of those requests. |
| PipeServe.SomeStep | pipehttp/pipehttp.go:71-104 | Until it returns some step can always be taken without a write failing, and it returns or comes nearer the end: nothing waits for ever for the lock or for a handler. |
| PipeServe.CanGoOn | pipehttp/pipehttp.go:71-104 | From wherever any run has got to, it can go on until Serve returns, with no write failing that has not already. |
| PipeServe.CanReturn | pipehttp/pipehttp.go:71-104 | Whatever is sent, some run returns with no write failed: what is said of the return is said of something. |

## Left out

- Tolerances, rounding and snapping: every epsilon is zero and coordinates are exact reals; float32 vertices are reals.
- Arc geometry, stackup, impedance and delay formulas: an arc is its flattened shapes, and lengths and delays are given.
- The HTTP handlers, sessions, reports, JSON shapes, command line and the KiCad plugin: plumbing without an invariant.
- The pad stage of the length graph, package and die lengths, and the whole-net KiCad length: the distance results are about tracks and vias.
- The order netlen lists islands in, and the vendor tables, presets and name classification.
- tune's expand and bundle planners, and ddr's planning arithmetic.
- What the tuner's clearance checks answer as the board changes: they are parameters of `Tune.Tune`, for copper beside a track and then for each track's turn; what Clear and Check answer is in `Clearance`.
- Rasterising the grid from the clearance index, and the choice of pitch, width and via size, before a run of the router.
- Reason texts, lengths and via counts in routing and tuning results, and the uuids' format: new names are unused and differ.
- The order in which equal keys are sorted: a sorted rearrangement is all that is asked of a sort.
- Suggest's final sort and cut-off at a maximum: the areas before it are what the result is about.
- Worst and NoWorseThan in the clearance checker, and the text of a violation.
- The position of a track in the document (its index field), which the code does not keep up to date on replacement.
- Document nodes are values and edits go by path: that two parts of a document might be one object, and the reuse of a list's memory on removal, are not modelled; formatting of a number for SetFloat is given as its text.
- The reader's depth and the indentation it leads to are white space only; error messages and offsets are left out.
- In the pipe protocol, cancellation, the JSON of headers and the running of handlers: a header decodes, or encodes, or does not, and a handler answers when it will.
- The board's document and the clearance rules come to the router as objects already built; reading them in is not modelled.
- Islands.GroupPads: asks that no pad's id is empty, because an id is a reference, a dot and a pad name; the sorts are left out.
- Router.Router.Route: does not say how many connections are made, because the last round may take routes up that are not laid again.
- Clearance.Checker.Check: does not say that the clash reported for each thing is its tightest, because the first one met is kept.
- Clearance.Checker.SetOpenSpacing: asks that clearance and margin are not negative, as all clearances in the model are: a negative margin could shrink a component's area past nothing.
- Sexpr.WriteReads: does not say in full how an edited list is laid out in lines, only that it reads back; SexprEdits.ClosesOnItsOwn and FlatAtAnyDepth say some of it.
- Tune.Tune: does not say that the most length possible is added, because each track takes what fits in turn.
