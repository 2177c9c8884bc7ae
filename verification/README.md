# Verified model of ENavigate's dispatch core

ENavigate dispatches small AGVs over a road network. A planner (A*), a router, an MQTT subscriber, a topology API and the map
owner are separate processes that share one memory block behind sequence locks; every car runs its own control state machine
and talks to them over MQTT. This project models those parts in Dafny and proves what holds of them: for every input, every
run and, where processes or interrupts interleave, every interleaving.

| file | what it models |
|---|---|
| `Layout.dfy` | the shared records: nodes, edges, adjacency lists |
| `AStar.dfy`, `AStarInvariant.dfy`, `AStarTheorems.dfy`, `AStarOptimal.dfy`, `Heuristic.dfy`, `FindPath.dfy` | `find_path`: its loop as a state machine with any tie-breaking of the heap, the predecessor forest, soundness, completeness, optimality, the float distance, and the loop itself as a method |
| `MapInit.dfy`, `Network.dfy`, `Shipped.dfy`, `Detour.dfy` | `init_map` and resets, what makes its tables a road network, the shipped table and start-up, and a detour on the shipped map |
| `Geometry.dfy` | turn orders from coordinates |
| `Dispatch.dfy`, `Master.dfy` | the handlers of planner, router, subscriber and topology API: as functions on shared memory, and as methods with the original loops |
| `CarRecords.dfy`, `Interleaving.dfy`, `OutOfRange.dfy` | what a car record always is, one handler at a time and with read, compute and write phases interleaved, and when a handler indexes outside its tables |
| `Effects.dfy`, `Traffic.dfy` | what one event does to every field of the records and to the queues, and what the planner may drive on, told without the handlers' functions |
| `RoadStatus.dfy`, `DispatchRuns.dfy` | edge statuses: effects of each handler on roads, invariants of whole runs |
| `PairWrites.dfy`, `TableReset.dfy` | the two status writes of a handler interleaved with those of other handlers, and with resets that rebuild the pair table |
| `Seqlock.dfy` | `Seqlock`, `ProcMutex`, `SeqlockMWWriteGuard` and `SEQLOCK_READ` at the level of single loads and stores |
| `Control.dfy`, `ControlLaws.dfy`, `ControlInvariants.dfy` | the car's `ControlTask`, what each part does field by field, what it keeps and what its log says |
| `Orders.dfy` | what the master publishes, as text and as the car reads it, down to the wheels |
| `Agreement.dfy` | the car's junction counter against the router's progress |
| `Reports.dfy` | the label of an OBSTACLE report, from the car's text to the master's reaction |
| `Encoder.dfy` | quadrature counting and turns by count |

Results that a reader of the code might not expect:

- Relaxations still rewrite `g_cost` and `came_from` of closed nodes. The predecessor walk ends all the same: along it cost
  falls, and where it stays equal the link was set earlier (`AStarTheorems.ResultIsSimpleRoute`).
- `edge_id >= edge_count_` shuts out the highest edge id. In the shipped map that is the only road out of N15, so no plan that
  starts there ever finds a path (`Shipped.NoPathFromLastNode`).
- The same guard keeps the planner from freeing the car's own OCCUPIED road in its copy where an id is the highest one; and then, going
  by the order of its two loops, possibly the other direction too (`HandlerEffects.CopyFrees`).
- The shipped weights (10) are far below the distances (120, 190), so the heuristic is far from consistent: with a temporary
  obstacle on L6 the planner drives N4 to N7 at cost 110 although 30 is possible (`Detour.ConsistencyIsNeeded`).
- With weights of at least the distance a plan is cheapest in spite of float error: the float distance is not consistent, but
  within 1/8 of one that is, and costs are whole numbers (`Heuristic.CoveredIsCheapest`).
- Two index errors are reachable from start-up: a plan to node 0, which a replan of a car that never had a plan is, and an ARRIVE
  of a car that has arrived already (`OutOfRange`). Otherwise, with reports of known cars and real roads, no interleaving of
  planner, router, POSITION, OBSTACLE and REPAIRED leads a handler out of its tables (`Interleaving.PhaseInRangeIff`).
- A car that an obstacle has halted on the last junction mark, and that is set following again before its stop, counts the mark
  twice unless REPAIRED is due. Without another CNT that is the one way to disagree: otherwise car and router end a plan on the
  same ARRIVE, obstacles or not (`Agreement.StopsOrRecounts`, `Agreement.DueSendsIff`).
- "slave" and "null" are passing obstacles for the master but not for the car: the record waits for a REPAIRED that never comes, and
  no replan is queued (`Reports.FollowedUpIff`).
- A reset that ends between the two status writes of a handler wipes the first and leaves the second: the directions of that road then
  differ, unless the handler sets the status that the table has anyway. For the handlers that read the pair table between their writes
  this is the only harm a reset can do, however little of the table they see (`TableReset.WriteReadWriteIff`); `/api/ban` and
  `/api/access` read it before both writes and can also miss the other direction altogether (`TableReset.ReadWriteWriteIff`).
- The sequence lock's guarantee ends exactly at 2^31 writes during one read, and at a writer that dies between `write_begin`
  and `write_end`; both limits come with a run that tears a read.
- `/api/ban`, `/api/access` and `/api/repair` keep the two directions of a road equal only for some request lists; the exact
  conditions are `RoadStatus.ApiSafe` and `RoadStatus.RepairSafe`.

Where comments and code disagree the model follows the code. `ProcMutex` says that EOWNERDEAD recovery leaves the data
consistent; the code marks the mutex consistent but repairs neither record nor counter (`Seqlock.DeathInsideWriteTears`).
`shm_read_bipaths` says that the pair table never changes after start-up; `reset_shm_map` rewrites it (`TableReset`).

Conventions: `path_len` is the length of a record's `path`; an adjacency list's `count` is its length; numbers of 16 and 32
bits are bounded or wrapped explicitly where that matters (edge weights, coordinates, the lock's counter, clock differences)
and are integers elsewhere. `main.cpp` fits the side of the unresolved merge markers in `config.h`, `vision.*` and
`mqtt_handler.cpp` that uses `g_commandQueue`; the thresholds that differ between the two sides are symbolic.

## Model

| member | source | states |
|---|---|---|
| AStarOptimal.ResultIsCheapest | master/src/planner/planner.h:256-310 | if the float heuristic is within 1/8 of estimates that never drop by more than a step costs, then, whatever the ties of the heap and the float rounding, a returned path costs no more than any admissible route (weights plus 100 for soft obstacles) |
| Heuristic.CoveredIsCheapest | master/src/planner/planner.h:236-317 | with the planner's own binary32 distance, a returned path is cheapest wherever every step weighs at least the exact distance it covers |
| Traffic.StepIffPassable | master/src/planner/planner.h:277-293 | the loop tries an edge exactly if it is listed at the node, its id is below the edge count, it is IDLE or FAULT_TEMP, and the node it leads to is in range and not in FAULT |
| Traffic.RouteDrives | master/src/planner/planner.h:294-299 | a route drives such edges only, and costs its weights plus 100 for every FAULT_TEMP edge or OCCUPIED node |
| Traffic.DriveIsRoute | master/src/planner/planner.h:277-299 | and every such drive is a route of that cost |
| Traffic.ResultDrives | master/src/planner/planner.h:249-312 | the result is such a drive from start to target that enters no node twice, or empty exactly if there is none (or no way to go) |
| Traffic.ResultHasLeastToll | master/src/planner/planner.h:236-317 | where weights cover distances no such drive costs less than the result |
| Traffic.PlanIsOpen | master/src/planner/planner.h:110-141 | every edge of a plan is IDLE or FAULT_TEMP in shared memory, or belongs to the OCCUPIED road on which the plan's own car stands |
| Traffic.ObstacleIsAvoided | master/src/mqtt_service/mqtt_subscriber.cpp:260-264 | after a permanent OBSTACLE no plan for any car takes either direction of the road |
| Traffic.ObstacleShutsRoad | master/src/planner/planner.h:289-293 | nor does any search on that map |
| Traffic.BanIsAvoided | master/src/http_service/Topo.cpp:94-218 | after ban or repair no plan takes a listed edge, nor after ban the reverse of a listed forward one |
| Traffic.ParkedIsAvoided | master/src/router/router.h:66-87 | the road that a car occupies by arriving is closed to every car but those on it |
| Heuristic.CoveredIsInformed | master/src/planner/planner.h:313-317 | there the exact distance to the target gives such estimates |
| Heuristic.StraightIsClose | master/src/planner/planner.h:313-317 | for 16-bit coordinates the float distance is within 1/8 of the exact one |
| Heuristic.Triangle | master/src/planner/planner.h:313-317 | the exact distance has the triangle inequality (the float one has it only up to rounding) |
| AStarOptimal.PoppedIsCheapest | master/src/planner/planner.h:257-264 | whenever an unclosed node is popped, no route to it is cheaper than its cost |
| AStarTheorems.ResultIsSimpleRoute | master/src/planner/planner.h:262-308 | a non-empty result is a simple chain of admitted, traversable steps from start to target, costs at most `g_cost[target]` < 2^24, and has fewer edges than the map has nodes |
| AStarTheorems.ResultEmptyIffUnreachable | master/src/planner/planner.h:249-312 | for different in-range ends the result is empty exactly when no admitted route exists |
| AStarTheorems.ResultEmptyAtTarget | master/src/planner/planner.h:266-274 | from a node to itself the result is empty |
| AStarTheorems.CostIsRoute | master/src/planner/planner.h:267-274 | from every node of known cost the walk back ends, and traces a route no dearer than that cost |
| AStarInvariant.RunInv | master/src/planner/planner.h:256-310 | after every run: acyclic predecessors over closed nodes, known costs between 0 and (closed nodes) * 65635, closed-or-queued fringe, every step out of a closed node tried |
| AStarInvariant.RelaxExact | master/src/planner/planner.h:299-308 | float additions of the loop are exact, so a relaxation is integer arithmetic |
| FindPathMethod.Top | master/src/planner/planner.h:257-258 | the popped entry has least f |
| FindPathMethod.ExpandNode | master/src/planner/planner.h:276-309 | the inner loop is the state machine's expansion of a node |
| FindPathMethod.Reconstruct | master/src/planner/planner.h:267-274 | the walk along `came_from` terminates and its reversal is the traced path |
| FindPathMethod.FindPath | master/src/planner/planner.h:236-312 | the loops terminate (unclosed nodes, then queue length), out-of-range ends give the empty path, otherwise the result is one of the state machine |
| FindPathMethod.FindPathPromise | master/src/planner/planner.h:148-182 | a result fits `path_stack`, so the length check after the call never fires; it is empty exactly without a route or without a distance to go |
| FindPathMethod.ResultExists | master/src/planner/planner.h:256-312 | every search has a result |
| Detour.OnlyResult | master/src/planner/planner.h:256-308 | shipped map, L6 FAULT_TEMP, N4 to N7: the one possible result is L6 alone |
| Detour.ConsistencyIsNeeded | master/src/model_manager/model_manager.cpp:33-56 | that result costs 110 while a route of cost 30 exists: optimality needs the hypothesis |
| Detour.DetourExists | master/src/planner/planner.h:313-317 | every rounding to binary32 and every exact square root, hence the planner's own heuristic, make that search |
| Shipped.ShippedNetwork | master/src/model_manager/model_manager.cpp:32-82 | the shipped table, with any statuses and after any number of runs of `init_map`, gives a road network |
| Shipped.FewRoadsOut | master/src/model_manager/model_manager.cpp:67-76 | at most four edges leave a node of the shipped map |
| Shipped.ShippedGrid | master/src/model_manager/model_manager.cpp:32-99 | in the shipped table exactly L1 and L2 start OCCUPIED, and every road runs along the grid, 190 across or 120 down |
| Shipped.NoPathFromLastNode | master/src/planner/planner.h:279 | from N15 `find_path` never finds a path, on any map that differs from the start-up map in statuses and list order |
| Shipped.NoPlanFromLastNode | master/src/planner/planner.h:148-168 | so no search of a plan that starts at N15 finds a path on such a map |
| Shipped.StartIsSafe | master/src/model_manager/model_manager.cpp:126-149 | `init_map` and `init_car` establish the invariant that runs keep |
| Shipped.ShippedRunsStaySafe | master/src/model_manager/model_manager.cpp:152-221 | in every run from start-up, harmful events included, roads and records stay as they must be and a reset is possible at any time; the whole invariant holds up to the first harmful event |
| Shipped.ShippedRunsRefuseN15 | master/src/planner/planner.h:148-168 | in every such run every plan that starts at N15 is refused and leaves map and records alone |
| Shipped.ShippedRace | master/src/model_manager/model_manager.cpp:27-63 | the shipped map meets the hypotheses of the races of `TableReset`, for every edge |
| Shipped.ShippedResetIff | master/src/model_manager/model_manager.cpp:33-34 | a reset of the shipped map is harmless exactly while IDLE cars stand on L1 and on L2 |
| OutOfRange.ReplanWithoutTarget | master/src/planner/planner.h:253-254 | two steps from start-up a replan of a car that never had a plan makes the planner index the record of node 0 |
| OutOfRange.ObstacleSendsReplan | master/src/mqtt_service/mqtt_subscriber.cpp:256-264 | one permanent OBSTACLE past the threshold sends that replan |
| OutOfRange.ArriveWithoutPath | master/src/router/router.h:66-70 | a run from start-up (plan, POSITION at its target, ARRIVE) that makes the router index `path_stack[-1]` |
| MapInit.MapMemory.constructor | master/lib/ipc/shm_manager.h:117-124 | in a new segment edges, pairs, lists and counts are cleared |
| MapInit.MapMemory.PutRoad | master/lib/ipc/shm_layout.h:124-158 | one table entry writes its two edges and its pair and nothing else |
| MapInit.MapMemory.FillEdges | master/src/model_manager/model_manager.cpp:58-65 | the first loop writes all edges and pairs at id - 1 and leaves the rest |
| MapInit.MapMemory.FillAdjacency | master/src/model_manager/model_manager.cpp:68-82 | the second loop appends every edge id behind its node's list while there is room |
| MapInit.MapMemory.InitMap | master/src/model_manager/model_manager.cpp:28-82 | one run or reset: edges, pairs and lists as above |
| MapInit.TableRows | master/lib/ipc/shm_layout.h:124-158 | every table entry gives two opposite edges, alike in weight and status, and the pair of their ids |
| MapInit.AdjacencyAfterRuns | master/src/model_manager/model_manager.cpp:115-124 | after any number of runs a list holds what the first run could fit, although counts are never cleared |
| MapInit.AdjacencyAfterResets | master/src/model_manager/model_manager.cpp:68-76 | a list is, as a set, the outgoing edges if and only if at most 8 leave the node |
| RoadNetwork.BuiltMapIsNetwork | master/src/model_manager/model_manager.cpp:28-102 | for any plain road table with out-degree at most 8: `edges_[i].id == i + 1`, pairs reverse each other, lists are the outgoing edges |
| RoadNetwork.PartnerLookup | master/lib/ipc/shm_layout.h:98-109 | looking up the other direction finds the reversed edge and is an involution |
| RoadNetwork.ResetKeepsRoads | master/src/model_manager/model_manager.cpp:115-124 | whatever the statuses and lists before, a reset changes nothing but statuses and the order of lists |
| RoadNetwork.ResetAppends | master/src/model_manager/model_manager.cpp:67-81 | a reset puts the ids of a node's edges behind its list once more, as far as there is room |
| RoadNetwork.RouteNodesAre | master/src/planner/planner.h:283 | on a network the planner's routes follow edges forwards, and their nodes are the edges' ends |
| Geometry.JudRevIsUTurn | master/src/planner/planner.h:227-235 | the planner looks for a road back exactly where the router would order a U-turn |
| Geometry.TurnsToItsSide | master/src/router/router.h:130-141 | in coordinates: for r = q + (j * d + k * d') / n, d the last leg and d' the same turned by 90 degrees, the order is RIGHT for k > 0, LEFT for k < 0, STRAIGHT for k = 0 < j, U-turn otherwise |
| Geometry.LiesSomewhere | master/src/router/router.h:130-141 | every point has such n, j and k |
| Geometry.JudRevIsStraightBack | master/src/planner/planner.h:227-235 | the planner's test accepts exactly the points on the line from q back through p |
| Geometry.ReversedRouteTurns | master/src/router/router.h:130-141 | a reversed route takes the reversed orders with left and right exchanged |
| Geometry.OverflowLimit | master/src/router/router.h:130-141 | no 32-bit product or sum overflows if and only if coordinates stay at or below 32768 |
| MasterProcesses.Lift | master/src/planner/planner.h:112-139 | the nested loops that free the car's own road in the planner's copy |
| MasterProcesses.Master.SetEdgeStatus | master/lib/ipc/shm_manager.h:251-262 | one edge status changes |
| MasterProcesses.Master.UpdateCar | master/lib/ipc/shm_manager.h:301-304 | one car record is replaced |
| MasterProcesses.Master.SetCarStatus | master/lib/ipc/shm_manager.h:309-314 | one car's status changes |
| MasterProcesses.Master.SetPair | master/src/mqtt_service/mqtt_subscriber.cpp:233-242 | an edge and its looked-up partner change together |
| MasterProcesses.Master.AlterEdgesStatus | master/src/mqtt_service/mqtt_subscriber.cpp:222-247 | the loop over the car's last node sets what `RoadStatus.AlterSetsRoad` says |
| MasterProcesses.Master.ReleaseRoad | master/src/planner/planner.h:185-204 | the release loop of planner and POSITION; its meaning is `RoadStatus.ReleaseFrees` |
| MasterProcesses.Master.OnObstacle | master/src/mqtt_service/mqtt_subscriber.cpp:256-270 | OBSTACLE on all of shared memory and the queues |
| MasterProcesses.Master.OnRepaired | master/src/mqtt_service/mqtt_subscriber.cpp:271-276 | REPAIRED, likewise |
| MasterProcesses.Master.OnPosition | master/src/mqtt_service/mqtt_subscriber.cpp:285-320 | POSITION, likewise |
| MasterProcesses.Master.ScanPath | master/src/router/router.h:93-109 | the backward scan; on a well-formed record it finds the next edge, see `CarRecords.ScanFindsEdge` |
| MasterProcesses.Master.RouterHandleTask | master/src/router/router.h:50-127 | the router's handler on all of shared memory and the queues, and when it answers true |
| MasterProcesses.Master.ChooseEnds | master/src/planner/planner.h:69-109 | target by action, start by mode |
| MasterProcesses.Master.FindRevNode | master/src/planner/planner.h:76-108 | the loop for a road back |
| MasterProcesses.Master.Refuse | master/src/planner/planner.h:148-168 | without a path a cancel pauses the car and a replan becomes a cancel |
| MasterProcesses.Master.Accept | master/src/planner/planner.h:169-221 | the accepted plan: record, release of the old road, CNT and action |
| MasterProcesses.Master.PlannerHandleTask | master/src/planner/planner.h:54-224 | the planner's handler: its search may return the path, shared memory and queues follow from it, and it answers true exactly for an accepted plan |
| MasterProcesses.Master.FindEdgeIdx | master/src/http_service/Topo.cpp:17-22 | the search loop of the topology API |
| MasterProcesses.Master.ApiSetStatus | master/src/http_service/Topo.cpp:100-123 | the loop over a ban or access list; its meaning is `RoadStatus.ApiSetsAll` |
| MasterProcesses.Master.ApiRepair | master/src/http_service/Topo.cpp:212-218 | the loop over a repair list; its meaning is `RoadStatus.RepairSetsAll` |
| MasterProcesses.Master.TriggerReplanAll | master/src/http_service/Topo.cpp:33-45 | one replan for every moving or waiting car |
| CarRecords.ScanFindsEdge | master/src/router/router.h:93-109 | on a simple chain the scan picks the unique edge that leaves the node the car heads for |
| CarRecords.RouterFollowsPath | master/src/router/router.h:66-125 | an ARRIVE moves to the very next planned node and never fails before the target; at the target it answers ARRIVED |
| CarRecords.RouterMakesProgress | master/src/router/router.h:123-125 | every ARRIVE before the target shortens the remaining path by one |
| CarRecords.ArrivesFollowPlan | master/src/router/router.h:66-125 | after a plan of k edges, n <= k ARRIVEs lead to node n with orders only, and the (k+1)-th is answered ARRIVED, whatever statuses change in between |
| CarRecords.ArrivesNeverFail | master/src/router/router.h:95-100 | such a drive exists for every n up to the arrival: the failing branch is unreachable |
| CarRecords.AcceptedIsWellFormed | master/src/planner/planner.h:173-183 | in all four modes the accepted record is on a road and heads for the first node of a simple chain to its target |
| CarRecords.RecordPathIsShort | master/src/planner/planner.h:179-182 | a path in a record is shorter than the node count, so `path_stack` and `path_len` never overflow |
| Interleaving.RecordsStayWellFormed | master/src/planner/planner.h:57-183 | any number of planner, router and POSITION handlers with read, compute and write phases interleaved, roads being looked up and released, statuses changing and the map being reset at any time: every record stays well formed, as long as no handler has indexed outside its tables |
| Interleaving.PhaseInRangeIff | master/src/router/router.h:66-125 | any phase of any handler, the road lookups of OBSTACLE, REPAIRED, POSITION and of the planner's release included, indexes within its tables and can go on if and only if the router at a car's target has a path left, and the planner that reaches its search has a target of at least 1; out-of-date copies are never the reason |
| Interleaving.CopyIsRoutable | master/src/router/router.h:51-59 | a record and a map read at different times still fit each other |
| Interleaving.RouterWritesWellFormed | master/src/router/router.h:123-125 | what the router writes, if its indices were in range, is well formed even when computed on old copies |
| Interleaving.PlannerWritesWellFormed | master/src/planner/planner.h:173-183 | so is the planner's |
| Interleaving.RouterAlone | master/src/router/router.h:50-127 | the router's phases run in one go leave the records that its function leaves |
| Interleaving.PlannerAlone | master/src/planner/planner.h:54-183 | so do the planner's, for some path that its search may return |
| Interleaving.PositionAlone | master/src/mqtt_service/mqtt_subscriber.cpp:285-321 | and POSITION's |
| RoadStatus.AlterSetsRoad | master/src/mqtt_service/mqtt_subscriber.cpp:222-247 | exactly the road the car is on changes, both ways |
| RoadStatus.ReleaseFrees | master/src/planner/planner.h:185-204 | the road is free afterwards in both directions, and nothing else has changed |
| RoadStatus.ApiSetsAll | master/src/http_service/Topo.cpp:153-178 | the final status of every edge after a whole list |
| RoadStatus.RepairSetsAll | master/src/http_service/Topo.cpp:207-218 | likewise for repair: the listed directions only |
| RoadStatus.ApiKeepsPairsIff | master/src/http_service/Topo.cpp:100-123 | ban and access keep both directions equal if and only if every reverse id in the list comes with its forward id or already has the status |
| RoadStatus.RepairKeepsPairsIff | master/src/http_service/Topo.cpp:212-218 | repair does if and only if every id comes with its other direction or is under repair already |
| RoadStatus.HalfBuiltTableIff | master/src/http_service/Topo.cpp:98-123 | ban and access of a forward id with only the first n pairs in the table read before keep both directions equal if and only if the id is at most n or the edge has the status already |
| HandlerEffects.ObstacleDoes | master/src/mqtt_service/mqtt_subscriber.cpp:256-270 | every OBSTACLE: the car's road is FAULT_REPAIR both ways if permanent and FAULT_TEMP both ways if passing, all else is kept; the record waits exactly if passing; exactly if permanent one replan is queued, UTURN_NO_CROSS past the threshold and UTURN before it |
| HandlerEffects.RepairedDoes | master/src/mqtt_service/mqtt_subscriber.cpp:271-276 | every REPAIRED: road IDLE both ways, car MOVING, all else kept |
| HandlerEffects.PositionDoes | master/src/mqtt_service/mqtt_subscriber.cpp:285-321 | every POSITION: the OCCUPIED directions of the old road become IDLE, the record is IDLE at the reported place without task and path and keeps target and start |
| HandlerEffects.ArrivalDoes | master/src/router/router.h:66-87 | ARRIVE at the target: road OCCUPIED both ways, record IDLE, its start the node reached, no task, no path, ARRIVED sent |
| HandlerEffects.PassingDoes | master/src/router/router.h:88-126 | ARRIVE on the way: over the path's edge that leaves the node it was heading for, one order sent, nothing else changed |
| HandlerEffects.IdleArriveDoes | master/src/router/router.h:55-65 | ARRIVE of an unknown car, of one in FAULT or OFFLINE, or without a path on the way: nothing |
| HandlerEffects.UturnStart | master/src/planner/planner.h:77-107 | a U-turn plan starts at the far end of an IDLE road that leads straight back, and is refused exactly if there is none |
| HandlerEffects.CopyFrees | master/src/planner/planner.h:112-139 | in the planner's copy the OCCUPIED directions of the car's own road are IDLE, except for the highest edge id; no other status differs |
| HandlerEffects.AcceptDoes | master/src/planner/planner.h:168-223 | an accepted plan: target by action (the message's, the old one, the start of the trip), ends by mode, MOVING, the path from one to the other, all else kept; the old road released; CNT sent, then UTURN exactly for both U-turn modes, PROCESS exactly for the immediate one, nothing for the other |
| HandlerEffects.RefuseDoes | master/src/planner/planner.h:150-166 | without a path: a cancel sends PAUSE, a replan queues a cancel of the same mode, an assignment does nothing |
| HandlerEffects.NoPlanDoes | master/src/planner/planner.h:58-69 | for an unknown car, one out of service, or without a road back: nothing |
| HandlerEffects.PlannableIff | master/src/planner/planner.h:58-107 | that is exactly when the planner gives up before its search |
| HandlerEffects.ReplansAre | master/src/http_service/Topo.cpp:30-46 | exactly the MOVING and WAITing cars are replanned, once each, in the order of the table |
| HandlerEffects.ApiDoes | master/src/http_service/Topo.cpp:94-218 | ban, access and repair: the listed edges and, but for repair, the reverses of forward ones get the status, all others keep theirs, and the replans are queued |
| HandlerEffects.NodeDoes | master/src/http_service/Topo.cpp:124-131 | a node request changes the status of that node alone |
| HandlerEffects.ResetDoes | master/src/model_manager/model_manager.cpp:57-82 | a reset gives every road and node the table's status and leaves cars and queues alone |
| PairWrites.MergedWritesIff | master/lib/ipc/shm_manager.h:252-263 | however the single status writes of any number of handlers interleave: both directions of every road agree if and only if the last writes to the two directions of every road set are of one status |
| PairWrites.SplitWriteIff | master/src/mqtt_service/mqtt_subscriber.cpp:233-241 | two handlers on one road, one between the writes of the other: equal if and only if both set the same status |
| TableReset.WriteReadWriteIff | master/src/mqtt_service/mqtt_subscriber.cpp:233-241 | write, lock-free read of the pair table, write, against any number of resets at any time: in the end the directions differ if and only if a reset has ended between the two writes, none after them, and the table gives the road another status than the one set; without such a reset the whole road is set |
| TableReset.ReadWriteWriteIff | master/src/http_service/Topo.cpp:98-123 | read, write, write, as ban and access do: they differ in that case, and if the table read did not yet hold the pair, no reset has ended since the write, and the road had another status |
| TableReset.ResetSplitsRoad | master/src/model_manager/model_manager.cpp:115-124 | such a race exists for every edge and every status but the table's |
| TableReset.ResetMissesRoad | master/src/http_service/Topo.cpp:157-178 | likewise for ban and access of every forward id, with the table read while it is empty |
| TableReset.ResetForgets | master/src/model_manager/model_manager.cpp:57-62 | a reset makes the same map whichever of a handler's writes have been made before |
| DispatchRuns.ArrivalOccupies | master/src/router/router.h:66-87 | an arrival occupies exactly the road driven last, both ways, and parks the car on it |
| DispatchRuns.ObstacleKeepsSafe | master/src/mqtt_service/mqtt_subscriber.cpp:256-270 | OBSTACLE keeps the invariant of runs |
| DispatchRuns.PositionKeepsSafe | master/src/mqtt_service/mqtt_subscriber.cpp:285-320 | POSITION does |
| DispatchRuns.ArriveKeepsSafe | master/src/router/router.h:50-127 | ARRIVE does |
| DispatchRuns.PlanKeepsSafe | master/src/planner/planner.h:54-224 | planning does, refused or accepted |
| DispatchRuns.ArriveInRangeIff | master/src/router/router.h:66-70 | the router's indices are in range exactly while an available car at its target still has a path |
| DispatchRuns.PlanInRangeIff | master/src/planner/planner.h:69-75 | the planner's are exactly when an assignment or replan that reaches the search has a node as target; a cancel always has |
| DispatchRuns.TargetsStay | master/src/planner/planner.h:173-183 | a car that has once accepted a plan keeps a node as target through every event, so replanning it is in range |
| DispatchRuns.ResetKeepsSafeIff | master/src/model_manager/model_manager.cpp:115-124 | a reset keeps the invariant of runs if and only if every road that the table marks OCCUPIED is the road of an IDLE car |
| DispatchRuns.StepKeepsSafeIff | master/src/mqtt_service/mqtt_subscriber.cpp:249-329 | one event keeps the invariant if and only if it is harmless: API lists that keep pairs, resets as above, and every other event |
| DispatchRuns.StepKeepsRoads | master/src/model_manager/model_manager.cpp:115-124 | no event, harmful ones included, changes anything of the map but statuses and the order of lists |
| DispatchRuns.StepKeepsRecords | master/src/mqtt_service/mqtt_subscriber.cpp:249-329 | every event, harmful ones included, leaves a road network and well-formed records |
| DispatchRuns.RunsKeepRecords | master/src/mqtt_service/mqtt_subscriber.cpp:249-329 | so every run does, whatever it does to statuses |
| DispatchRuns.RunsStaySafe | master/src/mqtt_service/mqtt_subscriber.cpp:249-329 | after every sequence of obstacle, repaired, position, arrive, plan, node and harmless API and reset events: both directions of every road have one status, every OCCUPIED road is the last-current road of an IDLE car, every record is well formed |
| DispatchRuns.SafeCanHandle | master/src/router/router.h:66-125 | in all these states, after harmful events too, every plausible event can be handled without indexing out of range |
| DispatchRuns.FirstOrderAfterPosition | master/src/router/router.h:111-117 | after POSITION b-a and an accepted assignment, the first ARRIVE is answered with the turn from b through a to the end of the path's first edge |
| DispatchRuns.RepairedUndoesObstacle | master/src/mqtt_service/mqtt_subscriber.cpp:256-276 | REPAIRED takes a temporary OBSTACLE on a free road back completely |
| DispatchRuns.AccessUndoesBan | master/src/http_service/Topo.cpp:94-188 | access takes a ban of the same free edges back |
| Seqlock.SeqCounter.WriteBegin | master/lib/ipc/seqlock.h:41-44 | the counter goes up by one, modulo 2^32, and changes parity at the wrap too |
| Seqlock.SeqCounter.WriteEnd | master/lib/ipc/seqlock.h:46-49 | likewise |
| Seqlock.SeqCounter.TryReadBegin | master/lib/ipc/seqlock.h:52-58 | one round of the spin: a snapshot only of an even counter |
| Seqlock.SeqCounter.ReadEnd | master/lib/ipc/seqlock.h:61-64 | accepts exactly an unchanged counter |
| Seqlock.StepsAreCounterCalls | master/lib/ipc/seqlock.h:151-161 | inside the guard the load and store of `write_begin` leave the counter odd, those of `write_end` leave it even and commit the record; both are the calls above |
| Seqlock.NoTornReads | master/lib/ipc/seqlock.h:151-187 | in every interleaving without a death inside a write, deaths elsewhere included, an accepted copy is the committed version current at `read_begin`, if fewer than 2^31 writes completed meanwhile |
| Seqlock.AcceptsIff | master/lib/ipc/seqlock.h:61-64 | `read_end` accepts exactly when a multiple of 2^31 writes completed and none is under way |
| Seqlock.WritersExclude | master/lib/ipc/seqlock.h:102-108 | in every run, whoever dies wherever, inside a write too: two writers are never inside, and a dead holder never keeps the others out |
| Seqlock.DeathInsideWriteTears | master/lib/ipc/seqlock.h:102-108 | with one death inside a write a torn copy can be accepted |
| Seqlock.WrappedCounterTears | master/lib/ipc/seqlock.h:61-68 | with exactly 2^31 writes during a read a torn copy can be accepted without any death |
| Control.ControlTask.constructor | peripheral/src/main.cpp:290-294 | the initial context, motors stopped |
| Control.ControlTask.DispatchOrient | peripheral/src/main.cpp:112-144 | order to motor outputs and next state |
| Control.ControlTask.ResetJunctionCtx | peripheral/src/main.cpp:147-152 | the junction context is cleared |
| Control.ControlTask.HandleObstacleStop | peripheral/src/main.cpp:155-179 | report once, stop, brake |
| Control.ControlTask.ExecuteOrientDecision | peripheral/src/main.cpp:182-210 | the decision at a junction |
| Control.ControlTask.HandleCommand | peripheral/src/main.cpp:309-347 | one command |
| Control.ControlTask.DrainCommands | peripheral/src/main.cpp:306-348 | the loop that empties the queue |
| Control.ControlTask.EnterJunction | peripheral/src/main.cpp:367-375 | the rising edge of the junction mark, in both places |
| Control.ControlTask.SenseObstacle | peripheral/src/main.cpp:357-417 | the layered obstacle check |
| Control.ControlTask.DriveFollow | peripheral/src/main.cpp:429-511 | the FOLLOW case |
| Control.ControlTask.WaitForOrient | peripheral/src/main.cpp:514-528 | the WAIT_COMMAND case, with the 32-bit clock difference |
| Control.ControlTask.RunCycle | peripheral/src/main.cpp:298-541 | one turn of the control loop |
| ControlLaws.OrderIsKept | peripheral/src/main.cpp:309-315 | an order is kept for the next junction, whatever the action beside it, and no command touches phase or obstacles |
| ControlLaws.PauseStops | peripheral/src/main.cpp:317-320 | PAUSE: IDLE with both motors at 0, from every state |
| ControlLaws.ProcessStarts | peripheral/src/main.cpp:322-328 | PROCESS: an IDLE car follows, its last mark forgotten; nothing for any other |
| ControlLaws.UturnSpins | peripheral/src/main.cpp:330-334 | UTURN: TURN with opposite duties, from every state |
| ControlLaws.CountSets | peripheral/src/main.cpp:336-342 | CNT sets the limit and clears the count; it, CAPTURE and a lone order move nothing |
| ControlLaws.DecisionDrives | peripheral/src/main.cpp:112-210 | a decision: LEFT and RIGHT turn the wheels in opposite senses, the U-turn like RIGHT, STRAIGHT follows past the turn, ARRIVED stands |
| ControlLaws.DecisionStops | peripheral/src/main.cpp:186-199 | straight into a pending obstacle: the car stands and has reported it |
| ControlLaws.StopReportsOnce | peripheral/src/main.cpp:155-179 | one report until the next clear frames, remembered exactly for dog, cat and people |
| ControlLaws.ObstacleLaw | peripheral/src/main.cpp:357-399 | an obstacle stops a car on the open road or on a mark before its turn, is noted between mark and centre or while waiting, and is ignored otherwise |
| ControlLaws.ArriveBeforeObstacle | peripheral/src/main.cpp:366-378 | on the mark the ARRIVE that is due goes out first |
| ControlLaws.ClearFrame | peripheral/src/main.cpp:400-417 | exactly from the third clear frame in a row on, REPAIRED goes out if owed, the car follows, and the next obstacle is news |
| ControlLaws.FollowStops | peripheral/src/main.cpp:468-477 | beyond the count the car stands, whatever else the cycle holds |
| ControlLaws.FollowCounts | peripheral/src/main.cpp:456-466 | below it an ARRIVE goes out exactly when the mark appears |
| ControlLaws.FollowDecides | peripheral/src/main.cpp:480-494 | past the centre with both wheels the car acts on its order, or stands until one comes |
| ControlLaws.SeesAgainIff | peripheral/src/main.cpp:498-509 | after a turn marks count again exactly when the mark is out of sight and both wheels have gone the distance |
| ControlLaws.WaitEndsIff | peripheral/src/main.cpp:514-528 | waiting ends with an order or with the timeout of the 32-bit clock, and only then |
| ControlLaws.TurnEndsIff | peripheral/src/main.cpp:531-540 | a turn ends exactly when the encoders say so |
| ControlLaws.PausedCarStands | peripheral/src/main.cpp:298-541 | in every run: after PAUSE, until another steering command comes or REPAIRED is sent, the car is IDLE with both motors at 0 at the end of every cycle |
| ControlLaws.GoesOnAtThirdClearFrame | peripheral/src/main.cpp:400-417 | stopped for a passing obstacle, the car goes on at the third clear frame in a row and not before |
| ControlLaws.StandsUntilSetGoing | peripheral/src/main.cpp:290-541 | from power-on the car is IDLE with both motors at 0 after every cycle, until a PROCESS or UTURN sets it going |
| ControlLaws.FirstObstacleIsReported | peripheral/src/main.cpp:155-179 | the first obstacle on the open road after power-on stops it and is reported |
| Orders.PlanReachesCar | peripheral/src/mqtt_handler.cpp:36-110 | what an accepted plan publishes, applied to any control state: limit k and count 0; TURN with opposite duties for the U-turn modes, FOLLOW if it was IDLE for the immediate one, otherwise the state as it was |
| Orders.PauseReachesCar | peripheral/src/mqtt_handler.cpp:66-72 | what a refused cancel publishes makes any car stand |
| Orders.OrderReachesWheels | master/include/agv/mq_msg.h:155-164 | an order that reaches a waiting car is driven: left, right and back on the spot, straight on, or standing |
| Orders.OrderFitsCorner | master/src/router/router.h:107-126 | every ARRIVE on the way is answered with the turn to the side on which the next node lies |
| Orders.FirstOrderFits | master/src/router/router.h:107-126 | so is the first ARRIVE after an accepted plan of any mode, for the corner into the path's first edge |
| ControlInvariants.ReachableStates | peripheral/src/main.cpp:283-541 | in every reachable state: IDLE and WAIT_COMMAND stand still, WAIT_COMMAND only in phase APPROACH, orders are never NONE, the counter is the number of ARRIVEs since the last CNT or stop |
| ControlInvariants.NothingSentAfterTurn | peripheral/src/main.cpp:357-399 | no ARRIVE or OBSTACLE in phase POST_TURN |
| ControlInvariants.ReportsAlternate | peripheral/src/main.cpp:155-179 | REPAIRED comes directly after a temporary OBSTACLE, and nothing else does |
| ControlInvariants.FirstReportIsObstacle | peripheral/src/main.cpp:400-417 | the first report is an OBSTACLE |
| ControlInvariants.DecisionsAreFresh | peripheral/src/main.cpp:182-210 | a decision runs in phase APPROACH on an order received after the latest ARRIVE and used by no other decision; it runs beyond the count exactly if CNT was negative; the default branch of `dispatchOrient` is unreachable |
| ControlInvariants.NegativeCountDecides | peripheral/src/main.cpp:336-339 | with a negative CNT such a decision does happen |
| ControlInvariants.NeverStopsEarly | peripheral/src/main.cpp:468-477 | the car never stops at its count before ARRIVE number roadNum + 1 |
| Agreement.FirstStop | peripheral/src/main.cpp:357-378 | after CNT k the car sends k + 1 ARRIVEs, never more, and then stops for the first time: when it next drives on, and without obstacles in the very cycle that sends the last; excluded are another CNT, and counting a mark once the stop is due |
| Agreement.StopsOrRecounts | peripheral/src/main.cpp:298-541 | whatever commands but CNT and whatever frames a car gets after CNT k: it drives on with at most k + 1 ARRIVEs sent, or first stops at ARRIVE number k + 1, or, not having stopped before and with the stop due, counts a mark and so sends number k + 2 |
| Agreement.DueSendsIff | peripheral/src/main.cpp:322-328 | with the stop due, a cycle sends one more ARRIVE if and only if its commands leave the car following, its frame shows the rising edge of a mark and REPAIRED is not due; otherwise it sends none |
| Agreement.SameMarkCountsAgain | peripheral/src/main.cpp:361-378 | a run in which a car with CNT 1 sends three ARRIVEs at one mark |
| Agreement.AcceptedPlan | master/src/planner/planner.h:173-207 | accepting a path of k edges publishes CNT k and leaves a record that heads for the path's first node |
| Agreement.CarAndRouterAgree | master/src/router/router.h:66-87 | with one reply per ARRIVE, obstacles or not, OBSTACLE and REPAIRED changing the record's status and the roads' between ARRIVEs: a reply was ARRIVED exactly when the car has stopped at its count or stands halted with that stop due; it is the last, the (k+1)-th |
| Agreement.PlanEndsTogether | master/src/planner/planner.h:207 | the same from an accepted plan on, for every sequence of allowed cycles |
| Reports.WireParses | master/src/mqtt_service/mqtt_subscriber.cpp:113-127 | the flag and the label cut to eight characters: the master's verdict on the label and the threshold flag survive the cut |
| Reports.ReportedIff | peripheral/src/main.cpp:357-400 | the car takes exactly "none" for clear and "car" for another car, and exactly dog, cat and people for passing |
| Reports.TemporaryIff | master/include/config/config.h:44 | the master takes for passing exactly what the car does, and "slave" and "null" |
| Reports.FollowedUpIff | peripheral/src/main.cpp:155-179 | the first report of an obstacle, from any reachable state of the car: a replan is queued or the car owes a REPAIRED, never both, and one of them if and only if the label is neither "slave" nor "null"; with those the record is left waiting |
| Reports.NeverRepaired | peripheral/src/main.cpp:400-417 | in no run does a REPAIRED follow a report of "slave" or "null" before the next report that the car takes for passing |
| Encoder.Encoders.Isr1 | peripheral/src/encoder.cpp:17-25 | the first interrupt |
| Encoder.Encoders.Isr2 | peripheral/src/encoder.cpp:27-35 | the second interrupt |
| Encoder.Encoders.StartTurn | peripheral/src/encoder.cpp:74-88 | `Turn`: counters cleared, targets by the sign of the angle |
| Encoder.Encoders.CheckTurnDone | peripheral/src/encoder.cpp:90-104 | a turn ends when either wheel has reached its target, and stays ended |
| Encoder.TruncDropsFraction | peripheral/src/encoder.cpp:74-88 | targets are cut towards zero, symmetrically for both signs |
| Encoder.CountsFollowPosition | peripheral/src/encoder.cpp:17-35 | counts depend on the position alone, after any walk and any reset: no drift |
| Encoder.CountsFromRest | peripheral/src/encoder.cpp:44-45 | from A = B = low, `count1` is (p + 1) / 2 rounded down and `count2` its negation |

## Left out

- AStarOptimal.ResultIsCheapest: optimality is proved from near-consistency, not characterised; `Detour.ConsistencyIsNeeded` shows that it fails without.
- Heuristic.StraightIsClose: `std::sqrt` is an exact square root followed by rounding, and binary32 rounding is any monotone, idempotent function within one unit in the 24th place; a compiler that fuses `dx * dx + dy * dy` rounds once less.
- FindPathMethod.FindPath: node ids are at least 1; with id 0 the original indexes before its arrays, which `OutOfRange.ReplanWithoutTarget` shows to happen.
- Interleaving.RecordsStayWellFormed: what memory holds after an index out of range is not modelled: a phase whose index is out of range has no step, and `Interleaving.PhaseInRangeIff` and `OutOfRange` say when that happens. Sequential consistency, reads and writes of whole records as one step (what `Seqlock.NoTornReads` gives) and reports of known cars and real roads are assumed; edge statuses under interleaved phases do not stay paired (`PairWrites.MergedWritesIff`).
- DispatchRuns.RunsStaySafe: handlers run one at a time; ARRIVE finds an available car at its target only with a path, and an assignment or replan that reaches the search has a node as target (outside that, see `OutOfRange`).
- MasterProcesses.Master.RouterHandleTask: the message's node fields have their default 0xFFFF, as the only sender leaves them (mqtt_subscriber.cpp:252).
- MasterProcesses.Master.PlannerHandleTask: the map and the car table are read once and together; the phases apart are in `Interleaving`.
- MasterProcesses.Master.ApiSetStatus: the loops over nodes of the same requests are one event of `DispatchRuns` without a method of their own.
- Seqlock.NoTornReads: weak memory effects of acquire and release are not modelled; readers that never get through are not excluded.
- Control.ControlTask.RunCycle: encoder counts, steering and the end of a turn are inputs of each cycle; the 100 ms of braking take no time; counters do not overflow.
- In runs the pair table is constant although `reset_shm_map` rewrites it, with the same contents, while `shm_read_bipaths` reads without a lock; `TableReset` says what that does to one handler.
- Reports.WireParses: escaping of quotes and backslashes inside a label is not modelled.
- Start-up runs `init_map` without the lock after `initialized` is set; clients that attach in between are not modelled.
- Labels, logging, JSON, MQTT text parsing (`parse_event`), HTTP handling, POSIX queues, timers, signal handling, displays, WiFi and the vision scripts: input, output and formatting.
- Line-following arithmetic (filter, dead zone, duty scaling) and physical motion: the motors' steering outputs are arbitrary while following.
- `SeqlockWriteGuard` (deprecated) and the angle mode: unused.
