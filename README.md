# Carton load planner: packing engine model

This project models the packing engine of a carton and pallet load
planner (`containers/js/algorithms.js`) and proves properties of it. The
engine offers four entry points:

- `bestTile` lays one box size out on a pallet. It tries a uniform grid
  and an interlocked "mixed" pattern of alternating rows, for every
  orientation of the box and for both ways the pallet can lie. It keeps
  the best candidate by box count, then stability, then volume
  efficiency.
- `packGroups` loads several groups of boxes onto one container. It:
  - normalises the groups and keeps those with a usable orientation;
  - hands them, densest first, to a greedy height-map packer
    (`runMaxRectsPacking`). The packer uses 50 mm cells. Each round it
    places the (group, orientation, position) of least score
    floorH·10⁸ + posL·10⁵ + posW·10³ − volume (in the model's scaled
    units). The first triple scanned wins ties. The score is not
    lexicographic: a box one millimetre higher can still win when it
    sits 1000 mm further back, and a bigger box can outweigh a small
    shift;
  - computes totals, used extents, each box's support from the boxes
    under it, a stability report and the centre of mass;
  - reports the placements group by group.
- `packMultipleContainers` runs `packGroups` once per container. In
  sequential mode the boxes one container leaves are carried to the
  next. In spread mode each group is divided evenly across the
  containers. A container may restrict which groups it takes.
- `recommendContainers` searches for the cheapest list of container
  types that holds every box:
  - the fewest copies of one type;
  - pairs of different types, and triples with one larger and two
    smaller containers;
  - failing those, enough copies of the largest type.

## Modules

| file | module | models |
|---|---|---|
| `basics.dfy` | `Basics` | shared helpers: stable sort by a numeric key, first-minimal scan, ceiling division, key-based de-duplication |
| `orientations.dfy` | `Orientations` | `generateOrientationsWithStability` |
| `tiler.dfy` | `Tiler` | `bestTile` with `fitPattern`, `fitMixed`, the candidate loops and the comparator; `emptyResult` |
| `grid.dfy` | `Grid` | the packer's values: its six orientations, cell ranges, score and candidate positions |
| `packer.dfy` | `Packer` | `runMaxRectsPacking`, as a class `GreedyPacker` whose fields are the height map (`array2`) and the lists the loop updates |
| `stability.dfy` | `Stability` | `calculateSupport` (in place on an array), `analyzeStability`, the two recommendation ladders, `isWeightBalanced` |
| `groups.dfy` | `Groups` | `packGroups`' group records, the active filter and density sort, the result groups; `createEmptyResult`'s groups |
| `aggregate.dfy` | `Aggregate` | `packGroups` itself: totals, extents, support pass, layers, utilisation, density, `createEmptyResult` |
| `distributor.dfy` | `Distributor` | `packMultipleContainers` |
| `recommender.dfy` | `Recommender` | `recommendContainers` |

### Representation

- **Sizes.** All sizes and positions are whole millimetres (`nat`/`int`).
  The engine's doubles therefore become exact integers. Its `EPSILON`
  comparison of two heights becomes equality.
- **Scores and weights.** Weights, costs, support ratios and scores are
  `real` (exact rationals).
- **Packer score.** The engine's real score
  `floorH*100000 + posL*100 + posW - volume/1000` is scaled by 1000 to an
  integer. This keeps exactly the same strict order.
- **Sorting.** Every `Array.prototype.sort` with a numeric comparator is
  one stable insertion sort by a real key (`Basics.SortByKey`).
- **Tolerance comparators.** `bestTile` and `recommendContainers` compare
  with tolerances (a total within 1, a stability within 0.05, a cost
  within 0.01). Such a comparator is not transitive in general, so the
  order `sort` produces is not determined. Both are modelled by a
  left-to-right scan that returns the first candidate no later candidate
  precedes. When the tolerances never merge distinct values, the
  comparator is proved a strict weak order and that candidate is
  proved minimal (`Tiler.SeparatedIsStrictWeakOrder`,
  `Recommender.SeparatedIsStrictWeak`).
- **Stability scores.** `calculateOrientationStability` uses a square root.
  It is a parameter `sideStability` of the models that need it.
- **Weight balance.** `isWeightBalanced` compares two square roots. It is
  modelled by comparing their squares, and
  `Stability.WeightBalancedBySqrt` proves the two comparisons agree.
- **Recommender's packer.** `recommendContainers` calls the
  multi-container packer on lists of container types. The model receives
  that call as a function `placedBy(list)`: the number of boxes placed.

## Model

| member | source | states |
|---|---|---|
| Basics.SortByKey | containers/js/algorithms.js:246-253 | the sorted groups are a permutation of the input, in non-decreasing order of the key (the engine's `sort` with a numeric comparator) |
| Basics.FirstMinimal | containers/js/algorithms.js:164-174 | the scan returns an index no later element precedes; when the comparator is a strict weak order, no element at all precedes it and it precedes every earlier one, so it is what sort-then-take-first returns |
| Basics.CeilDiv | containers/js/algorithms.js:1174 | `Math.ceil(a / b)`: the count times `b` reaches `a`, and one fewer would not |
| Basics.DedupByProperties | containers/js/algorithms.js:509-515 | de-duplication by key keeps only input elements, no two with the same key, and every key of the input; the `seen` set is that key set |
| Orientations.OrientationsWithStability | containers/js/algorithms.js:398-434 | two orientations without the vertical flip, six with it; each is a rearrangement of the box's edges; the first two stand upright with score 1.0; the others are laid on a side with the side-stability score of their own dimensions |
| Orientations.OrientationsComplete | containers/js/algorithms.js:398-434 | every rearrangement of the three edges is offered (with the flip off, every one that keeps the height) |
| Tiler.EmptyTile | containers/js/algorithms.js:1211-1230 | the empty result places nothing and is named "none" |
| Tiler.TileOrientations | containers/js/algorithms.js:33-45 | `bestTile` tries two orientations, or six when the vertical flip is allowed |
| Tiler.FitPattern | containers/js/algorithms.js:54-89 | a uniform tiling exists exactly when the box fits along all three axes; its counts are the largest that fit on each axis (the used extent is within the space and one more box would not be); its total is the per-layer count times the layers |
| Tiler.NextRowStops | containers/js/algorithms.js:103-110 | the row loop stops exactly when the next row, rotated on odd rows, is wider than the remaining width or longer than the pallet |
| Tiler.NextRowShape | containers/js/algorithms.js:104-118 | each new row alternates rotation and holds as many boxes as fit along the pallet's length |
| Tiler.LayerRowsShaped | containers/js/algorithms.js:103-124 | every row of a mixed layer has that shape |
| Tiler.RowsLengthBound | containers/js/algorithms.js:120 | the used length of well-shaped rows never exceeds the pallet's length |
| Tiler.LayerRowsComplete | containers/js/algorithms.js:103-124 | the rows never take more than the available width, and when the loop ends not even one more row fits: the layer is maximal |
| Tiler.MixedTileShape | containers/js/algorithms.js:91-150 | a mixed tiling exists exactly when the footprint is not square, one layer fits the height and at least one row fits; its rows are the maximal layer and stay within the pallet; its layer count is the largest that fits the height; its total is rows' boxes times layers |
| Tiler.LayRows | containers/js/algorithms.js:96-124 | the `while` loop builds exactly the maximal layer's rows, with their box count, used length and used width |
| Tiler.FitMixed | containers/js/algorithms.js:91-150 | `fitMixed` returns the mixed tiling characterised above |
| Tiler.OrientationCandidates | containers/js/algorithms.js:153-158 | one orientation contributes its uniform tiling, then its mixed one, when they exist |
| Tiler.ScanOrientations | containers/js/algorithms.js:153-159 | the inner loop collects the candidates of every orientation, in order |
| Tiler.CollectCandidates | containers/js/algorithms.js:152-160 | the nested loops collect the candidates of every pallet variant and orientation, in the engine's order |
| Tiler.CandidatesFit | containers/js/algorithms.js:152-160 | every candidate stays inside the space, read through its pallet variant, and its total is per-layer count times layers |
| Tiler.SeparatedIsStrictWeakOrder | containers/js/algorithms.js:164-172 | the comparator is a strict weak order when totals and stability scores are never within tolerance of each other without being equal |
| Tiler.SelectedIsBest | containers/js/algorithms.js:164-174 | under that condition the chosen candidate ranks highest of all candidates: the largest total, then among those the highest stability score, then among those the highest volume efficiency |
| Tiler.BestTile | containers/js/algorithms.js:28-175 | a non-positive size gives the empty result; no candidate gives the empty result; otherwise the result is the candidate at an index no later candidate precedes, and fits the space; when the candidates are separated, no candidate precedes it, it precedes every earlier one (so it is the first after the engine's sort), and it ranks highest by total, then stability, then volume efficiency |
| Grid.SixPermutationsMembers | containers/js/algorithms.js:500-507 | the packer's orientation list is exactly the six edge permutations |
| Grid.Fitting | containers/js/algorithms.js:514 | the filter keeps exactly the orientations that fit the container |
| Grid.PackOrientationsSound | containers/js/algorithms.js:496-516 | every offered orientation is an edge permutation that fits the container, and no two have the same dimensions |
| Grid.PackOrientationsComplete | containers/js/algorithms.js:496-516 | every permutation that fits is offered, up to equal dimensions |
| Grid.CellHi | containers/js/algorithms.js:531-532 | the end of a cell range is clamped to the grid |
| Grid.PointInCells | containers/js/algorithms.js:528-532 | every point of a box's footprint lies in the cell range the height map scans and raises for it |
| Grid.ScoreExchangeRates | containers/js/algorithms.js:625-628 | the score's exchange rates: one more millimetre of floor height costs as much as 1000 mm further along the length, one millimetre along the length as much as 100 mm across the width, and a box 1000 mm³ larger offsets one millimetre across the width |
| Grid.HigherFloorCanWin | containers/js/algorithms.js:625-630 | the score is not lexicographic: a box 1 mm higher but 2000 mm nearer the back scores lower |
| Grid.OverlapSharesCell | containers/js/algorithms.js:528-558 | two boxes inside the container whose footprints overlap share a height-map cell |
| Packer.OfSlotMembers | containers/js/algorithms.js:666 | a group's own list holds exactly the placements of that group |
| Packer.MakePlacement | containers/js/algorithms.js:647-663 | a new box sits at the chosen position on the floor height found, in the chosen orientation; its support is 1 on the container floor and 0 above it |
| Packer.ConservedSnoc | containers/js/algorithms.js:665-668 | placing a box keeps each group's placed count plus remaining count equal to its quantity, and its list equal to its placements |
| Packer.StackedSnoc | containers/js/algorithms.js:622-671 | a box resting on the highest cell under it keeps every box above every earlier box it shares a cell with |
| Packer.AnyPositive | containers/js/algorithms.js:562 | `hasRemainingBoxes` holds exactly when some group has boxes left |
| Packer.GreedyPacker.constructor | containers/js/algorithms.js:519-525 | the packer starts with an all-zero height map, no placements and every group's full quantity left |
| Packer.RowMax | containers/js/algorithms.js:535-541 | the value bounds every cell of the row range, and is 0 on an empty range |
| Packer.RowMaxAttained | containers/js/algorithms.js:535-541 | on a non-empty row range some cell reaches the value, so it is the maximum |
| Packer.RectMax | containers/js/algorithms.js:528-543 | the value bounds every cell of the rectangle, and is 0 on an empty one |
| Packer.RectMaxAttained | containers/js/algorithms.js:528-543 | on a non-empty rectangle some cell reaches the value, so it is the maximum |
| Packer.GreedyPacker.FloorHeight | containers/js/algorithms.js:528-543 | `getFloorHeight` returns the maximum of the cells under the footprint: every such cell is at most the result, some cell equals it when the footprint covers a cell, and it is 0 otherwise |
| Packer.GreedyPacker.ScanRow | containers/js/algorithms.js:536-540 | the inner loop folds one row of cells into the running maximum |
| Packer.GreedyPacker.RaiseFootprint | containers/js/algorithms.js:546-559 | `setFloorHeight` sets exactly the cells under the footprint to the new height and leaves every other cell unchanged |
| Packer.GreedyPacker.AddGridRow | containers/js/algorithms.js:578-582 | one pass of the outer grid loop adds that row's cell origins through the `seen` filter |
| Packer.GreedyPacker.CandidatePositions | containers/js/algorithms.js:565-592 | the candidates are the cell origins, then the three far corners of every placed box, with first occurrences kept |
| Packer.GreedyPacker.ConsiderPosition | containers/js/algorithms.js:620-635 | one candidate position updates the best choice so far: the strictly lower score wins, and the first wins among equals |
| Packer.GreedyPacker.ScanPositions | containers/js/algorithms.js:619-636 | the position loop keeps the best choice over all positions for one orientation |
| Packer.GreedyPacker.ScanGroup | containers/js/algorithms.js:609-638 | one group (skipped when it has nothing left) keeps the best choice over its orientations and positions |
| Packer.GreedyPacker.ScanOrientations | containers/js/algorithms.js:611-637 | the orientation loop of one group keeps the best choice over that group's orientations and every position |
| Packer.GreedyPacker.SelectBest | containers/js/algorithms.js:601-640 | no choice exactly when no (group, orientation, position) is legal; otherwise a legal triple with its floor height and score, whose score is minimal over all legal triples and strictly below every triple scanned before it |
| Packer.SelectedUnique | containers/js/algorithms.js:601-640 | the selection rule (least score over legal triples, first among equals) picks at most one choice |
| Packer.GreedyNextUnique | containers/js/algorithms.js:598-663 | so the box the engine places next from a given state is determined |
| Packer.GreedyFromDetermined | containers/js/algorithms.js:595-672 | two runs of greedy rounds from the same start agree: the shorter is a prefix of the longer |
| Packer.GreedyPacker.SelectNext | containers/js/algorithms.js:598-663 | the box built from the selected choice is the engine's next box and is legal; no choice means no legal triple exists |
| Packer.GreedyPacker.ChosenPlaceable | containers/js/algorithms.js:643-663 | the selected box lies inside the container, belongs to a group with boxes left and rests on the highest cell under it |
| Packer.GreedyPacker.Record | containers/js/algorithms.js:665-668 | recording a box appends it to the placements and to its group's list, moves one unit from remaining to placed, and keeps the bookkeeping invariants |
| Packer.GreedyPacker.Place | containers/js/algorithms.js:665-671 | placing also raises exactly the footprint's cells to the box's top; no cell goes down and the packer's invariant holds again |
| Packer.GreedyPacker.Round | containers/js/algorithms.js:598-672 | one round places exactly the engine's next box (least score, first among equals), with the bookkeeping and height map updated for it; or it places none, changes nothing, and no legal triple exists |
| Packer.GreedyPacker.Run | containers/js/algorithms.js:595-672 | the loop runs at most 50000 rounds; each placement it appends is the engine's next box from the state before it; no cell goes down; it ends with nothing left, the round limit reached, or no legal triple |
| Packer.PackSorted | containers/js/algorithms.js:519-672 | a fresh packer over the sorted groups, run to the end, places the greedy sequence from nothing and stops only when nothing is left, after exactly `MaxIterations` placements, or stuck |
| Packer.GreedyPacker.NoOverlap | containers/js/algorithms.js:598-672 | with positive box sizes no two placed boxes overlap |
| Packer.MaxTop | containers/js/algorithms.js:675-679 | the used height bounds every box top and is 0 with no boxes |
| Packer.MaxTopAttained | containers/js/algorithms.js:675-679 | some box reaches the used height |
| Packer.MaxTopBounded | containers/js/algorithms.js:675-679 | the used height of legally placed boxes is within the container |
| Packer.UsedHeight | containers/js/algorithms.js:675-679 | the loop computes the highest box top |
| Packer.RunMaxRectsPacking | containers/js/algorithms.js:481-688 | the groups are packed largest volume first; the placements are the greedy sequence of least-score boxes; every placement is legal; per group, placed plus remaining equals the quantity and its list is its placements; with positive sizes no boxes overlap; the used height is the highest top and within the container; packing stops only when nothing is left, after exactly `MaxIterations` placements, or when nothing fits; so the placements are `GreedyRun` of the groups: the finished greedy run over their stable largest-volume-first sort |
| Stability.OverlapArea | containers/js/algorithms.js:711-718 | the overlap is positive exactly when the footprints overlap, and never exceeds either footprint |
| Stability.BoxSupport | containers/js/algorithms.js:699-722 | support is never negative and is 1 on the container floor (its upper bound 1 is `Stability.SupportAtMostOne`) |
| Stability.SquaresCount | containers/js/algorithms.js:711-718 | the unit squares of a rectangle are as many as its area, so an overlap area counts shared unit squares |
| Stability.CarriedSquaresCount | containers/js/algorithms.js:704-720 | when the boxes below have height and do not overlap, the supported area counts the distinct unit squares of the box's base that they carry |
| Stability.SupportAtMostOne | containers/js/algorithms.js:699-722 | among non-overlapping boxes of positive height, support lies in [0, 1] |
| Stability.SupportAreaPositive | containers/js/algorithms.js:704-720 | the supported area is positive exactly when some box whose top is at this box's floor overlaps it |
| Stability.SupportedIffResting | containers/js/algorithms.js:693-722 | a box has positive support exactly when it is on the floor or rests on an overlapping box |
| Stability.SupportAreaPermutation | containers/js/algorithms.js:704-720 | the supported area does not depend on the order of the boxes scanned |
| Stability.SupportAreaAbove | containers/js/algorithms.js:704-720 | boxes whose tops are above this box's floor contribute nothing |
| Stability.SortedScanSeesAll | containers/js/algorithms.js:321-325 | after the sort by floor height, scanning only the earlier boxes gives each box the support it has among all boxes |
| Stability.LaterAbove | containers/js/algorithms.js:323 | after that sort every later box has its top above the current box's floor |
| Stability.SupportAreaIgnoresSupport | containers/js/algorithms.js:707-720 | updating support values in place does not change the areas later boxes see |
| Stability.SupportAreaOf | containers/js/algorithms.js:704-720 | the inner loop sums the overlaps of the earlier boxes whose tops touch this box's floor |
| Stability.CalculateSupport | containers/js/algorithms.js:693-724 | every box's support becomes its supported area over its footprint, computed from the boxes before it, and nothing else changes |
| Stability.StabilityRecommendationBands | containers/js/algorithms.js:758-767 | the advice never gets worse as support grows; two supports get the same text exactly when they are in the same band; the acceptable text is given exactly at or above the 0.7 threshold |
| Stability.SupportTextsDistinct | containers/js/algorithms.js:758-767 | the four per-box texts are pairwise different |
| Stability.SupportMessageInjective | containers/js/algorithms.js:758-767 | different bands give different texts |
| Stability.OverallRecommendationBands | containers/js/algorithms.js:769-780 | the overall advice never gets worse with a higher score and fewer issues; two inputs get the same text exactly when they are in the same band |
| Stability.OverallTextsDistinct | containers/js/algorithms.js:769-780 | the five overall texts are pairwise different |
| Stability.OverallMessageInjective | containers/js/algorithms.js:769-780 | different overall bands give different texts |
| Stability.IssuesOfSpec | containers/js/algorithms.js:726-743 | an issue is reported for exactly the boxes below the threshold, each with its centre, support and advice; there are none exactly when every box is supported enough |
| Stability.TotalSupportBounds | containers/js/algorithms.js:728-735 | the summed support lies between count times the lowest and count times the highest bound |
| Stability.MeanSupportBounds | containers/js/algorithms.js:745 | the mean support lies within any bounds on the individual supports |
| Stability.AnalyzeStability | containers/js/algorithms.js:726-756 | the report lists the issues above, the mean support and the overall advice, and is stable exactly when every box reaches the threshold |
| Stability.StableScore | containers/js/algorithms.js:745-750 | a stable load has a mean support at or above the threshold, and ratios in [0, 1] give a mean in [0, 1] |
| Stability.IsWeightBalanced | containers/js/algorithms.js:782-790 | the ideal centre of mass is always balanced |
| Stability.WeightBalancedBySqrt | containers/js/algorithms.js:782-797 | the squared test agrees with comparing the deviation against 15% of the floor diagonal |
| Groups.Usable | containers/js/algorithms.js:223-226 | exactly the orientations with positive edges that fit the container are kept |
| Groups.ValidOrientationsSpec | containers/js/algorithms.js:219-226 | a group has usable orientations only with positive edges; each is a rearrangement of its edges that fits; every generated orientation that fits is kept |
| Groups.GroupDataIndexed | containers/js/algorithms.js:206-244 | each record keeps its group's id and sizes, clamps the quantity at 0, and uses weight 1 when none is given |
| Groups.ActiveOf | containers/js/algorithms.js:246-247 | exactly the groups with boxes to place and a usable orientation are active |
| Groups.PackerInputSpec | containers/js/algorithms.js:246-253 | each group handed to the packer comes from one active record, no record twice, and every active record is handed over |
| Groups.EmptyGroups | containers/js/algorithms.js:814-825 | `createEmptyResult` reports every group with nothing placed |
| Groups.ResultGroupsSpec | containers/js/algorithms.js:350-361 | each reported group's placed count is the number of its boxes among all placements and at most its quantity; the counts add up to the number of placements; every reported box is inside the container |
| Groups.ResultGroupsReport | containers/js/algorithms.js:350-361 | the reported boxes are exactly all placed boxes, with their final support values |
| Aggregate.Tally | containers/js/algorithms.js:284-314 | the totals loop computes the fold over the placements |
| Aggregate.TotalsSpec | containers/js/algorithms.js:284-314 | the count is the number of placements, the highest top is the used height, and the extremes bound every box (within the container when the boxes are) |
| Aggregate.UsedExtentBounds | containers/js/algorithms.js:316-318 | the used length and width are within the container and at least every box's own length and width |
| Aggregate.SupportPass | containers/js/algorithms.js:321-329 | with no boxes the report is the default stable one; otherwise it is the analysis of the floor-sorted boxes with recomputed support |
| Aggregate.ScanSupportsOrderFree | containers/js/algorithms.js:321-325 | the support each box gets in the sorted scan is its support among all boxes |
| Aggregate.HeightsBound | containers/js/algorithms.js:364-370 | there are no more distinct floor heights than boxes |
| Aggregate.LayerSetMembers | containers/js/algorithms.js:364-370 | a height is a layer exactly when some reported box rests at it |
| Aggregate.CountLayers | containers/js/algorithms.js:364-370 | the loops count the distinct floor heights of the reported boxes |
| Aggregate.Utilization | containers/js/algorithms.js:388 | utilisation is non-negative, and zero exactly when no volume is placed |
| Aggregate.Density | containers/js/algorithms.js:389-391 | density is non-negative, and positive exactly when boxes, used extents and volume are all positive |
| Aggregate.EmptyReported | containers/js/algorithms.js:802-837 | the empty result keeps every promise of a normal result |
| Aggregate.PackAndAccount | containers/js/algorithms.js:206-361 | normalising, packing and reporting the groups accounts for every placed box: groups echoed in order; each group's placed count is the number of placed boxes carrying its index, and its list holds only its own boxes; all boxes inside and non-overlapping; the placed boxes are the finished greedy run over the active groups sorted densest first |
| Aggregate.NothingActiveRunsEmpty | containers/js/algorithms.js:246-260 | with no active group the packer is handed nothing, and the finished greedy run over nothing places nothing |
| Aggregate.GroupsAccounted | containers/js/algorithms.js:350-361 | the packer's guarantees carry over to the reported groups: each group reports as placed count the number of boxes the packer gave it, and its list holds exactly its own boxes |
| Aggregate.PackedTallied | containers/js/algorithms.js:350-361 | whatever the container, the result's total is the sum of its groups' counts and each count is that of the group's own boxes |
| Aggregate.AggregateReported | containers/js/algorithms.js:316-392 | the assembled result keeps all of `packGroups`' promises (see `Aggregate.PackGroups`), and it summarises the placed boxes: their count; per group, its own boxes' count and only its own boxes; each box in its own group's list with its recomputed support, once; their volume sum; used length and width as the span between the extreme boxes (0 without boxes); the stability record of the floor-sorted support scan, or score 1, no issues, stable and no advice without boxes; the mean support as the score; and their centre of mass |
| Aggregate.TotalsVolume | containers/js/algorithms.js:286-303 | the total volume is the sum of the placed boxes' volumes |
| Aggregate.HeightReachedFrom | containers/js/algorithms.js:316-318 | some reported box reaches the used height when there are boxes; it is 0 when there are none |
| Aggregate.ScoreReported | containers/js/algorithms.js:321-329 | the score is the mean of the boxes' supports, whatever order the sort scanned them in |
| Aggregate.ResupportPermutation | containers/js/algorithms.js:321-325 | summed support does not depend on the order of the recomputed boxes |
| Aggregate.IssuesReportedFrom | containers/js/algorithms.js:321-361 | each issue belongs to a reported box below the threshold, with its centre, support and advice, and every reported box below the threshold has its issue |
| Aggregate.FractionsReported | containers/js/algorithms.js:321-361 | every reported support, and the score, lie in [0, 1] |
| Aggregate.StableIffPlaced | containers/js/algorithms.js:321-329 | the load is analysed and is stable exactly when every placed box has enough support among all boxes |
| Aggregate.ReportedWithin | containers/js/algorithms.js:316-318 | every reported box is inside the container and within the used extents |
| Aggregate.LayersOfReport | containers/js/algorithms.js:364-370 | the layers counted over the reported groups are the floor heights of all placed boxes |
| Aggregate.LayersCounted | containers/js/algorithms.js:364-378 | there are at most as many layers as boxes, and no layers exactly when no boxes |
| Aggregate.PositiveHeights | containers/js/algorithms.js:223-226 | every group handed to the packer, and so every placed box, has positive edges |
| Aggregate.ThresholdPermuted | containers/js/algorithms.js:321-329 | every box reaches the threshold in the sorted list exactly when every box does among all boxes |
| Aggregate.ThresholdReported | containers/js/algorithms.js:350-361 | the same holds for the boxes as reported per group |
| Aggregate.StabilityReported | containers/js/algorithms.js:321-329 | the load is reported stable exactly when every reported box has enough support |
| Aggregate.DisjointReported | containers/js/algorithms.js:350-361 | no two reported boxes overlap |
| Aggregate.PackGroups | containers/js/algorithms.js:180-393 | a non-positive container gives the degenerate result; with no active group the result is the empty one; otherwise every group is echoed in order and its placed count is within its quantity; the total is their sum; boxes are inside the container and within the used extents and do not overlap; some box reaches the used height; the layer count is the number of distinct floor heights; issues are exactly the boxes below the threshold; supports and score are in [0, 1]; utilisation and density follow their formulas; the balance flag is the weight-balance test of the centre of mass; and the result summarises exactly the boxes of the finished greedy run over the active groups (`GroupsPacked`, `Summarises`: per-group counts and lists, used extents, stability record, volume, score, centre of mass) |
| Distributor.JsRemainder | containers/js/algorithms.js:858 | JavaScript's `%` matches Euclidean remainder for non-negative quantities and truncates toward zero for negative ones; either way the quantity minus the remainder is a multiple of the divisor |
| Distributor.RemainderMultiple | containers/js/algorithms.js:857-858 | a natural number minus its remainder, and its negation plus its remainder, are multiples of the divisor |
| Distributor.Allocations | containers/js/algorithms.js:855-862 | one allocation per container, each being the base share plus one for the first `remainder` containers |
| Distributor.AllocationsPrefixSum | containers/js/algorithms.js:855-862 | the first m allocations add up to m times the base share plus min(m, remainder) |
| Distributor.AllocationsSum | containers/js/algorithms.js:855-862 | a non-negative quantity is divided without loss: the allocations add up to it |
| Distributor.AllocationsBalanced | containers/js/algorithms.js:855-862 | allocations are non-negative, differ by at most one, and exactly the first `qty % n` containers get the extra box |
| Distributor.AllocationsNegative | containers/js/algorithms.js:855-862 | a negative quantity gives every container a negative allocation |
| Distributor.CarryConserves | containers/js/algorithms.js:957-966 | in sequential mode what the containers place plus what is left is the group's quantity (clamped at 0) |
| Distributor.SpreadConserves | containers/js/algorithms.js:885-892 | in spread mode, placing at most each allocation places at most the group's quantity |
| Distributor.PackEchoing | containers/js/algorithms.js:947-955 | the container's call to `packGroups` returns one result per group, each echoing its request, with at most the requested quantity placed, keeps every promise of `packGroups` (`GroupsPacked`), and counts each group's own boxes (`Tallied`) |
| Distributor.AllowedFor | containers/js/algorithms.js:943-949 | the allow-list keeps one entry per group |
| Distributor.UnplacedWeighsNothing | containers/js/algorithms.js:973-977 | a container with nothing placed weighs nothing |
| Distributor.Working | containers/js/algorithms.js:854-880 | the working groups keep the caller's groups apart from their quantities |
| Distributor.Allocated | containers/js/algorithms.js:888-892 | in spread mode each container sees every group's allocation for it |
| Distributor.PackAllowed | containers/js/algorithms.js:936-955 | a group left out by a non-empty allow-list places nothing; no group places more than it has; groups are reported in order; the result is `packGroups`' result for the allowed groups (`GroupsPacked`), with each group's own boxes counted (`Tallied`) |
| Distributor.AllowedEchoes | containers/js/algorithms.js:943-949 | a result echoing the allowed groups places nothing of a group off a non-empty allow-list and at most what each group has, in order |
| Distributor.CorrectGroups | containers/js/algorithms.js:957-971 | each reported quantity becomes the placed count; in sequential mode what is left drops by what was placed, not below 0, otherwise it is unchanged |
| Distributor.PackContainer | containers/js/algorithms.js:885-985 | one container: nothing left gives the empty container result and passes the groups on unchanged; otherwise it places at most what is left, respects its allow-list, passes on exactly `LeftAfter` in sequential mode, and its result is `packGroups`' result for the allowed groups, each group's count as its quantity (`ContainerPacked`); its total is the sum of the groups' counts, each that of the group's own boxes (`Tallied`) |
| Distributor.NothingLeftStep | containers/js/algorithms.js:893-933 | a container reached with nothing left holds nothing, weighs nothing and passes the groups on unchanged |
| Distributor.RecountedStep | containers/js/algorithms.js:957-984 | recounting `packGroups`' result gives a labelled container result that keeps the allow-list, places at most what is left and carries the rest forward |
| Distributor.CarriedIsLeftAfter | containers/js/algorithms.js:957-966 | in sequential mode the recount passes on exactly `LeftAfter` |
| Distributor.PackedFromAllowed | containers/js/algorithms.js:936-984 | a recount of `packGroups`' result for the allowed groups is the container's packed result |
| Distributor.Recounted | containers/js/algorithms.js:957-971 | every group keeps everything but its quantity, which becomes its placed count |
| Distributor.LeftAfter | containers/js/algorithms.js:893-966 | the groups keep everything but their quantities; when nothing was left they are unchanged, otherwise each reported group drops by what was placed, not below 0 |
| Distributor.ContainerTallied | containers/js/algorithms.js:897-985 | any container result `packContainer` can give reports as its total the sum of its groups' placed counts, and each group's count is that of its own boxes, in the nothing-left case too |
| Distributor.NothingLeftTallied | containers/js/algorithms.js:897-933 | the empty container result counts no box |
| Distributor.RecountTallied | containers/js/algorithms.js:957-971 | recounting keeps the total, each group's count and its own boxes |
| Distributor.RecountOwnBoxes | containers/js/algorithms.js:957-971 | recounting keeps each group's count of its own boxes and its list |
| Distributor.Remaining | containers/js/algorithms.js:882-966 | what sequential mode offers each container keeps the caller's groups apart from their quantities |
| Distributor.Offered | containers/js/algorithms.js:882-892 | the groups each container is offered keep the caller's groups apart from their quantities |
| Distributor.PackedInTurnStep | containers/js/algorithms.js:885-985 | packing the next container with what it is offered extends the packed-in-turn record, and what is left afterwards is `LeftAfter` of what was left |
| Distributor.TurnStep | containers/js/algorithms.js:885-985 | one turn of the container loop keeps the labels, the allow-lists, the allocation or carry bound, the exact groups left and the packed-in-turn record |
| Distributor.PackTurn | containers/js/algorithms.js:885-985 | one pass of the container loop appends one result and keeps all of the above |
| Distributor.TalliedStep | containers/js/algorithms.js:885-985 | appending a tallied container result keeps every result tallied |
| Distributor.PackMultipleContainers | containers/js/algorithms.js:839-989 | one result per container, labelled with its id and index; allow-lists are respected; in spread mode every container stays within its allocation, otherwise within what earlier containers left; over all containers no group places more than its quantity; each result is `packGroups`' result for exactly the groups that container was offered (`Offered`), or the empty result when they ask for nothing (`PackedInTurn`); each container's total is the sum of its groups' placed counts, each that of the group's own boxes (`AllTallied`) |
| Distributor.DistributionConserves | containers/js/algorithms.js:839-989 | either mode places at most each group's quantity in total |
| Recommender.ValidTypes | containers/js/algorithms.js:1009-1011 | exactly the types with all three sizes and a weight limit are kept |
| Recommender.ValidTypesAppend | containers/js/algorithms.js:1009-1011 | the filter is stable: the kept types are in the caller's order |
| Recommender.Capacities | containers/js/algorithms.js:1027-1049 | each kept type's capacity is what one container of it holds and is positive; every valid type with positive capacity is kept, with its cost weight defaulting to 1 |
| Recommender.CapacitiesAppend | containers/js/algorithms.js:1027-1049 | the capacities are listed in the order of the valid types |
| Recommender.LargestFirst | containers/js/algorithms.js:1056 | after the sort the first type has the largest capacity |
| Recommender.Copies | containers/js/algorithms.js:1083-1090 | the list holds `count` containers of one type |
| Recommender.FirstFitMinimal | containers/js/algorithms.js:1082-1097 | strategy 1 finds nothing for a type exactly when no count up to 4 holds every box; otherwise it records the smallest count that does |
| Recommender.TryCounts | containers/js/algorithms.js:1082-1097 | the counting loop, with its `break`, gives that candidate |
| Recommender.TryPair | containers/js/algorithms.js:1103-1167 | one (i, j) pass records the pair and the one-large-two-small triple that hold every box |
| Recommender.TryPairs | containers/js/algorithms.js:1103-1168 | the inner loop records those candidates for every j from i on |
| Recommender.CollectCandidates | containers/js/algorithms.js:1081-1169 | both strategies collect the candidate list in the engine's order |
| Recommender.CandidatesOfSpec | containers/js/algorithms.js:1081-1169 | every candidate holds every box, its cost is the sum of its containers' cost weights (looked up by label, 1 when absent), and it is n copies of one type (n ≤ 4), a pair of different types, or one type with two copies of a smaller one |
| Recommender.Strategy1Complete | containers/js/algorithms.js:1081-1098 | every type whose minimal count fits contributes that candidate |
| Recommender.NoCandidatesPositive | containers/js/algorithms.js:1171-1174 | when no candidate exists the box total is positive, so the fallback's division is well defined and yields at least one container |
| Recommender.SeparatedIsStrictWeak | containers/js/algorithms.js:1186-1197 | the candidate comparator is a strict weak order when costs are never within 0.01 of each other without being equal |
| Recommender.ScanChooses | containers/js/algorithms.js:1186-1204 | the candidate the scan picks is non-empty and is the engine's choice |
| Recommender.Recommend | containers/js/algorithms.js:1059-1204 | the answer is non-empty; it is a candidate that holds every box and that no later candidate beats, and, when costs are separated, first by cost, then fewer containers, then more boxes; with no candidate it is the fewest copies of the largest type whose capacity reaches the total |
| Recommender.RecommendContainers | containers/js/algorithms.js:998-1205 | the answer is empty exactly when there are no groups, no valid type, a zero box total or no type that holds a box; otherwise it is the choice or fallback above |

## Left out

- `selectBestOrientation` (algorithms.js:448-480) is not modelled. Its result only sets fields that nothing downstream reads: `orientationLabel` and `stabilityScore`. It also sets `boxL/boxW/boxH`, whose product, the volume the packer sorts by, is the same for every orientation. The packer itself tries all orientations.
- `calculateOrientationStability` and `calculateDeviation` use square roots. The first is the parameter `sideStability`; the deviation value itself is not computed.
- `weightDistribution`: the centre of mass is modelled (`Aggregate.CentreOfMass`), and so is the balance test (`Stability.IsWeightBalanced`). The reported `deviation` number is not.
- Floating point is not modelled:
  - Sizes are whole millimetres and the `EPSILON` height comparison is equality.
  - Ratios and scores are exact reals.
  - The packer's score is scaled to an integer, which keeps its order.
- `Number(x) || 0` and `NaN` coercions are not modelled: inputs arrive as numbers. A missing weight or cost weight is represented by 0.0, which is then replaced by 1.
- Names, colours and the constant fields `multi`, `palletSwapped` and `maxHeight` are dropped from the results. So are the ids built from `Date.now()` in the recommender.
- Console logging and `performance.now()` timing are left out.
- `ENABLE_STABILITY_CHECK` and `ENABLE_WEIGHT_OPTIMIZATION` are taken as `true`, as configured in algorithms.js:19-20. The volume sort they switch off is not modelled.
- The container weight limit (`palletGrossMax`, `WeightLimit`) is passed along but never enforced by the engine. The model carries it only where the recommender's validity filter reads it.
- The legacy classes `EnhancedHeightMap`, `SpaceManager` and `MaxRectsBin` (algorithms.js:1236-1497) are not called by the entry points above and are not modelled.
- Basics.SortByKey: the sort is stable by construction (an element is inserted after every element with an equal key), but stability is not stated as a property.
- Packer.GreedyPacker.NoOverlap: proved only for groups with positive box sizes. `packGroups` only hands such groups to the packer (`Aggregate.PositiveHeights`).
- Tiler.BestTile: the ranking by total, stability and volume efficiency is proved only when totals and stability scores are separated by more than the comparator's tolerances. Otherwise the order left by `sort` depends on the comparator's non-transitive tie rules, and the model guarantees only that no later candidate is preferred.
- Aggregate.AggregateReported: the reported lists are tied to the placed boxes by count, membership and distinctness (so they hold each placed box once), not by an explicit permutation of one sequence into the other.
- Recommender.Recommend: the cheapest candidate is proved only when costs are separated by more than 0.01, for the same reason.
- Recommender.RecommendContainers: the packer call is the function `placedBy`. `packMultipleContainers` is not re-run inside the search, so the model does not relate `placedBy` to `Distributor.PackMultipleContainers`. The fallback list is proved to reach the total by capacity, not to hold every box when packed.
