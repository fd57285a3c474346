# Crane-safety decision logic: verified model

This project models the deterministic decision logic of the `ndt_slam` crane-safety stack and proves what
that logic guarantees: which obstacle is associated with which track, when a suspended cargo keeps its
identity, how far an estimated cargo bottom or dimension may move, when a warning code may be published
and when CLEAR may be said. Every module names the behaviour it covers in its opening comment.

| part | modules |
|---|---|
| cargo identity authority | `Cliques`, `OwnerFragments`, `DisjointSets`, `PhysicalGroups`, `ComponentBundles`, `GroupAssociation`, `GroupRescue`, `PreloadBoundary`, `PreloadRuns`, `PreloadFates` |
| obstacle tracker | `ObstacleTracks`, `GreedyAssociation`, `ObstacleTracker`, `TrackerOrder`, `TrackerAssociation`, `TrackerEvidence`, `TrackerRuns`, `TrackerEligibility`, `TrackerConfirms` |
| cargo bottom fusion | `BottomAccumulation`, `BottomFusion`, `BottomRuns`, `BottomGate`, `BottomHold`, `BottomLate`, `BottomAnswers`, `BottomExamples` |
| cargo geometry fusion | `GeometryThickness`, `GeometryMedians`, `GeometryFusion`, `GeometryRuns`, `GeometryPose`, `GeometryStreaks`, `GeometryExpansion`, `GeometryPromotion`, `GeometryWindows`, `GeometryProgress`, `GeometryExamples`, `GeometryGaps` |
| two-lidar merger | `PointCloudMerger`, `MergerRuns` |
| component lineage | `ComponentLineage`, `LineageMeasured`, `LineageExample` |
| review episodes, alarm heartbeat | `ReviewEpisodes`, `ReviewRuns`, `ReviewAnswers`, `AlarmHeartbeat`, `AlarmHistory` |
| avoidance risk fusion | `AvoidanceFusion`, `AvoidanceAnswers` |
| shared | `Prelude`, `Positions`, `Sorting` |

An object of the program is a class with the program's fields; each of its methods is proved equal to a
step function on the value of those fields. What holds on every run is then proved about the step
function, over all finite sequences of inputs. What an object must answer is told from those inputs alone, without its
step function: `AlarmHistory`, `ReviewAnswers`, `BottomAnswers`, `TrackerEvidence` with `TrackerConfirms`, `GroupRescue`,
`PreloadFates`, `LineageMeasured`, `GeometryProgress` and `AvoidanceAnswers` say when a code, a match or a measurement
has to come, not only when it may. `dafny verify dfyconfig.toml` checks the whole project.

Reading the model:

- `float` and `double` are `real`: rounding is not modelled. A value that may be NaN or infinite is an
  `Option`, absent when it is not finite. Stamps and clocks are inputs.
- A temporal-evidence authority is an `Authority`, absent when it is not valid; an invalid one is not even the same
  as itself (`Prelude.SameAuthority`). The component lineage compares plain pose identities, which are equal or not.
- A streak (`Positions.Streak`) is a list of rising positions of a run that count, with every other position from
  the first of them to the end at rest; what counts and what rests is said by each module.
- Euclidean norms, the square root of a fused variance, neighbouring-cell overlap and the vertical analysis
  of point sets enter as functions or as inputs.
- A call of `std::sort` is modelled by an insertion sort; `Sorting.AnySortAgrees` and
  `TrackerOrder.SortsAreDetermined` show that any sort gives the same result where the order is total.

Where the code does less than its comments or a natural reading promise, the model follows the code:

- A LOAD_THEN_LIFECYCLE handoff need not have seen an EMPTY to LOADED edge, because the last boundary branch
  also takes lifecycle edges (`PreloadRuns.HandoffWithoutLoadEdge`, with the exact condition in
  `PreloadRuns.LoadThenLifecycleEdges`).
- A reciprocal-unique pair is always matched exactly when the ambiguity margin is at least the scan's
  1e-9 tolerance (`GroupAssociation.MarginDecides`, `GroupAssociation.SmallMarginMiss`).
- A repeated stamp answers a review request with the last output whatever its key
  (`ReviewRuns.RepeatedStampIgnoresKey`, `ReviewRuns.ReviewAnswersKey`).
- A late update of the bottom fusion (rolled-back or stale stamp, lost centre) does not always reset: a changed pose
  authority on the same track skips those checks, and the memory of the track reaches the gate exactly then
  (`BottomLate.LateForgets`; a run that rolls the clock back by five seconds and is still published against the old
  output: `BottomExamples.RollbackUnderNewAuthority`).
- A repeated stamp is not always answered from memory: it is bound to be, whatever is measured, exactly when neither
  track nor authority differs, an invalid authority counting as different (`BottomLate.AnswerIsFixed`). The run
  `BottomExamples.RepeatUnderNewAuthority` gets a different answer to the same stamp;
  `BottomExamples.RepeatUnderInvalidAuthority` is processed again and happens to get the same one.
- The hold time of a pending bottom jump counts from the last absolute ask of the track, or from zero when there is
  none, whatever the source (`BottomHold.RunPositive`). An update without vertical evidence therefore ends a pending
  jump of a static source at once when that ask is older than the hold, although the comment at
  cargo_bottom_fusion.cpp:1097-1101 says that it must not reset: `BottomHold.UnseenEnds` says exactly when,
  `BottomExamples.BlindUpdateEndsStaticJump` is a run.
- The hold time bounds the pause behind an ask exactly when the last absolute ask is not ahead of it on the clock
  (`BottomHold.HoldsExactly`). That is always so for the absolute source, and for every source unless a changed authority
  rolled the clock back since then (`BottomHold.StreakIsHeld`); `BottomExamples.RollbackStretchesHold` is a run in
  which a static jump survives a longer pause.
- A shrink step of the frozen geometry may raise a dimension to a static lower bound that has grown since the freeze
  (`GeometryExamples.ShrinkStepLifts`). Outside the immediate mode a dimension grows without a confirmed expansion
  exactly when a frame lifts it (`GeometryExpansion.LiftsExactly`), which no frame does whose lower bounds fit the
  frozen dimensions (`GeometryExpansion.CoveredFloorLiftsNothing`).
- A frame that comes after a gap ends the confirming chains of a frozen geometry exactly when it carries a lifecycle;
  a frame without one leaves them alone however late it is (`GeometryPromotion.GapEndsChain`,
  `GeometryExpansion.GapEndsExpansion`), so a chain bounds the time from each of its frames back to the frame before it
  only. `GeometryGaps.GapBridged` is a run in which such a frame bridges a hundred seconds in both confirmations.
- Before the first placed frame the geometry compares no lifecycle, so the shape of an unplaced frame of another
  lifecycle may decide the frozen size (`GeometryExamples.ForeignShapeCounts`). From the first placed frame of a chain
  on every frame is of the lifecycle (`GeometryWindows.FreezeIsBacked`), so all shapes behind a freeze are of its
  lifecycle exactly when those before that frame are (`GeometryWindows.FreezeOwnsShapes`).
- Within one retained frame the lineage emission loop blocks a component id from the first contested pair on, so an
  undisputed pair is lost behind it and kept before it (two runs: `LineageExample.RowOrderDecides`);
  `ComponentLineage.UndisputedIsMatched` states exactly when an undisputed pair is matched.
- An advanced obstacle track is exposed as ambiguous after all when a later observation of the same cycle has a legal
  pair with it and stays without a match; `TrackerEligibility.AdvancedTrackEnds` says exactly when it can still be
  selected.

## Model

| member | source | states |
|---|---|---|
| `Cliques.MaximalCliques` | src/ndt_slam/src/cargo_physical_identity_authority.cpp:664-695 | from a clique r, the vertices p that extend it and the excluded x, the recursion terminates and lists, once each, exactly the maximal cliques that contain r and otherwise draw on p |
| `Cliques.AllMaximalCliques` | src/ndt_slam/src/cargo_physical_identity_authority.cpp:664-695 | for every symmetric, irreflexive matrix: started on all vertices, the output holds every maximal clique exactly once and nothing else |
| `Cliques.ExtendClique` | src/ndt_slam/src/cargo_physical_identity_authority.cpp:661-695 | every clique grows into a maximal one |
| `Cliques.UniqueMaximalClique` | src/ndt_slam/src/cargo_physical_identity_authority.cpp:918-938 | there is exactly one maximal clique if and only if all vertices are pairwise compatible, and it is then all of them |
| `Cliques.UniqueCliqueThrough` | src/ndt_slam/src/cargo_physical_identity_authority.cpp:800-820 | exactly one maximal clique holds a vertex if and only if its neighbours are pairwise compatible, and it is then the closed neighbourhood |
| `OwnerFragments.BuildMatrix` | src/ndt_slam/src/cargo_physical_identity_authority.cpp:893-916 | the matrix holds same-owner compatibility of every two groups, is symmetric and has an empty diagonal |
| `OwnerFragments.SelectGroups` | src/ndt_slam/src/cargo_physical_identity_authority.cpp:848-884 | the kept indices are, in order, exactly the eligible groups |
| `OwnerFragments.ReconstructLogicalOwner` | src/ndt_slam/src/cargo_physical_identity_authority.cpp:822-974 | succeeds if and only if there is a reference, at least one eligible group, and all eligible groups are pairwise compatible; the members are then all of them, ascending; each failure has its own reason |
| `OwnerFragments.PostLoadFragments` | src/ndt_slam/src/cargo_physical_identity_authority.cpp:713-820 | non-empty if and only if the anchor is eligible and its compatible groups are pairwise compatible; it is then the anchor and all of them, each once |
| `OwnerFragments.ChooseClique` | src/ndt_slam/src/cargo_physical_identity_authority.cpp:800-820 | finds the only clique holding the anchor, and reports none exactly when there are several |
| `OwnerFragments.MembersOf` | src/ndt_slam/src/cargo_physical_identity_authority.cpp:960-973 | clique positions are mapped back to group indices in order |
| `DisjointSets.UnionFind.Root` | src/ndt_slam/src/cargo_physical_identity_authority.cpp:1496-1499 | recursive find: the parent array stays an acyclic forest, every class is unchanged, the result is the representative and the path is compressed |
| `DisjointSets.UnionFind.FindRoot` | src/ndt_slam/src/cargo_physical_identity_authority.cpp:1273-1282 | two-pass find: same guarantees, with termination of both passes |
| `DisjointSets.UnionFind.Join` | src/ndt_slam/src/cargo_physical_identity_authority.cpp:1500-1504 | exactly the two classes are merged, under the left root |
| `DisjointSets.UnionFind.Bundle` | src/ndt_slam/src/cargo_physical_identity_authority.cpp:1286-1288 | exactly the two classes are merged, under the right root |
| `DisjointSets.JoinLinked` | src/ndt_slam/src/cargo_physical_identity_authority.cpp:1505-1512 | afterwards two elements share a root if and only if a chain of links joins them |
| `DisjointSets.BundleLinked` | src/ndt_slam/src/cargo_physical_identity_authority.cpp:1283-1291 | the bundling loops give the same classes |
| `PhysicalGroups.Prepare` | src/ndt_slam/src/cargo_physical_identity_authority.cpp:1485-1491 | keeps the accepted candidates in order, each with its canonical component list |
| `PhysicalGroups.GroupCandidates` | src/ndt_slam/src/cargo_physical_identity_authority.cpp:1494-1541 | candidates are in one group if and only if a chain of shared component ids links them; every candidate is in a group with all its copies; a group's components are the union of its members'; groups are listed by ascending components |
| `PhysicalGroups.LinkedByIndex` | src/ndt_slam/src/cargo_physical_identity_authority.cpp:1505-1512 | chains over positions are chains over candidates |
| `PhysicalGroups.GroupsDisjoint` | src/ndt_slam/src/cargo_physical_identity_authority.cpp:1513-1541 | different groups share no component |
| `PhysicalGroups.OrderIndependent` | src/ndt_slam/src/cargo_physical_identity_authority.cpp:1485-1541 | permuting the raw candidates, accepted or not, changes neither the groups nor their order |
| `ComponentBundles.BundleRoots` | src/ndt_slam/src/cargo_physical_identity_authority.cpp:1248-1295 | components share a root if and only if a chain of bundleable components links them |
| `GroupAssociation.BuildPairs` | src/ndt_slam/src/cargo_physical_identity_authority.cpp:2249-2340 | the table holds every usable group paired with every history, each once and nothing else; what the verdict and the cost of a pair mean is said by the three rows below |
| `GroupAssociation.GatesExactly` | src/ndt_slam/src/cargo_physical_identity_authority.cpp:2265-2340 | a pair is feasible if and only if it is 0 < dt <= gap old, its anchors lie within the step or its supports overlap, both horizontal extents changed within the limit, and for a group that is not continuity-only the vertical step is within speed times dt, margin and uncertainty and the vertical extent within the limit; and exactly which rejected pairs a lineage observation may rescue |
| `GroupAssociation.CostGrows` | src/ndt_slam/src/cargo_physical_identity_authority.cpp:2299-2329 | of two recent pairs the one that is nowhere farther never costs more, and less if it is nearer somewhere; height and vertical extent do not count for continuity-only groups |
| `GroupAssociation.CostUnits` | src/ndt_slam/src/cargo_physical_identity_authority.cpp:2299-2329 | a horizontal or vertical limit fully used costs one, nothing used costs nothing, and the extent steps are added |
| `GroupAssociation.ScanSide` | src/ndt_slam/src/cargo_physical_identity_authority.cpp:2363-2405 | both loops: the first pair that is cheapest up to 1e-9, and how many feasible pairs lie within the margin of it |
| `GroupAssociation.AssociateGroup` | src/ndt_slam/src/cargo_physical_identity_authority.cpp:2363-2405 | the exact match of a group, ambiguous exactly when it has a feasible pair and no match |
| `GroupAssociation.ExactIsReciprocal` | src/ndt_slam/src/cargo_physical_identity_authority.cpp:2363-2405 | an exact match is cheaper by more than the margin than every other feasible pair of its group or its history |
| `GroupAssociation.ReciprocalIsMatched` | src/ndt_slam/src/cargo_physical_identity_authority.cpp:2363-2405 | with a margin of at least 1e-9 every such pair is matched |
| `GroupAssociation.MarginDecides` | src/ndt_slam/src/cargo_physical_identity_authority.cpp:2363-2405 | every reciprocal-unique pair of every table is matched if and only if the margin is at least 1e-9 |
| `GroupAssociation.SmallMarginMiss` | src/ndt_slam/src/cargo_physical_identity_authority.cpp:2363-2405 | a two-pair table that misses its reciprocal-unique pair for any smaller margin |
| `GroupAssociation.ExactOneToOne` | src/ndt_slam/src/cargo_physical_identity_authority.cpp:2363-2405 | two groups are never matched exactly to one history |
| `GroupAssociation.FindSeed` | src/ndt_slam/src/cargo_physical_identity_authority.cpp:2529-2540 | the only group carrying the seed id, none if several do |
| `GroupAssociation.FindProvenance` | src/ndt_slam/src/cargo_physical_identity_authority.cpp:2625-2657 | a history is returned if and only if it alone remembers the component at the stamp |
| `GroupAssociation.FeasibleHistories` | src/ndt_slam/src/cargo_physical_identity_authority.cpp:2504-2509 | flags exactly the histories with a feasible pair |
| `GroupAssociation.Propose` | src/ndt_slam/src/cargo_physical_identity_authority.cpp:2524-2730 | the proposals are exactly those of usable observations whose seed names one unmatched, unambiguous group and whose component one history alone remembers, that history having no exact-feasible pair |
| `GroupAssociation.SelectNewest` | src/ndt_slam/src/cargo_physical_identity_authority.cpp:2739-2767 | the newest proposal of a group, the first listed of equally new ones; conflict unless one history is proposed and the newest source is alone |
| `GroupAssociation.ContestedFlags` | src/ndt_slam/src/cargo_physical_identity_authority.cpp:2768-2782 | flags exactly the groups whose selected history another group selected |
| `GroupAssociation.DifferentHistories` | src/ndt_slam/src/cargo_physical_identity_authority.cpp:2737-2903 | final matches of different groups differ, whichever of exact and lineage they are |
| `GroupAssociation.MatchIsMeasured` | src/ndt_slam/src/cargo_physical_identity_authority.cpp:2501-2903 | on the relations of the frame: every non-lineage match meets the age, step, extent and (unless continuity-only) vertical limits, and every lineage match the vertical ones and no other gate than it may miss |
| `GroupAssociation.OnlyPlausibleIsMatched` | src/ndt_slam/src/cargo_physical_identity_authority.cpp:2363-2515 | a usable pair that meets the limits and is the only one at both ends is matched, unless the Z gate of a continuity-only group refuses it |
| `GroupRescue.RescuedExactly` | src/ndt_slam/src/cargo_physical_identity_authority.cpp:2524-2903 | in terms of relations and observations only: a group is rescued if and only if a usable observation names it by its seed and by memory one history, neither of them has a plausible pair, the pair of them is rescuable, every other such observation of the group is older and names the same history, and no other group's newest one names that history; it is then matched to it, or to none when the Z gate of a continuity-only group refuses it |
| `GroupAssociation.AssociateFrame` | src/ndt_slam/src/cargo_physical_identity_authority.cpp:2501-2903 | after exact matching, lineage rescue and the Z gate: no history is matched twice; exact matches meet every measured limit and beat every rival by more than the margin; lineage matches are rescuable pairs of histories without an exact-feasible pair; the only plausible pair at both ends is matched; a reciprocal-unique pair is lost only to the Z gate; every outcome is the decision on exactly specified phases |
| `PreloadBoundary.Authority.Update` | src/ndt_slam/src/cargo_physical_identity_authority.cpp:1957-3540 | one update of the certificate, boundary and handoff slots equals the step function, from the slot checks at its start to the contradiction gate at its end |
| `PreloadBoundary.Authority.Reset` | src/ndt_slam/src/cargo_physical_identity_authority.cpp:1849-1874 | empties every slot and field, reports the tokens it drops, and keeps the serial numbers going |
| `PreloadBoundary.Authority.CrossBoundary` | src/ndt_slam/src/cargo_physical_identity_authority.cpp:2005-2136 | the boundary stages in order, at most one capture |
| `PreloadBoundary.Authority.PromotePending` | src/ndt_slam/src/cargo_physical_identity_authority.cpp:2033-2084 | the complementary edge within the gap turns the pending boundary into a handoff of the same token; staleness or a repeated edge drops it |
| `PreloadBoundary.Authority.CaptureFresh` | src/ndt_slam/src/cargo_physical_identity_authority.cpp:2086-2136 | an edge spends the certificate on a handoff or on a pending boundary |
| `PreloadBoundary.Authority.ConsumeHandoff` | src/ndt_slam/src/cargo_physical_identity_authority.cpp:3032-3069 | the handoff is consumed by the one matching group that opens a history, or dropped |
| `PreloadBoundary.Authority.MintCertificate` | src/ndt_slam/src/cargo_physical_identity_authority.cpp:3334-3360 | a completed reference mints one new token when the slot is free |
| `PreloadBoundary.Authority.VoidContradicted` | src/ndt_slam/src/cargo_physical_identity_authority.cpp:3495-3540 | in the pre-load phase a contradicted certificate leaves its slot and is reported as dropped, and nothing else does |
| `PreloadRuns.TokenFlow` | src/ndt_slam/src/cargo_physical_identity_authority.cpp:1957-3540 | in one update or reset a token only moves between slots, unless it is the one minted or is reported as consumed or dropped |
| `PreloadRuns.SpentAtMostOnce` | src/ndt_slam/src/cargo_physical_identity_authority.cpp:3032-3540 | on every run each certificate is consumed at most once, none that is held or was dropped, and the held, consumed and dropped ones add up to all certificates created |
| `PreloadRuns.TokensConserved` | src/ndt_slam/src/cargo_physical_identity_authority.cpp:1849-3540 | on every run of updates and resets each minted token is exactly once held, consumed or dropped, and no other token ever is |
| `PreloadRuns.PendingWasOpened` | src/ndt_slam/src/cargo_physical_identity_authority.cpp:2086-2136 | a pending boundary was opened by an earlier edge at its recorded stamp, of the kind its phase says |
| `PreloadRuns.HandoffSawBothEdges` | src/ndt_slam/src/cargo_physical_identity_authority.cpp:2035-2136 | a SAME_FRAME or LIFECYCLE_THEN_LOAD handoff saw a lifecycle edge and an EMPTY to LOADED edge at most the observation gap apart |
| `PreloadRuns.LoadThenLifecycleEdges` | src/ndt_slam/src/cargo_physical_identity_authority.cpp:2116-2127 | a LOAD_THEN_LIFECYCLE handoff is captured on a lifecycle edge within the gap of the update that opened its boundary, and saw a load edge if and only if one of the two was one |
| `PreloadRuns.HandoffWithoutLoadEdge` | src/ndt_slam/src/cargo_physical_identity_authority.cpp:2116-2127 | a three-update run that captures a handoff although no load edge ever occurred |
| `PreloadFates.BoundaryExactly` | src/ndt_slam/src/cargo_physical_identity_authority.cpp:1950-2136 | for every accepted update: exactly which handoff, pending boundary and certificate stand after rollback, rearm, expiry, promotion and capture, from the two edges, the gap and the gravity of the update |
| `PreloadFates.UpdateExactly` | src/ndt_slam/src/cargo_physical_identity_authority.cpp:1950-3540 | for every update: the standing handoff is consumed exactly by the one matching group that opens a history, dropped exactly on a mismatch and kept otherwise; a completed reference mints exactly when no certificate is kept; a contradicted certificate is void while gravity is EMPTY |
| `PreloadFates.UpdateRemembers` | src/ndt_slam/src/cargo_physical_identity_authority.cpp:4364-4366 | what an update leaves to compare with: lifecycle, stamp, gravity, and existence as loaded gravity or a cargo that exists |
| `PreloadFates.RefusedExactly` | src/ndt_slam/src/cargo_physical_identity_authority.cpp:1966-2002 | an update that is not accepted clears the slots if it rolls back, and leaves everything alone otherwise |
| `PreloadFates.LifecycleThenLoadConsumes` | src/ndt_slam/src/cargo_physical_identity_authority.cpp:2035-2136 | two updates: a certificate that meets its lifecycle edge while EMPTY and the load edge within the gap is handed over and consumed by the one group that opens a history |
| `PreloadFates.LoadThenLifecycleConsumes` | src/ndt_slam/src/cargo_physical_identity_authority.cpp:2035-2136 | the same with the load edge first |
| `ObstacleTracks.CellIntersectionCount` | src/ndt_slam/src/cargo_obstacle_tracker.cpp:37-55 | on sorted duplicate-free cell lists the merge loop counts the common cells |
| `GreedyAssociation.Assign` | src/ndt_slam/src/cargo_obstacle_tracker.cpp:645-659 | the assignment loop takes exactly the pairs no earlier taken pair clashes with |
| `GreedyAssociation.TallySide` | src/ndt_slam/src/cargo_obstacle_tracker.cpp:623-644 | one pass over the pairs fills the best cost and its count for every observation or track |
| `GreedyAssociation.OneToOne` | src/ndt_slam/src/cargo_obstacle_tracker.cpp:645-659 | taken pairs share no observation and no track |
| `GreedyAssociation.MaximalAndStable` | src/ndt_slam/src/cargo_obstacle_tracker.cpp:611-659 | a pair is left out only for a taken pair at one of its ends that costs no more |
| `GreedyAssociation.TallyMeaning` | src/ndt_slam/src/cargo_obstacle_tracker.cpp:623-644 | the running best cost and count of a side are the minimum and whether it stands alone |
| `GreedyAssociation.ReciprocalUniqueMeaning` | src/ndt_slam/src/cargo_obstacle_tracker.cpp:674-681 | the test holds if and only if the pair beats every rival at both ends by more than the cost tolerance, and such a pair is taken |
| `ObstacleTracker.Tracker.Update` | src/ndt_slam/src/cargo_obstacle_tracker.cpp:464-1233 | one update of tracks, ids and cycle equals the step function, with its decision |
| `ObstacleTracker.Tracker.OpenCycle` | src/ndt_slam/src/cargo_obstacle_tracker.cpp:486-527 | a rollback restarts the tracker; stale tracks go and cycle flags are cleared |
| `ObstacleTracker.Tracker.PrepareObservations` | src/ndt_slam/src/cargo_obstacle_tracker.cpp:528-545 | keeps the valid observations in order, each with canonical cells |
| `ObstacleTracker.Tracker.CollectPairs` | src/ndt_slam/src/cargo_obstacle_tracker.cpp:547-610 | all legal pairs in row order |
| `ObstacleTracker.Tracker.IntegrateOne` | src/ndt_slam/src/cargo_obstacle_tracker.cpp:660-1036 | creates, advances, freezes or exposes, as the outcome of the observation demands, from the filled tallies |
| `ObstacleTracker.Tracker.ExposeAll` | src/ndt_slam/src/cargo_obstacle_tracker.cpp:683-707 | exactly the tracks competing for the observation are exposed as ambiguous |
| `TrackerOrder.RunIds` | src/ndt_slam/src/cargo_obstacle_tracker.cpp:709-803 | live track ids are distinct on every run |
| `TrackerOrder.PairOrderTotal` | src/ndt_slam/src/cargo_obstacle_tracker.cpp:611-622 | with distinct ids the pair comparison is a strict total order on the legal pairs |
| `TrackerOrder.PairsCheapestFirst` | src/ndt_slam/src/cargo_obstacle_tracker.cpp:611-622 | the sorted pairs come cheapest first |
| `TrackerOrder.CanonicalPermuted` | src/ndt_slam/src/cargo_obstacle_tracker.cpp:306-328 | the canonical observation list does not depend on arrival order when canonical keys are distinct |
| `TrackerOrder.ArrivalOrderIrrelevant` | src/ndt_slam/src/cargo_obstacle_tracker.cpp:528-545 | two runs whose frames are permutations of each other have the same tracks, ids and decisions throughout |
| `TrackerOrder.SortsAreDetermined` | src/ndt_slam/src/cargo_obstacle_tracker.cpp:528-622 | on every run any increasing arrangement of observations and of pairs is the modelled one |
| `TrackerOrder.ChosenAreWorst` | src/ndt_slam/src/cargo_obstacle_tracker.cpp:1039-1100 | the selected, review and candidate tracks are the most dangerous of their kind, absent only if there are none: none of the kind has a more severe code, of the same code a lower or better known clearance, of the same clearance a smaller distance |
| `TrackerOrder.DangerRanks` | src/ndt_slam/src/cargo_obstacle_tracker.cpp:228-255 | not being more dangerous is transitive, so the comparison ranks tracks |
| `TrackerOrder.DangerMeaning` | src/ndt_slam/src/cargo_obstacle_tracker.cpp:228-255 | a 17 outranks an 18 and both everything else; then a known clearance, the lower clearance, the smaller distance and the smaller id decide |
| `TrackerAssociation.RunAssociates` | src/ndt_slam/src/cargo_obstacle_tracker.cpp:547-681 | in every cycle of every run: matches are legal pairs and one-to-one; every legal pair has one of its ends matched at no higher cost; an observation advances a track if and only if their pair beats every other legal pair at either end by more than the tolerance; it opens a track if and only if it has no legal pair |
| `TrackerAssociation.AdvancedExactly` | src/ndt_slam/src/cargo_obstacle_tracker.cpp:623-681 | a track is advanced by an observation if and only if their legal pair is unrivalled at both ends |
| `TrackerAssociation.LegalIsServed` | src/ndt_slam/src/cargo_obstacle_tracker.cpp:611-659 | the observation or the track of every legal pair is matched at no higher cost |
| `TrackerAssociation.LegalExactly` | src/ndt_slam/src/cargo_obstacle_tracker.cpp:547-600 | a pair is legal if and only if the track was seen within the gap, the top moved within the step, and the observation lies within the limit of where the track is expected, shares enough cells by either measure, or neighbours it at twice the limit |
| `TrackerAssociation.LegalCost` | src/ndt_slam/src/cargo_obstacle_tracker.cpp:600-609 | the cost is the distance in units of the limit plus what the best overlap leaves of one, and one without cells |
| `TrackerAssociation.CellShares` | src/ndt_slam/src/cargo_obstacle_tracker.cpp:37-71 | the overlap is the common share of the smaller set of cells, the second measure the common share of all of them |
| `TrackerEvidence.LengthIsLongest` | src/ndt_slam/src/cargo_obstacle_tracker.cpp:891-1014 | the run-told streak length of each kind is that of the longest end of the log whose entries count and follow each other in consecutive cycles, within the gap and under one authority: exactly the ends up to it are unbroken |
| `TrackerEvidence.AdvanceShows` | src/ndt_slam/src/cargo_obstacle_tracker.cpp:805-1036 | if a track shows its log it shows the log with one more accepted observation: every streak, the far history, the marks of separation and certificate, the static origin, travel and rest, velocity and sparse support are those of the log, by equality |
| `TrackerEvidence.CreatedShows` | src/ndt_slam/src/cargo_obstacle_tracker.cpp:709-803 | a new track shows the log of its one observation |
| `TrackerRuns.FrozenTrack` | src/ndt_slam/src/cargo_obstacle_tracker.cpp:805-849 | on every run a track whose match is not reciprocal-unique keeps its predictor, stamps, streaks, provenance and far history, and is selected neither for a warning nor for review |
| `TrackerRuns.UnadvancedKeeps` | src/ndt_slam/src/cargo_obstacle_tracker.cpp:683-707 | a track no observation advances keeps its evidence through the cycle |
| `TrackerRuns.RunJustified` | src/ndt_slam/src/cargo_obstacle_tracker.cpp:257-304 | on every run each live track's validated, geometry, separated, far, sparse and static streaks, its far history, certificate, origin and separation are exactly those its log of creating and reciprocal-unique observations shows under its present authority (equalities and if-and-only-ifs) |
| `TrackerRuns.ConfirmedHazardIsJustified` | src/ndt_slam/src/cargo_obstacle_tracker.cpp:1062-1076 | with far history required, a confirmed hazard had certified static provenance under its authority, or enough consecutive-cycle qualifying observations under it spanning the configured duration; and its latest confirming observations are source-validated, in consecutive cycles, under that authority |
| `TrackerConfirms.ConfirmedExactly` | src/ndt_slam/src/cargo_obstacle_tracker.cpp:1039-1076 | on every run a frame confirms a hazard if and only if one of its observations takes a track that nobody contends for and whose log then shows a warning: a validated coded hazard, dense or mature, separated or of trusted origin, with confirmFrames validated entries at its end, and far history, large geometry and rest where required |
| `TrackerConfirms.ReviewedExactly` | src/ndt_slam/src/cargo_obstacle_tracker.cpp:1077-1100 | on every run a frame asks for a review if and only if it confirms no hazard and some observation, taking a track or opening one, shows a near, low, supported hazard whose required far history is missing |
| `TrackerConfirms.ConfirmedFits` | src/ndt_slam/src/cargo_obstacle_tracker.cpp:1039-1076 | the code of every confirmed hazard fits its distance, and no observed track that passes the formal gate is more dangerous |
| `TrackerConfirms.DecidesExactly` | src/ndt_slam/src/cargo_obstacle_tracker.cpp:1039-1100 | the decision confirms if and only if some track warns, and asks for a review if and only if none does and some track shows one |
| `TrackerConfirms.CanonicalExactly` | src/ndt_slam/src/cargo_obstacle_tracker.cpp:139-183 | a cycle works on exactly the admissible observations of its frame, each with its cells put in order |
| `TrackerConfirms.CanonicalCellsAscend` | src/ndt_slam/src/cargo_obstacle_tracker.cpp:528-545 | canonical cells are the same cells, ascending and without repeats |
| `TrackerEligibility.AdvancedTrackEnds` | src/ndt_slam/src/cargo_obstacle_tracker.cpp:683-1036 | on every run an advanced track is at the end of the cycle exactly what its observation made of it, unless a later observation of the cycle has a legal pair with it and stays unmatched; it then keeps that evidence and authorises nothing; it is eligible for a warning, or can be selected for a warning or for review, if and only if its advance allows it and no such observation follows |
| `BottomAccumulation.LimitPoints` | src/ndt_slam/src/cargo_bottom_fusion.cpp:158-182 | the kept points are those at the scaled indices |
| `BottomAccumulation.SampledSpread` | src/ndt_slam/src/cargo_bottom_fusion.cpp:158-182 | for a limit of at least two: exactly limit points, at strictly increasing source positions, first and last included |
| `BottomAccumulation.Accumulator.EnforceLimit` | src/ndt_slam/src/cargo_bottom_fusion.cpp:605-623 | oldest frames go, then the only frame is downsampled, and the count is recomputed; no subtraction underflows |
| `BottomAccumulation.Accumulator.Purge` | src/ndt_slam/src/cargo_bottom_fusion.cpp:595-603 | exact count, bounded, rising stamps, and every frame left lies inside the window |
| `BottomAccumulation.Accumulator.Append` | src/ndt_slam/src/cargo_bottom_fusion.cpp:625-661 | non-finite points are dropped, the frame is downsampled, room is made, and the invariant is kept |
| `BottomAccumulation.PurgedBounded` | src/ndt_slam/src/cargo_bottom_fusion.cpp:595-623 | a purge keeps the count exact and within the limit, the stamps strictly rising, and all frames inside the window |
| `BottomAccumulation.AppendedBounded` | src/ndt_slam/src/cargo_bottom_fusion.cpp:625-661 | an append keeps the same invariant |
| `BottomAccumulation.DropBeforeExact` | src/ndt_slam/src/cargo_bottom_fusion.cpp:595-602 | the purge loop drops exactly the frames older than the cutoff |
| `BottomFusion.MeasuredIsBest` | src/ndt_slam/src/cargo_bottom_fusion.cpp:882-955 | the selected source has the highest priority of those that offer a span, and carries that span |
| `BottomFusion.Fusion.Update` | src/ndt_slam/src/cargo_bottom_fusion.cpp:686-802 | one update equals the step function: refusal, rejection, reset, repetition or processing |
| `BottomFusion.Fusion.Enter` | src/ndt_slam/src/cargo_bottom_fusion.cpp:746-802 | track change, authority change and accumulation |
| `BottomFusion.Fusion.SmoothSelection` | src/ndt_slam/src/cargo_bottom_fusion.cpp:1028-1071 | the per-source average, cleared by the absolute source |
| `BottomFusion.Fusion.ApplyGate` | src/ndt_slam/src/cargo_bottom_fusion.cpp:1073-1213 | direct, blended, accepted downward, held and confirmed outputs with the pending streak |
| `BottomFusion.Fusion.PublishOutput` | src/ndt_slam/src/cargo_bottom_fusion.cpp:1215-1267 | the stored final level, the stable estimate and the result |
| `BottomFusion.Fusion.ProcessObservation` | src/ndt_slam/src/cargo_bottom_fusion.cpp:804-1267 | accumulation, selection, smoothing, gate and publication in order |
| `BottomRuns.RunStore` | src/ndt_slam/src/cargo_bottom_fusion.cpp:595-661 | on every run the point count equals the sum of frame sizes and is within the limit, stamps strictly rise, and all frames lie between the last stamp minus the window and the last stamp |
| `BottomRuns.RunUpright` | src/ndt_slam/src/cargo_bottom_fusion.cpp:882-1224 | on every run every output keeps top above bottom, through averaging, blending, holding and confirmation |
| `BottomRuns.SmoothBetween` | src/ndt_slam/src/cargo_bottom_fusion.cpp:1036-1071 | an averaged bottom lies between the measurement and the average it continues; absolute and held values are not averaged |
| `BottomGate.RaiseIsConfirmed` | src/ndt_slam/src/cargo_bottom_fusion.cpp:1098-1213 | one gate step raises a comparable output by more than the soft limit only by confirming a pending jump |
| `BottomGate.RunEarned` | src/ndt_slam/src/cargo_bottom_fusion.cpp:1073-1213 | on every run the pending count is the length of an unbroken streak: updates of the present track asking for that jump with the pending source, the first for the pending span, and between and behind them only ignored, repeated or idle updates; it is below the configured number |
| `BottomHold.LargeRiseIsEarned` | src/ndt_slam/src/cargo_bottom_fusion.cpp:1073-1213 | on every run a rise beyond the soft limit ends an unbroken streak of exactly the configured number of such updates; the updates between them come within the hold time of the ask before, unless a changed authority rolled the clock back before an ask of a static source; a static source publishes the first height asked for, the absolute source its present measurement |
| `BottomHold.RunPositive` | src/ndt_slam/src/cargo_bottom_fusion.cpp:1126-1175 | on every run the hold time counts from the last absolute ask since the track was entered, or from zero |
| `BottomHold.StreakIsHeld` | src/ndt_slam/src/cargo_bottom_fusion.cpp:1092-1175 | in every streak, of whatever source, the updates between and behind the asks come within the hold time of the ask before them, unless a changed authority rolled the clock back before it |
| `BottomHold.HoldsExactly` | src/ndt_slam/src/cargo_bottom_fusion.cpp:1092-1113 | the gate bounds the pause behind the last ask of a pending jump if and only if that ask does not lie before the last absolute ask on the clock |
| `BottomHold.RunHeld` | src/ndt_slam/src/cargo_bottom_fusion.cpp:1073-1213 | on every run a pending jump stands for an unbroken streak whose pauses are held |
| `BottomHold.UnseenEnds` | src/ndt_slam/src/cargo_bottom_fusion.cpp:1006-1113 | on every run an update without vertical evidence ends a pending jump, whatever its source, if and only if it comes more than the hold time after the last absolute ask, or after zero |
| `BottomGate.DownwardIsImmediate` | src/ndt_slam/src/cargo_bottom_fusion.cpp:1126-1134 | a large downward absolute measurement is published at once, exactly as measured |
| `BottomLate.LateForgets` | src/ndt_slam/src/cargo_bottom_fusion.cpp:751-795 | a late update of a published track resets and reports nothing if and only if neither track nor authority changed; the memory of the track reaches the gate if and only if the authority changed on the same track |
| `BottomLate.RepeatedAnswer` | src/ndt_slam/src/cargo_bottom_fusion.cpp:756-801 | on the same track under the same authority an answered stamp is answered from memory, with nothing changed |
| `BottomLate.AnswerIsFixed` | src/ndt_slam/src/cargo_bottom_fusion.cpp:756-801 | every update at an answered stamp gets the remembered answer, whatever it measures, if and only if track and authority are the remembered ones; an invalid authority never is |
| `BottomAnswers.ProcessedExactly` | src/ndt_slam/src/cargo_bottom_fusion.cpp:686-801 | an update is processed if and only if it is sound and its track or authority is new, or its stamp lies within the stale gap, the centre it needs is there and the stamp is not answered yet |
| `BottomAnswers.MeasuredBySource` | src/ndt_slam/src/cargo_bottom_fusion.cpp:803-960 | the measurement of an update, source by source, in terms of its top, heights and spans |
| `BottomAnswers.MissingIsRemembered` | src/ndt_slam/src/cargo_bottom_fusion.cpp:962-1005 | on every run an update without a measurement has a candidate if and only if the last trusted output is of its track and at most stableHold old; it is that output, moved with the centre where it hangs on it and the centre is there |
| `BottomAnswers.MeasurementIsAveraged` | src/ndt_slam/src/cargo_bottom_fusion.cpp:1036-1075 | on every run a measurement that continues an average moves it, carried along with the centre, emaAlpha of the way to the measurement; every other one is taken as measured |
| `BottomAnswers.MixMoved` | src/ndt_slam/src/cargo_bottom_fusion.cpp:1050-1065 | the mixed span lies alpha of the way from the remembered to the measured one |
| `BottomAnswers.PreviousIsLastOutput` | src/ndt_slam/src/cargo_bottom_fusion.cpp:1078-1096 | on every run the span an update is compared with is the last output of the track, moved with the centre |
| `BottomAnswers.RunPends` | src/ndt_slam/src/cargo_bottom_fusion.cpp:1126-1215 | on every run the pending jump is the one the run-told asks make: its count, its first span and its source |
| `BottomAnswers.LargeIsAnswered` | src/ndt_slam/src/cargo_bottom_fusion.cpp:1126-1215 | on every run a large jump that is not a drop is held at the previous output while it and the asks it joins are fewer than confirmFrames, and published when they are that many |
| `BottomAnswers.SmallIsAnswered` | src/ndt_slam/src/cargo_bottom_fusion.cpp:1083-1135 | on every run any other candidate is published at once: as it is, or softAlpha of the way from the previous output to it |
| `BottomAnswers.ValidExactly` | src/ndt_slam/src/cargo_bottom_fusion.cpp:1216-1270 | an update without a candidate publishes nothing, and an output is valid if and only if it has height and a box |
| `BottomExamples.RepeatUnderNewAuthority` | src/ndt_slam/src/cargo_bottom_fusion.cpp:756-801 | a repeated stamp with a lower cargo: answered from memory under the same authority, published as measured under another |
| `BottomExamples.RepeatUnderInvalidAuthority` | src/ndt_slam/src/cargo_bottom_fusion.cpp:756-801 | a repeated update under an invalid authority is processed again, and here gets the same answer |
| `BottomExamples.BlindUpdateEndsStaticJump` | src/ndt_slam/src/cargo_bottom_fusion.cpp:1097-1113 | a run in which an update without vertical evidence, well within the hold time of the static ask before it, ends the pending jump |
| `BottomExamples.RollbackStretchesHold` | src/ndt_slam/src/cargo_bottom_fusion.cpp:1092-1175 | a run in which a changed authority rolls the clock back behind an absolute ask, and a static jump survives a pause longer than the hold time |
| `BottomExamples.RollbackUnderNewAuthority` | src/ndt_slam/src/cargo_bottom_fusion.cpp:756-775 | two updates five seconds back: the one of the same authority resets, the one of another is published against the old output |
| `GeometryThickness.BestBySource` | src/ndt_slam/src/cargo_geometry_fusion.cpp:360-402 | the loop finds the best observation of each source |
| `GeometryThickness.BestIsHeaviest` | src/ndt_slam/src/cargo_geometry_fusion.cpp:738-757 | the best observation is usable and heaviest, absent exactly when none is eligible |
| `GeometryThickness.PairMedianIsHeavier` | src/ndt_slam/src/cargo_geometry_fusion.cpp:42-55 | the weighted median of two measurements is the height of the heavier, the lower one on a tie |
| `GeometryThickness.FusePairIsSound` | src/ndt_slam/src/cargo_geometry_fusion.cpp:57-92 | with enough robust weight the fused height lies between the two measurements, and its bounds enclose it inside the physical range |
| `GeometryThickness.MedianIsMember` | src/ndt_slam/src/cargo_geometry_fusion.cpp:103-109 | the windowed median is one of the values |
| `GeometryMedians.MedianSplits` | src/ndt_slam/src/cargo_geometry_fusion.cpp:103-109 | at most half of the values lie below the median and fewer than half above it |
| `GeometryMedians.SpreadAtMost` | src/ndt_slam/src/cargo_geometry_fusion.cpp:111-118 | the spread is at most d if and only if more than half of the values lie within d of the centre |
| `GeometryMedians.SteadyExactly` | src/ndt_slam/src/cargo_geometry_fusion.cpp:103-118 | sizes are steady if and only if in each dimension more than half of them lie within the tolerance of their median |
| `GeometryMedians.FusedBalances` | src/ndt_slam/src/cargo_geometry_fusion.cpp:58-75 | the fused height hangs between the two measurements in the balance of their shares: confidence over variance, less what lies far off the heavier one |
| `GeometryFusion.Fusion.Update` | src/ndt_slam/src/cargo_geometry_fusion.cpp:305-348 | one update equals the step function: invalid configuration, rollback, gap, lifecycle change, frozen or pending |
| `GeometryFusion.Fusion.Promote` | src/ndt_slam/src/cargo_geometry_fusion.cpp:350-460 | the promotion count and the grant of formal authority |
| `GeometryFusion.Fusion.ResetSegments` | src/ndt_slam/src/cargo_geometry_fusion.cpp:461-480 | a new segment or a gap drops the shrink window and the expansion streak |
| `GeometryFusion.Fusion.UpdatePose` | src/ndt_slam/src/cargo_geometry_fusion.cpp:481-511 | centre, bottom and conservative bottom |
| `GeometryFusion.Fusion.ExpandBy` | src/ndt_slam/src/cargo_geometry_fusion.cpp:539-569 | the pending size shrinks to what every frame of the streak supports and is adopted on confirmation |
| `GeometryFusion.Fusion.ShrinkBy` | src/ndt_slam/src/cargo_geometry_fusion.cpp:580-636 | the shrink window and its one bounded step |
| `GeometryFusion.Fusion.UpdateDimensions` | src/ndt_slam/src/cargo_geometry_fusion.cpp:512-664 | which branch a frame takes: weak, immediate expansion, expansion, weak expansion, shrink, neither |
| `GeometryFusion.Fusion.PushWindows` | src/ndt_slam/src/cargo_geometry_fusion.cpp:675-709 | the bounded shape and thickness windows |
| `GeometryFusion.Fusion.TallyCandidates` | src/ndt_slam/src/cargo_geometry_fusion.cpp:906-942 | how many candidates agree with the windowed median, and the estimate moved to it |
| `GeometryFusion.Fusion.FreezeIfConfirmed` | src/ndt_slam/src/cargo_geometry_fusion.cpp:943-1012 | the freeze with its dimensions, bottom and conservative bottom |
| `GeometryFusion.Fusion.UpdatePending` | src/ndt_slam/src/cargo_geometry_fusion.cpp:675-1023 | the whole update before the freeze |
| `GeometryFusion.Fusion.UpdateFrozen` | src/ndt_slam/src/cargo_geometry_fusion.cpp:349-673 | the whole update after the freeze |
| `GeometryRuns.StaysFrozen` | src/ndt_slam/src/cargo_geometry_fusion.cpp:305-460 | with an advancing stamp of the same lifecycle a frozen geometry stays frozen and a formal one formal |
| `GeometryRuns.StaysFrozenAlong` | src/ndt_slam/src/cargo_geometry_fusion.cpp:305-460 | the same along any undisturbed sequence of frames |
| `GeometryRuns.WeakFrameKeepsSize` | src/ndt_slam/src/cargo_geometry_fusion.cpp:640-664 | a frame without full dimension evidence changes neither length nor width |
| `GeometryRuns.RunModerate` | src/ndt_slam/src/cargo_geometry_fusion.cpp:580-636 | on every run one frame of the frozen lifecycle shrinks a dimension by at most the configured step, never below the floor, and only with enough steady frames in the window |
| `GeometryWindows.RunShrinkHeld` | src/ndt_slam/src/cargo_geometry_fusion.cpp:461-480 | on every run the shrink window holds the entries of the last frames of an unbroken chain of the frozen lifecycle and one segment |
| `GeometryWindows.ShrinkIsBacked` | src/ndt_slam/src/cargo_geometry_fusion.cpp:580-636 | on every run a frame that reduces a dimension ends such a chain; enough of its frames carry full evidence, their sizes are steady, and the new size is exactly their median kept within one step and above the floor |
| `GeometryWindows.RunPendingHeld` | src/ndt_slam/src/cargo_geometry_fusion.cpp:320-345 | on every run before the freeze the shape and thickness windows hold the entries of the last frames of unbroken chains of one segment: unplaced while no lifecycle is known, of the known one from the first placed frame on, and for thickness the placed ones of one evidence mode |
| `GeometryWindows.FreezesExactly` | src/ndt_slam/src/cargo_geometry_fusion.cpp:675-1023 | a frame freezes the geometry if and only if it offers a height near the windowed median, enough heights are near it, and enough shapes are steady |
| `GeometryWindows.FreezeIsBacked` | src/ndt_slam/src/cargo_geometry_fusion.cpp:855-1012 | on every run the freezing frame ends two such chains without a gap, all of its lifecycle from their first placed frame on, and the frozen size and height are exactly the medians of their shapes and heights, raised to the lower bounds |
| `GeometryWindows.FreezeOwnsShapes` | src/ndt_slam/src/cargo_geometry_fusion.cpp:334-348 | on every run the shapes behind a freeze are all of its lifecycle if and only if those before the first placed frame of their chain are; the heights behind it always are |
| `GeometryRuns.RunOk` | src/ndt_slam/src/cargo_geometry_fusion.cpp:481-511 | on every run a frozen geometry's conservative bottom lies at least the margin below its bottom, its dimensions are at least the physical minimum, and its authorization is FORMAL exactly when formal |
| `GeometryPose.BottomIsMeasured` | src/ndt_slam/src/cargo_geometry_fusion.cpp:481-511 | on every run, after a frame the frozen geometry takes and at the freezing frame: bottom plus height is the measured top; without a top the centre lies half a height above the bottom; without either the bottom is the one before; the conservative bottom lies below the top by the height with its uncertainty (formal) or the upper thickness (positive-only), both allowances and the margin |
| `GeometryPose.PositiveIsThickest` | src/ndt_slam/src/cargo_geometry_fusion.cpp:863-889 | a positive-only height is at least either measurement and equal to one, and its upper end covers each with its uncertainty unless the physical maximum is less |
| `GeometryPose.FormalPairAgrees` | src/ndt_slam/src/cargo_geometry_fusion.cpp:404-428 | a formal pair is two full measurements within the disagreement of each other: both static ones, or the one that counts with the live one; absent exactly when neither agrees |
| `GeometryProgress.EnoughPromote` | src/ndt_slam/src/cargo_geometry_fusion.cpp:352-455 | whatever came before, confirmFrames promoting frames of the frozen cargo and one segment, none late and with any silent frames between, make it formal |
| `GeometryProgress.EnoughExpand` | src/ndt_slam/src/cargo_geometry_fusion.cpp:466-572 | with no expansion pending, fewer than expandConfirmFrames frames that exceed the frozen size leave it as it is, and the last of that many makes it cover whatever each of them covered |
| `GeometryProgress.ImmediatelyExpands` | src/ndt_slam/src/cargo_geometry_fusion.cpp:523-538 | in the immediate mode one well-evidenced larger frame is adopted at once, each dimension where it is larger |
| `GeometryProgress.EnoughShrink` | src/ndt_slam/src/cargo_geometry_fusion.cpp:580-640 | with an empty shrink window the size stays until shrinkConfirmFrames well-evidenced frames fitted it; then, if they are steady, each dimension becomes the largest of the bounded step, their median and the lower bounds |
| `GeometryProgress.EnoughFreeze` | src/ndt_slam/src/cargo_geometry_fusion.cpp:680-1000 | from a blank state, of up to windowFrames placed frames of one cargo, segment and mode, a frame freezes the geometry if and only if enough shapes are steady and enough heights agree, its own among them, and at their medians |
| `GeometryRuns.FreezeIsConfirmed` | src/ndt_slam/src/cargo_geometry_fusion.cpp:855-1012 | a freeze needs a placed frame and is formal exactly with a locked agreeing pair, with uncertainty within the limit |
| `GeometryExpansion.ExpansionIsBacked` | src/ndt_slam/src/cargo_geometry_fusion.cpp:539-569 | on every run without immediate expansion, a frame that enlarges a dimension without lifting it completes an unbroken chain of exactly the configured number of well-evidenced frames, each measuring the enlarged dimensions at least as large as adopted |
| `GeometryExpansion.RunEarned` | src/ndt_slam/src/cargo_geometry_fusion.cpp:461-569 | on every run the expansion count is the length of an unbroken chain of frames of the frozen lifecycle and one segment that back the pending size, shorter than the configured number: only frames without a lifecycle between and behind them, each but the first within the gap of the frame before it |
| `GeometryExpansion.GrowthCases` | src/ndt_slam/src/cargo_geometry_fusion.cpp:512-664 | outside the immediate mode a dimension step grows a dimension without confirming an expansion if and only if it lifts it; a confirming step adopts what the chain supports |
| `GeometryExpansion.LiftsExactly` | src/ndt_slam/src/cargo_geometry_fusion.cpp:512-664 | on every run a frame grows a dimension without confirming an expansion if and only if it spends a confirmed steady window although its floor exceeds a frozen dimension |
| `GeometryExpansion.CoveredFloorLiftsNothing` | src/ndt_slam/src/cargo_geometry_fusion.cpp:580-636 | a frame whose lower bounds fit the frozen dimensions lifts nothing |
| `GeometryExpansion.GapEndsExpansion` | src/ndt_slam/src/cargo_geometry_fusion.cpp:350-356 | after a gap a frame leaves a pending expansion of two or more alone if and only if it has no lifecycle |
| `GeometryExamples.ShrinkStepLifts` | src/ndt_slam/src/cargo_geometry_fusion.cpp:580-636 | a two-frame run in which a shrink step raises the frozen length from two to three metres |
| `GeometryExamples.ForeignShapeCounts` | src/ndt_slam/src/cargo_geometry_fusion.cpp:334-348 | a two-frame run that freezes the length measured only by an unplaced frame of another lifecycle |
| `GeometryPromotion.PromotionIsEarned` | src/ndt_slam/src/cargo_geometry_fusion.cpp:350-460 | on every run formal authority after the freeze completes an unbroken chain of exactly the configured number of promoting frames of the lifecycle and one segment, with only frames without a lifecycle between them and no gap before any but the first |
| `GeometryPromotion.RunEarned` | src/ndt_slam/src/cargo_geometry_fusion.cpp:350-460 | on every run the promotion count of a geometry that is not formal is the length of such a chain, shorter than the configured number |
| `GeometryPromotion.GapEndsChain` | src/ndt_slam/src/cargo_geometry_fusion.cpp:350-360 | after a gap a frame leaves a promotion count of two or more alone if and only if it has no lifecycle |
| `GeometryGaps.GapBridged` | src/ndt_slam/src/cargo_geometry_fusion.cpp:334-360 | three frames confirm: the third one a hundred seconds late starts promotion and expansion again, and completes both when a frame without a lifecycle comes right before it |
| `PointCloudMerger.UpperBound` | src/ndt_slam/src/PointCloudMerger.cpp:235-241 | the first position with a strictly later stamp |
| `PointCloudMerger.InsertAtSplit` | src/ndt_slam/src/PointCloudMerger.cpp:235-242 | inserting at that position equals inserting behind every frame that is not later |
| `PointCloudMerger.ClosestPair` | src/ndt_slam/src/PointCloudMerger.cpp:264-281 | the nested search ends with a pair of least gap, the first such in scan order |
| `PointCloudMerger.SelectMeaning` | src/ndt_slam/src/PointCloudMerger.cpp:259-333 | a pair is published if and only if some queued pair is within the gap, and no queued pair is closer; a timeout single is the older front frame, stale, with no queued pair within the gap |
| `PointCloudMerger.SelectExactly` | src/ndt_slam/src/PointCloudMerger.cpp:259-333 | with two lidars a step publishes nothing, and changes nothing, if and only if no queued pair is within the gap and no front frame that arrived first has timed out; a pair takes along exactly the frames before it, a single frame only itself |
| `PointCloudMerger.SingleIsPublished` | src/ndt_slam/src/PointCloudMerger.cpp:245-258 | with one lidar every step publishes the front frame, if there is one |
| `PointCloudMerger.Merger.Enqueue` | src/ndt_slam/src/PointCloudMerger.cpp:221-243 | overflow and sorted insertion; queues stay sorted and bounded |
| `PointCloudMerger.Merger.TryPair` | src/ndt_slam/src/PointCloudMerger.cpp:259-301 | consuming the closest pair and superseding the frames before it |
| `PointCloudMerger.Merger.SelectPublishWork` | src/ndt_slam/src/PointCloudMerger.cpp:245-333 | the selection of one timer step, in one- and two-lidar configurations |
| `MergerRuns.RunBalanced` | src/ndt_slam/src/PointCloudMerger.cpp:185-333 | on every interleaving the queued, published, overflowed and superseded frames together are exactly the enqueued ones, numbered in order |
| `MergerRuns.ExactlyOneFate` | src/ndt_slam/src/PointCloudMerger.cpp:185-333 | each enqueued frame is exactly one of queued, published once, overflowed and superseded |
| `MergerRuns.NothingInvented` | src/ndt_slam/src/PointCloudMerger.cpp:185-333 | nothing else is ever queued, published or dropped |
| `MergerRuns.RunCounted` | src/ndt_slam/src/PointCloudMerger.cpp:225-333 | the overflow, superseded and fallback counters are the sizes of those fates |
| `MergerRuns.PublishedInOrder` | src/ndt_slam/src/PointCloudMerger.cpp:296-301 | lidars that deliver in stamp order are published in stamp order |
| `ComponentLineage.Lineage.Update` | src/ndt_slam/src/cargo_identity_component_lineage.cpp:132-378 | one update equals the step function and keeps the retained frames coherent |
| `ComponentLineage.BuildPairs` | src/ndt_slam/src/cargo_identity_component_lineage.cpp:226-250 | all component pairs of two frames in row order |
| `ComponentLineage.ScanSide` | src/ndt_slam/src/cargo_identity_component_lineage.cpp:267-309 | the best pair of a component, and whether rivals lie within the margin |
| `ComponentLineage.MatchFrame` | src/ndt_slam/src/cargo_identity_component_lineage.cpp:215-370 | the emission loop over one retained frame with its block list |
| `ComponentLineage.RunCoherent` | src/ndt_slam/src/cargo_identity_component_lineage.cpp:150-183 | on every run at most three frames are retained, of one lifecycle, epoch and pose authority, with strictly rising stamps and indices |
| `ComponentLineage.FrameMatches` | src/ndt_slam/src/cargo_identity_component_lineage.cpp:253-340 | matches of one frame are one-to-one, eligible, and cheaper than every rival at either end by more than the margin |
| `ComponentLineage.UndisputedIsMatched` | src/ndt_slam/src/cargo_identity_component_lineage.cpp:311-340 | an undisputed pair is matched if and only if its component is not blocked by newer frames, no component of its id is ambiguous, and no contested pair of its id stands before it |
| `LineageExample.RowOrderDecides` | src/ndt_slam/src/cargo_identity_component_lineage.cpp:205-371 | two runs of two frames that differ in the order of the retained components: the pair of the component at rest is undisputed in both, reported when it stands before a contested pair of its component, and lost when it stands behind it |
| `ComponentLineage.RunReports` | src/ndt_slam/src/cargo_identity_component_lineage.cpp:205-371 | on every run matches per retained frame are one-to-one and undisputed, and a component contested at a newer frame gets no match from an older one |
| `LineageMeasured.GatesExactly` | src/ndt_slam/src/cargo_identity_component_lineage.cpp:226-266 | a component pair is eligible if and only if the component moved within the step, both extents changed by at most the share, and it was carried: not at rest over ground while the crane moved, under a validly loaded hook while it stood |
| `LineageMeasured.RunMeasures` | src/ndt_slam/src/cargo_identity_component_lineage.cpp:205-371 | on every run a reported match joins two carried components within the gap, and every other carried component at either end is farther by more than the margin, in metres |
| `LineageMeasured.OnlyIsReported` | src/ndt_slam/src/cargo_identity_component_lineage.cpp:205-371 | on every run a component of its own id is reported against the only component of the newest retained frame it can have been, if no other carried component comes near that one |
| `ReviewEpisodes.Tracker.Update` | src/ndt_slam/src/anomaly_review_episode_tracker.cpp:62-203 | one update equals the step function |
| `ReviewEpisodes.Tracker.Review` | src/ndt_slam/src/anomaly_review_episode_tracker.cpp:139-203 | suppression, activity, timeout and confirmation of a fresh review request |
| `ReviewEpisodes.Tracker.Reset` | src/ndt_slam/src/anomaly_review_episode_tracker.cpp:49-60 | the initial state |
| `ReviewRuns.RunOk` | src/ndt_slam/src/anomaly_review_episode_tracker.cpp:62-203 | on every run pending and active never coexist, neither shares its key with the cooldown, and 29 was last said only while active |
| `ReviewRuns.EnterIsConfirmed` | src/ndt_slam/src/anomaly_review_episode_tracker.cpp:179-203 | on every run an ENTER completes exactly the configured number of fresh review requests of its key with only suppressed or repeated requests between |
| `ReviewRuns.RunEarned` | src/ndt_slam/src/anomaly_review_episode_tracker.cpp:139-203 | on every run the confirmations are an unbroken streak of that length, and an active mark is an episode that some ENTER began |
| `ReviewRuns.ActiveIsBounded` | src/ndt_slam/src/anomaly_review_episode_tracker.cpp:150-162 | on every run an ACTIVE output belongs to an episode that one ENTER began by completing exactly the configured number of requests and that has been active ever since, and it lies within the maximum of the first of those requests |
| `ReviewRuns.NoReentryBeforeCooldown` | src/ndt_slam/src/anomaly_review_episode_tracker.cpp:139-178 | after any TIMEOUT the key gets no 29 on a fresh stamp before the cooldown ends, unless a 17/18, a reset or another key's TIMEOUT intervenes |
| `ReviewRuns.RepeatedStampIgnoresKey` | src/ndt_slam/src/anomaly_review_episode_tracker.cpp:83-111 | a repeated stamp answers 29 to a key that is not active |
| `ReviewRuns.ReviewAnswersKey` | src/ndt_slam/src/anomaly_review_episode_tracker.cpp:83-111 | on every run an answer of 29 concerns the requesting key if and only if the stamp is fresh or the key was active |
| `ReviewAnswers.OtherCodesPass` | src/ndt_slam/src/anomaly_review_episode_tracker.cpp:62-138 | on every run a code other than 29 with a usable stamp that does not roll back is answered with itself, inactive, and leaves neither pending nor active; a 17 or 18 leaves no cooldown either |
| `ReviewAnswers.BadStampsForget` | src/ndt_slam/src/anomaly_review_episode_tracker.cpp:62-82 | a bad or rolled-back stamp is answered 34 and forgets everything |
| `ReviewAnswers.RepeatsGetLastAnswer` | src/ndt_slam/src/anomaly_review_episode_tracker.cpp:83-111 | on every run a request on the last stamp gets the last answer again |
| `ReviewAnswers.RequestIsAnswered` | src/ndt_slam/src/anomaly_review_episode_tracker.cpp:139-203 | on every run a fresh request is answered by the unbroken requests of its key behind it: 34 while the cooldown silences it; otherwise 34 until it is the enterConfirmFrames-th, ENTER with 29 when it is, ACTIVE with 29 within maximumActive of the first of them, and TIMEOUT with 34 beyond (if and only if, event by event) |
| `AlarmHeartbeat.AlarmStateMachine.IngestStatus` | src/ndt_slam/src/cargo_alarm_heartbeat_node.cpp:95-144 | one ingest equals the step function |
| `AlarmHeartbeat.AlarmStateMachine.TickClock` | src/ndt_slam/src/cargo_alarm_heartbeat_node.cpp:146-162 | one tick equals the step function |
| `AlarmHeartbeat.AlarmStateMachine.ObserveWallClock` | src/ndt_slam/src/cargo_alarm_heartbeat_node.cpp:177-187 | accepts a wall time exactly when it is valid and not rolled back, and remembers rollbacks |
| `AlarmHeartbeat.RunCurrent` | src/ndt_slam/src/cargo_alarm_heartbeat_node.cpp:95-195 | on every run a code outside 30 and 35 is explained by the latest advancing ingest |
| `AlarmHeartbeat.CodeIsCurrent` | src/ndt_slam/src/cargo_alarm_heartbeat_node.cpp:95-195 | on every run such a code was requested by the latest ingest whose source stamp advanced, and the last call's wall time is under the timeout after it |
| `AlarmHeartbeat.NoRevival` | src/ndt_slam/src/cargo_alarm_heartbeat_node.cpp:118-143 | without a new source stamp no calls bring a code back once the machine has failed safe |
| `AlarmHeartbeat.LapsesFailSafe` | src/ndt_slam/src/cargo_alarm_heartbeat_node.cpp:95-187 | an invalid or rolled-back clock, a rolled-back source stamp or a timeout fails safe at once, and no calls bring a code back before a new source stamp |
| `AlarmHeartbeat.ChangesTellAll` | src/ndt_slam/src/cargo_alarm_heartbeat_node.cpp:95-175 | on every run a listener that takes over each code reported as changed has the current one |
| `AlarmHistory.CodeIsLastWord` | src/ndt_slam/src/cargo_alarm_heartbeat_node.cpp:95-195 | on every run the published code is x if and only if x is the last word of the run, read from the calls alone: the code of the latest call that decides one, 30 for a lapse and 35 for a malformed call included, with nothing but calls that keep it behind, or the initial 30 if every call keeps it |
| `AlarmHistory.CodeIsRequested` | src/ndt_slam/src/cargo_alarm_heartbeat_node.cpp:95-195 | on every run a code outside 30 and 35 is published if and only if it was requested by the latest ingest that advanced the source, and every later call keeps it (none lapses, carries an invalid stamp or an unknown code, or speaks itself), under a timeout that does not end at once |
| `AvoidanceFusion.SelectedIsWorst` | src/ndt_slam/src/cargo_avoidance_fusion.cpp:43-87 | the selected hazard is an allowed one, none allowed is more severe, none equally severe is nearer; absent exactly when none is selectable |
| `AvoidanceFusion.OfficialCodesAreBacked` | src/ndt_slam/src/cargo_avoidance_fusion.cpp:314-699 | every 17, 18 and 29 carries a valid hazard of the same code, distance and clearance, below 0.80 m and at a positive distance; exactly those and CLEAR are valid |
| `AvoidanceFusion.ClearMeansNoReport` | src/ndt_slam/src/cargo_avoidance_fusion.cpp:583-699 | code 14 implies that neither source is an available, reliable, warning-coded, low-clearance hazard |
| `AvoidanceFusion.ClearExactly` | src/ndt_slam/src/cargo_avoidance_fusion.cpp:314-699 | code 14 if and only if localization, formal cargo, clear authority, a reliable resolved live source with coverage, no reported hazard, no review and no warning candidate |
| `AvoidanceFusion.StandardRiskWarns` | src/ndt_slam/src/cargo_avoidance_fusion.cpp:583-602 | with formal cargo a standard risk with usable metrics is always a backed 17 or 18, never a review |
| `AvoidanceFusion.PendingWarningIsAuthorized` | src/ndt_slam/src/cargo_avoidance_fusion.cpp:472-581 | without formal cargo a warning comes from an authorised standard source with positive-only authority |
| `AvoidanceAnswers.WarnsExactly` | src/ndt_slam/src/cargo_avoidance_fusion.cpp:314-602 | code 17 or 18 if and only if localization holds and some source may warn (established, usable metrics, and without formal cargo an open envelope that vouches for it); the hazard is that of such a source, code, distance, clearance and identity, and outranks the other |
| `AvoidanceAnswers.ReviewsExactly` | src/ndt_slam/src/cargo_avoidance_fusion.cpp:472-640 | code 29 if and only if localization holds, nothing is established, no unconfirmed hazard of the map is all there is, and some source may be reviewed; it carries the nearer such hazard, the live one of equals |
| `AvoidanceAnswers.FailSafeExactly` | src/ndt_slam/src/cargo_avoidance_fusion.cpp:314-699 | 31 if and only if localization is missing, 33 if and only if the cargo is what is missing (exact condition with and without formal cargo), and no code but the seven is ever said, so 34 is every other case |
| `AvoidanceFusion.FuseCargoAvoidanceRisk` | src/ndt_slam/src/cargo_avoidance_fusion.cpp:314-699 | the routine, filling its result branch by branch, meets all of this |
| `Sorting.AnySortAgrees` | src/ndt_slam/src/cargo_obstacle_tracker.cpp:528-545 | under a strict total order any increasing arrangement is the insertion sort's |
| `Sorting.SortIgnoresOrder` | src/ndt_slam/src/cargo_obstacle_tracker.cpp:528-545 | the sorted list depends on the elements only |

## Left out

- Rounding: floating-point values are exact reals, so properties that hinge on a last bit are not covered.
- Counter widths: track ids, sequence numbers and counters are unbounded; wrap-around of 64-bit counters is not modelled.
- Perception: point transforms, voxel and PCA filtering, percentile analysis of point sets and neighbouring-cell overlap enter as inputs or function parameters.
- Diagnostics: reason strings, shadow and telemetry fields, pair counts, reset reasons and confidence or uncertainty values that no modelled decision reads.
- Recovery hold in the identity authority (cargo_physical_identity_authority.cpp:2956-3018): it may give a group a history that another group is matched to, so the one-to-one result stops before it.
- GroupAssociation.Propose: takes the observation contract of a lineage proposal (cargo_physical_identity_authority.cpp:2565-2609) as one input flag, because it rests on vertical evidence that is not part of this model.
- PreloadBoundary.Authority.ConsumeHandoff: takes the number of geometric candidates and of groups matching the handoff as inputs, because both rest on footprint geometry that is not part of this model.
- PreloadBoundary.Authority.MintCertificate: takes the completion of a preload reference as an input flag, because the baseline learning behind it is not part of this model.
- PreloadBoundary.Authority.Update: takes whether a current group contradicts the certificate as an input flag, because the comparison of centres and extents (cargo_physical_identity_authority.cpp:3503-3536) rests on footprint geometry that is not part of this model.
- PreloadBoundary.Authority.VoidContradicted: takes the same flag.
- BottomFusion.Fusion.ProcessObservation: takes the vertical span of the visible points as an input instead of computing it from the stored points, because the percentile analysis of point sets is not part of this model.
- GroupAssociation.AssociateFrame: takes the lineage observation contract and the verdict of the post-unique Z gate as inputs, because both rest on vertical evidence that is not part of this model.
- Lift classification, baseline learning, owner continuation and the union of points and footprints of a logical owner.
- The initial canonical sort of candidates and hypotheses in the identity authority; `PhysicalGroups.OrderIndependent` shows that the groups do not depend on it.
- ROS nodes, publishers, markers (with the held last geometry of `cargo_marker_lifecycle.cpp`), parameter loading and the node half of the heartbeat file: input, output and display.
- Decision tables `avoidance_decision.cpp`, `cargo_capability.cpp`, `cargo_frame_decision.cpp`, `cargo_residual_classifier.cpp` and `validateStatusContract`: each maps the values of one call to an outcome by a finite case distinction, without a loop or a state between calls.
- Geometry-heavy estimators (`cargo_box_estimator.cpp`, `cargo_oriented_footprint.cpp`, `cargo_motion_corridor.cpp`, `cargo_component_fusion.cpp`) and `base_payload_channel_filter.cpp`.
- `cargo_lift_origin_binder.cpp`: its confirmation counters repeat the pattern of the review and tracker machines.
- The merger's conversion of clouds, its empty-cloud drop and its receive counter, which run outside the synchronised queues.
