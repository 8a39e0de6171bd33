# A verified model of Populace

The engine simulates a population on a social graph: a story spreads by threshold contagion, opinions are averaged
along ties, ranked feeds amplify both, a browser mirrors the state through compact frames, a gateway admits calls to
a language model, and a small cast of people talks the story over.  This project models those parts in Dafny and
proves what the code and its comments promise of them, over every input, run and interleaving.
`dafny verify dfyconfig.toml` checks all of it.

## How the model is laid out

* **Graph** (`Proposals`, `Placement`, `Rows`, `SocialGraph`, `HubPool`, `SpatialOrder`, `Chunks`).  Pass 2 of the
  builder is a transition system whose steps are the individual atomic adds and slot writes of every worker; the
  in-place row sort and compaction are methods on the array.  The raw array depends on the scheduler, the finished
  graph does not.
* **Dynamics** (`Contagion`, `CascadeTheorems`, `Opinion`, `Averaging`, `FedOpinion`, `Media`, `Feeds`, `QuietLayer`,
  `Reactions`, `Seeding`).  Each object is a class on its buffers, proved against a function from state to state;
  theorems about rounds and runs are about that function.
* **Whole stories** (`Stories`, `Ticks`, `Events`, `Simulation`).  `Sim` owns the three objects; `Stories` says what each
  operation does to all of the state at once and proves what holds through whole histories of ticks, events, reactions,
  resets and switches; `Ticks` and `Events` say what one of them does to one person.
* **State frames** (`Wire`, `StateFrames`).  Both ends at byte level: the server's dirty list, last-sent copy and
  buffered writer, the page's parser, and the shader's unpacking.
* **Gateway** (`Admission`, `Cache`).  Admission is a labelled transition system over requests with program counters;
  the cache is a class over list and index that refines a recency order.
* **Conversation** (`Script`, `Conversation`).  The parser's renumbering, the canned script, and the release of turns
  with its stall clock and stable message identifiers.
* **Street** (`Reservoir`, `Street`).  The reservoir sampler, its fairness by counting, and the tie partition.
* `Common`, `Finite` and `Reals` hold shared vocabulary, counting facts and arithmetic.

Floating-point numbers are exact reals.  Random draws are arbitrary functions of what the code keys them by (or
arbitrary streams), powers and Poisson draws are arbitrary functions, so every theorem holds for every seed.

## Where the code and its comments differ

* `internal/sim/media.go:276-281` argues that a quiet layer is an exact shortcut because a score only becomes non-zero
  through Ignite and only decays after.  Scores up to 1e-4 count as quiet too, and the update raises a score, even a
  zero one, while members transmit (`QuietLayer.ScoreFallsExactlyWhen`, `QuietLayer.ZeroScoreStaysExactlyWhen`); the
  code reaches quiet layers that the update would wake (`QuietLayer.SwitchedOffAndOn`, `QuietLayer.QuietButTold`,
  `QuietLayer.QuietLayerWouldWake`).  Skipping delivers what the update would exactly under the condition of
  `QuietLayer.SkippingIsExactWhen`.  The model follows the code: a quiet layer is left untouched.
* `internal/gateway/gateway.go:74` promises two slots batch can never occupy; the default share does so exactly from
  three slots up (`Admission.DefaultShareLeavesTwo`), and the promise of line 295 that interactive always has room
  holds exactly when the share is smaller than the slots (`Admission.ReservationIsReal`).
* `internal/gateway/gateway.go:61` sheds beyond MaxWaiting requests queued.  The test and the count are two steps, so
  as many as pass the test together exceed it together, and no others (`Admission.LimitHoldsExactlyWhen`,
  `Admission.WaitingBound`, `Admission.WaitingBoundIsReached`).
* `internal/sim/sim.go:377-379` speaks of what the client last saw; the server knows only what it last sent.  That
  differs in two ways.  A new server counts its packed state as sent while a new page shows zeros, so the first frame
  repairs nothing (`StateFrames.FirstFrameRepairsNothing`).  And a frame acknowledges for every page, so a change that
  went to another page, or in a frame a page dropped, is not sent again (`StateFrames.AnotherPageTakesTheChange`).
  When a page's word is right after a frame is `StateFrames.MirrorExactlyWhen`, and for a page that gets every frame
  `StateFrames.SoleMirrorExactlyWhen`.
* `internal/sim/opinion.go:102-107` promises a unique fixed point.  Somebody with neither tie nor feed may stand
  anywhere: it is unique outright exactly when there is no such person (`FedOpinion.OneEquilibriumExactlyWhen`), and
  otherwise for each way of placing them.
* `internal/sim/contagion.go:74-77` calls FeedDriven the people who would not have adopted on peers alone.  That fails
  in two ways: with a reinforcement floor of zero, for a person who needs nothing and has no adopted neighbour, and
  under the simple rule, for a person whose draw lies between the chance without and with the feed.  The exact
  condition is `CascadeTheorems.AttributionExactlyWhen`; `CascadeTheorems.ComplexRuleMiscredits` and
  `CascadeTheorems.SimpleRuleMiscredits` are inputs.
* `internal/sim/cohort.go:700-707` says the model's script is refused only once something has been released.  It is
  refused once the cursor has moved, which also happens when turns were skipped
  (`Conversation.RefusedUnsaidExactlyWhen`, `Conversation.RefusedUnsaidHappens`).
* The first call of Observe after a chat is made or reset takes a baseline and does not advance the script, so "one
  turn per tick" at `internal/sim/cohort.go:729` starts a tick later there (`Conversation.SaidSoFar`).
* A Put larger than the whole cache is refused and leaves an older value of the same key to be served
  (`Cache.HitIsLastOfferExactlyWhen`, `Cache.RefusedPutServesTheOld`).

## Model

| member | source | states |
|---|---|---|
| `Proposals.BucketByArchetype` | internal/sim/graph.go:374-399 | the in-place counting sort by archetype: offsets are the counts of smaller archetypes, members the stable order |
| `Proposals.BucketIs` | internal/sim/graph.go:374-399 | the members between two offsets are exactly the people of that archetype |
| `Proposals.CandidateIs` | internal/sim/graph.go:260-285 | every candidate is a person: a geographic one stands hop + 1 ranks from the node, forward or back, modulo the population; a like-minded one is of the own archetype, so that the fallback for an empty bucket is never needed; otherwise it is the hub the draw picks |
| `Proposals.EveryLikeMindedIsPicked` | internal/sim/graph.go:272-279 | every person of the node's archetype is picked by some draw |
| `Proposals.ProposalsOf` | internal/sim/graph.go:244-291 | a node proposes the candidates other than itself, all of them, in the order of the draws, so at most as many as it wants ties |
| `Proposals.ProposedInOrder` | internal/sim/graph.go:286-291 | the proposals are as many as there are draws whose candidate is somebody else, and each such candidate stands at the place that counts those before it |
| `Proposals.TiedExactlyWhenDrawn` | internal/sim/graph.go:138-291 | in the finished graph two people are tied exactly when they are two and one of them drew the other |
| `Proposals.AllAreValid` | internal/sim/graph.go:244-291 | so everybody's proposals are what both passes assume |
| `Proposals.Hubs` | internal/sim/graph.go:127-138 | the hub pool is never empty and holds only people |
| `Proposals.GraphFromBuilder` | internal/sim/graph.go:138-228 | from the lookup structures and the draws to the graph, under any schedules of both passes |
| `Placement.CountingIsScheduleFree` | internal/sim/graph.go:146-157 | every schedule of the atomic adds of pass 1 ends with the same row capacities: own proposals plus every proposal naming the row |
| `Placement.PrefixSum` | internal/sim/graph.go:159-169 | offsets are the running sums of the capacities, from 0 to the total |
| `Placement.OffsetsFollow` | internal/sim/graph.go:146-169 | the prefix sum of whatever pass 1 ended with, under any schedule, gives every row of pass 2 room for exactly its capacity |
| `Placement.PlaceStepKeeps` | internal/sim/graph.go:171-192 | each atomic action of pass 2 (bulk reservation, slot write, single claim) keeps: no index out of range, slots handed out at most once and inside the row they belong to, each written at most once |
| `Placement.PlacementIsScheduleFree` | internal/sim/graph.go:171-192 | under every interleaving, when all workers are done every slot was written exactly once and row u holds exactly the nodes that u proposed or that proposed u |
| `Placement.PlacementCanFinish` | internal/sim/graph.go:171-192 | no worker ever waits for another: every partial schedule extends to a finished pass |
| `Rows.SortOfSorts` | internal/sim/graph.go:442-452 | the specification of the row sort: sorted, and the same values as often |
| `Rows.Insert` | internal/sim/graph.go:442-452 | the inner loop of insertionSort, in place: one element moves down into its place, the rest of the array is untouched |
| `Rows.InsertionSort` | internal/sim/graph.go:442-452 | insertionSort in place on one row: the slice becomes its sorted form, nothing outside it changes |
| `Rows.DedupedIs` | internal/sim/graph.go:211-222 | what compaction keeps of a sorted row: strictly increasing, and every value but self |
| `Rows.Dedup` | internal/sim/graph.go:211-222 | the compaction loop in place: the front of the row becomes its deduplicated form, elements beyond the row are untouched |
| `SocialGraph.FinishRow` | internal/sim/graph.go:204-223 | sorting then compacting one row in place changes only that slice |
| `SocialGraph.FinishRows` | internal/sim/graph.go:194-228 | the last loop over all rows: every row ends as its sorted, deduplicated form and Edges is half the degree sum |
| `SocialGraph.GraphIsScheduleFree` | internal/sim/graph.go:171-228 | whatever the schedule of pass 2, row u of the built graph is strictly increasing and lists exactly the others that u proposed or that proposed u |
| `SocialGraph.BuiltFromProposals` | internal/sim/graph.go:146-228 | from the proposals alone: under any schedules of both passes, with the prefix sum between them, the built graph lists exactly the ties |
| `SocialGraph.GraphIsUnique` | internal/sim/graph.go:171-175 | two builds from the same proposals are equal: rows are determined by the proposals |
| `SocialGraph.GraphIsSymmetric` | internal/sim/graph.go:171-228 | ties go both ways, nobody is tied to themselves, rows are strictly increasing |
| `SocialGraph.EdgesCountTies` | internal/sim/graph.go:226-228 | the degree sum is even, so halving it loses nothing: twice Edges is the degree sum |
| `HubPool.HubPool` | internal/sim/graph.go:298-325 | exactly min(2^20, n) entries, and each node appears the floor or the ceiling of its degree over the step, for every random start |
| `HubPool.Sweep` | internal/sim/graph.go:312-324 | the sweep over accumulated weight reaches every mark and leaves none over |
| `HubPool.Emit` | internal/sim/graph.go:314-323 | one node is emitted once for each mark its own weight covers |
| `HubPool.ShareRounds` | internal/sim/graph.go:312-324 | the number of marks inside a stretch of weight is that weight in steps, rounded one way or the other |
| `SpatialOrder.RankOrders` | internal/sim/graph.go:333-364 | ranks order people by cell, and by index inside a cell: the counting sort is stable |
| `SpatialOrder.RanksPermute` | internal/sim/graph.go:333-364 | the ranks are a permutation of 0 .. n - 1 |
| `SpatialOrder.SpatialRank` | internal/sim/graph.go:333-364 | the three counting-sort loops compute exactly these ranks |
| `SpatialOrder.RankToOrder` | internal/sim/graph.go:366-372 | rankToOrder inverts a ranking on both sides |
| `SpatialOrder.WrappedIsCyclic` | internal/sim/graph.go:263-270 | the truncated remainder with its correction is the position modulo the population, for every offset |
| `Chunks.Split` | internal/sim/graph.go:467-530 | the ranges handed to workers tile 0 .. n with none empty, there are at most as many as slots in a per-worker array, and none is longer than an even split makes necessary |
| `Chunks.OneChunkEach` | internal/sim/graph.go:467-530 | every index is in exactly one range |
| `Chunks.PartsAddUp` | internal/sim/graph.go:492-530 | per-worker counters add up to the sequential count, however many workers there are |
| `Chunks.WritesAreOrderFree` | internal/sim/graph.go:464-490 | a loop that writes each index of a second buffer from the first leaves the same buffer under every interleaving that reaches everyone |
| `Contagion.Contagion.Decide` | internal/sim/contagion.go:195-262 | the decision for one person, branch by branch, equals the specified verdict |
| `Contagion.Contagion.Evaluate` | internal/sim/contagion.go:179-268 | the evaluation loop reads the old stages only and writes the second buffer, adoption rounds and attribution |
| `Contagion.Contagion.AdvanceWith` | internal/sim/contagion.go:179-279 | one round on the two swapped buffers is exactly the specified round, whatever the second buffer held, and returns the number of new adopters |
| `Contagion.Contagion.Advance` | internal/sim/contagion.go:155-157 | the same over peer ties alone |
| `Contagion.Contagion.RunRounds` | internal/sim/contagion.go:281-294 | Run, as rounds until a quiet one or the budget ends |
| `Contagion.Contagion.Decay` | internal/sim/contagion.go:451-462 | adopters whose time is up, and only they, become fatigued |
| `Contagion.Contagion.Count` | internal/sim/contagion.go:340-349 | the number of people who are not unaware |
| `Contagion.Contagion.Reset` | internal/sim/contagion.go:351-366 | everyone unaware, no adoption round, no attribution, thresholds and scale as drawn, step 0; the second buffer is left as it is |
| `CascadeTheorems.RoundCounts` | internal/sim/contagion.go:264-278 | Count rises in a round by exactly the number the round reports |
| `CascadeTheorems.CountIsConverted` | internal/sim/contagion.go:264-278 | the number a round reports is the number of people it changes from unaware to aware |
| `CascadeTheorems.NeedIsLeast` | internal/sim/contagion.go:252-256 | what the complex rule demands is the least number not below the floor nor below threshold x scale x degree |
| `CascadeTheorems.RoundAdoptsExactlyWhen` | internal/sim/contagion.go:179-265 | an unaware person adopts in a round exactly when awake, with at least one contact among adopted neighbours and confirmations, and, under the complex rule, as many as the floor and as threshold x scale x degree, or under the simple rule with luck below the chance of that many; what is stamped on them, and that they are marked feed-driven exactly when their neighbours alone would not do |
| `CascadeTheorems.VerdictIsClears` | internal/sim/contagion.go:195-262 | over peer ties the verdict of the code is that condition on the adopted neighbours alone |
| `CascadeTheorems.TwoOfFourAreNotEnough` | internal/sim/contagion.go:252-256 | two adopters among four neighbours leave a person with threshold 0.9 and a floor of two unaware |
| `CascadeTheorems.RunReachesLeast` | internal/sim/contagion.go:179-294 | with permanent adoption and more rounds than people, Run over peer ties ends in exactly the least set that holds the seeds and everyone who has, in it, an adopted neighbour, as many as the floor and threshold x scale x degree of them |
| `CascadeTheorems.ReachIsMonotone` | internal/sim/contagion.go:179-294 | more seeds, or a lower threshold scale, never reach fewer people |
| `CascadeTheorems.QuietStays` | internal/sim/contagion.go:179-279 | a round over peer ties that adopts nobody is followed by another such round, with or without decay |
| `CascadeTheorems.QuietForever` | internal/sim/contagion.go:179-279 | so it is followed by such rounds only |
| `CascadeTheorems.RunStalls` | internal/sim/contagion.go:281-294 | Run stops within one round more than there are unaware people, in a state no later round changes by adoption |
| `CascadeTheorems.RunCounts` | internal/sim/contagion.go:281-294 | the adoptions Run returns are exactly the rise in Count |
| `CascadeTheorems.StagesMoveForward` | internal/sim/contagion.go:179-279 | stages only move from unaware to adopted to fatigued, and nobody skips adoption |
| `CascadeTheorems.RoundIsTimely` | internal/sim/contagion.go:270-277 | every round keeps: adopted means fewer than TransmitFor rounds since adoption, fatigued means at least that many |
| `CascadeTheorems.TransmitsExactly` | internal/sim/contagion.go:270-277 | whatever feeds and clock do, an adopter keeps their adoption round and transmits for exactly TransmitFor rounds from it |
| `CascadeTheorems.SeedIsTimely` | internal/sim/contagion.go:380-384 | a seed's TransmitFor rounds start at the current step |
| `CascadeTheorems.AttributionExactlyWhen` | internal/sim/contagion.go:208-265 | under either rule FeedDriven is the true counterfactual exactly for those who are not miscredited: under the complex rule somebody shown the story who has no adopted neighbour and needs nothing, ruled out by a floor of one; under the simple rule somebody with an adopted neighbour whose draw lies between the chance without and with the feed |
| `CascadeTheorems.ChanceRises` | internal/sim/contagion.go:232-238 | the chance 1 - (1 - beta)^n grows with n for every beta in [0, 1], as that theorem asks |
| `CascadeTheorems.ComplexRuleMiscredits` | internal/sim/contagion.go:252-262 | a concrete person without ties, with a floor of zero and one post, adopts because of the feed and is not marked |
| `CascadeTheorems.SimpleRuleMiscredits` | internal/sim/contagion.go:232-244 | a concrete person with one adopted neighbour, beta 0.3, one post and a draw of 0.4 adopts because of the feed and is not marked, whatever the floor |
| `CascadeTheorems.RoundSplits` | internal/sim/contagion.go:208-265 | a person who has not heard is rightly sorted by a round, as one the peer-only round would adopt or one it would not, exactly when not miscredited |
| `CascadeTheorems.SilentFeedsAreNone` | internal/sim/contagion.go:155-163 | feeds that show nothing give the round that has no feeds |
| `Seeding.ReportedAre` | internal/sim/contagion.go:371-449 | whatever a seeder tries, it returns exactly the people it turned into adopters, each once |
| `Seeding.SeedScattered` | internal/sim/contagion.go:371-389 | approaches exactly the people the draws name, until k are new; fewer only after exactly 20k + 1000 tries |
| `Seeding.SeedRegion` | internal/sim/contagion.go:427-449 | the people approached are the cyclic window of min(k, N) around the centre in rank order, and those unaware adopt |
| `Seeding.WindowIsCyclic` | internal/sim/contagion.go:427-449 | the window holds that many different people, the centre among them, at consecutive ranks modulo N |
| `Seeding.RegionIsWhole` | internal/sim/contagion.go:427-449 | on a fresh population exactly min(k, N) different people adopt and are returned |
| `Seeding.SeedCluster` | internal/sim/contagion.go:395-415 | breadth-first search as specified seeds a set connected to the start; if fewer than k are new, the whole component was visited |
| `Seeding.SearchExhausts` | internal/sim/contagion.go:395-415 | when the queue runs dry the visited people are exactly the component of the start |
| `Seeding.ClusterIsWhole` | internal/sim/contagion.go:395-415 | on a fresh population exactly min(k, size of the component) people adopt |
| `Seeding.FoundIsCluster` | internal/sim/contagion.go:395-415 | the search as a function: a connected set around the start, until k are new or the component is exhausted |
| `Opinion.OpinionField.StepWith` | internal/sim/opinion.go:113-176 | one synchronous round on two swapped buffers equals the specified round and returns the largest change |
| `Opinion.OpinionField.SettleTo` | internal/sim/opinion.go:181-191 | Settle: rounds taken, last change and resulting field |
| `Opinion.OpinionField.Broadcast` | internal/sim/opinion.go:199-208 | listed people are pinned to the stance with susceptibility 0; everyone else is untouched; the previous susceptibilities come back |
| `Opinion.StepInRange` | internal/sim/opinion.go:113-176 | a round keeps every opinion in [-1, 1], feeds included |
| `Opinion.PhiSaturates` | internal/sim/opinion.go:142-151 | a feed's share of the social input stays below one |
| `Averaging.OneNeighbourMoves` | internal/sim/opinion.go:113-176 | raising one neighbour by d moves the reader by susceptibility times d over the number of neighbours, the same for each, and by that share of it which a feed leaves to peers |
| `Averaging.FeedMoves` | internal/sim/opinion.go:139-160 | raising what a feed shows by d moves the reader by susceptibility times w / (w + 1.2) times d, or all of d where there are no ties |
| `Averaging.AgreeingNeighbours` | internal/sim/opinion.go:113-176 | neighbours who all stand at c are heard as c: the reader ends between c, blended with the feed, and the prior; with neither ties nor feeds they stay |
| `Opinion.StepContracts` | internal/sim/opinion.go:178-191 | peer ties only: two fields that agree on isolated people come closer by the largest susceptibility in every round |
| `Opinion.DeltaShrinks` | internal/sim/opinion.go:181-191 | successive changes shrink by the largest susceptibility |
| `Opinion.SettleConverges` | internal/sim/sim.go:126-137 | settle returns within 55 rounds with a change below 1e-5, within 4e-5 of any fixed point that agrees with the priors of isolated people |
| `Opinion.EquilibriumIsUnique` | internal/sim/opinion.go:178-191 | peer ties only: at most one fixed point once isolated people are given |
| `FedOpinion.FeedIsLine` | internal/sim/media.go:546-578 | what feeds show is a straight line in the reader's opinion of slope between 0 and 1, with a weight that does not depend on it |
| `FedOpinion.FedRoundContracts` | internal/sim/opinion.go:96-107 | with the feeds of a standing layer blended in, a round still brings two fields that agree on people nothing moves closer by the largest susceptibility |
| `FedOpinion.FedEquilibriumIsUnique` | internal/sim/opinion.go:102-107 | the fed round has at most one fixed point for each way of placing the people nothing moves |
| `FedOpinion.OneEquilibriumExactlyWhen` | internal/sim/opinion.go:102-107 | it has one fixed point outright, as promised, exactly when everybody has a tie or a feed |
| `FedOpinion.FedEquilibriumExists` | internal/sim/opinion.go:102-107 | and it has one, from every starting field |
| `FedOpinion.EquilibriumExists` | internal/sim/opinion.go:178-191 | peer ties only: the fixed point exists |
| `FedOpinion.SettleFindsTheEquilibrium` | internal/sim/sim.go:126-137 | settle ends within 4e-5 of the one fixed point there is |
| `Opinion.PinnedStays` | internal/sim/opinion.go:193-208 | a pinned broadcaster holds the stance through a round, whatever feeds and network do |
| `Opinion.BroadcastLasts` | internal/sim/opinion.go:193-208 | and, once pinned by Broadcast, through any number of later rounds |
| `Opinion.PinningInRange` | internal/sim/opinion.go:199-208 | pinning keeps priors and susceptibilities in range |
| `Opinion.DrawsAreInRange` | internal/sim/opinion.go:65-80 | NewOpinion draws priors in [-1, 1] and susceptibilities below 0.8 in every stratum |
| `Opinion.DrawsAre` | internal/sim/opinion.go:65-80 | a prior is 0.8 of the archetype's projection and 0.3 of the noise, cut off at the ends; a susceptibility lies evenly in its stratum's own interval, broadcasters below the wealthy below the rest |
| `Media.MediaLayer.AdvanceLayer` | internal/sim/media.go:399-534 | a tick of the layer equals the specified one: untouched and silent when off or quiet, else new attention per platform, exposure and confirmations per person |
| `Media.MediaLayer.UpdatePlatforms` | internal/sim/media.go:405-487 | every platform's score, presence, peak and feed mean, from the state the last tick left |
| `Feeds.TallyAddsUp` | internal/sim/media.go:410-452 | the pass over the population adds up the weights of members, of those transmitting, and their weighted opinions |
| `Feeds.ScoreAfter` | internal/sim/media.go:456-463 | a score gains velocity times engagement of what it lacks and then loses its decay, engagement being the transmitting share of the members' weight |
| `Feeds.PresenceAfter` | internal/sim/media.go:465-473 | a closed platform, or one that does not amplify, shows engagement times score; an open one that amplifies shows engagement to the power 1 / (1 + amplify) times score; each within [0, 1] |
| `Feeds.OpenShowsMore` | internal/sim/media.go:465-473 | where that power raises engagement, an open platform shows at least as much as its closed twin, and strictly more unless the twin shows nothing or everything |
| `Feeds.PeakAfter` | internal/sim/media.go:474-477 | the peak is the highest presence so far, dated by the tick that set it |
| `Feeds.FeedMeanAfter` | internal/sim/media.go:479-485 | a feed's mean is the weighted mean opinion of its transmitting members, or 0.85 of the last one where there is none |
| `Feeds.ShownIsPosts` | internal/sim/media.go:490-531 | what a person is shown is the sum over the platforms they are on: at most one post by a draw against the presence on a closed one, the arrivals of three slots times presence on an open one |
| `Media.MediaLayer.PullOn` | internal/sim/media.go:546-578 | the blend of what a person's platforms show, and its weight |
| `Feeds.FeedPullIs` | internal/sim/media.go:546-578 | a person's feeds pull with the summed weight of their platforms toward the mean of what those show, weighted alike |
| `Feeds.SortingMeans` | internal/sim/media.go:546-578 | platforms that sort alike leave the reader between themselves and the feed's mean: at sorting 1 they see themselves, at sorting 0 the mean |
| `Feeds.OnePlatformPulls` | internal/sim/media.go:546-578 | one platform pulls with its presence times 0.4 + 0.6 velocity |
| `Media.MediaLayer.PullAll` | internal/sim/opinion.go:118-151 | what the opinion round asks of the layer: nothing unless a story is live |
| `Media.MediaLayer.Ignite` | internal/sim/media.go:330-346 | the story's starting attention; nothing when the layer is off |
| `Feeds.IgnitesAt` | internal/sim/media.go:330-346 | a platform picks a story up at a quarter of its salience times 0.6 + 0.4 velocity, and a closed one at 0.35 of its open twin |
| `Media.MediaLayer.ResetStory` | internal/sim/media.go:350-365 | all story state cleared, the switch kept |
| `Media.MediaLayer.SetEnabled` | internal/sim/media.go:301-316 | switching off clears scores, presence, peaks and exposure, and keeps the rest |
| `Media.ConfirmationsIs` | internal/sim/media.go:602-623 | confirmations are the largest whole number up to 4 not above 0.9 times the root of what was shown, never falling, and 0 for a single post |
| `Media.AdvanceSane` | internal/sim/media.go:442-485 | a tick keeps scores and presences in [0, 1] and feed means in [-1, 1] |
| `Media.FeedPullSane` | internal/sim/media.go:546-578 | what feeds show is a position in [-1, 1] with a weight that is never negative |
| `Media.StoryStateSane` | internal/sim/media.go:301-365 | ignition, reset and the switch keep the ranges |
| `Media.DisabledIsAbsent` | internal/sim/media.go:299-303 | a layer that is off shows nothing, pulls no one and does not change |
| `Media.ClosedChannelConfirmsNothing` | internal/sim/media.go:515-528 | a layer whose only platform is closed delivers no confirmation to anyone |
| `QuietLayer.EngagementExactlyWhen` | internal/sim/media.go:456-459 | engagement is a share in [0, 1], and zero exactly when nobody of any weight on the platform transmits |
| `QuietLayer.ScoreFallsExactlyWhen` | internal/sim/media.go:460-463 | a score does not rise exactly when what engagement adds after decay is no more than what decay takes |
| `QuietLayer.ZeroScoreStaysExactlyWhen` | internal/sim/media.go:276-281 | the update leaves a zero score at zero exactly when nobody of any weight on the platform transmits |
| `QuietLayer.ConfirmsNothingExactlyWhen` | internal/sim/media.go:490-532 | a tick can confirm nothing to anyone, whatever is drawn, exactly when no unaware person could be shown two posts |
| `QuietLayer.PullsNothingExactlyWhen` | internal/sim/media.go:546-578 | a tick leaves every opinion alone exactly when no score would rise above the threshold for quiet or no platform anyone is on would show the story |
| `QuietLayer.SkippingIsExactWhen` | internal/sim/media.go:273-293 | skipping the tick of a quiet layer delivers what the tick would exactly under those two conditions, both on the state before it |
| `QuietLayer.SkippingIsExactAtRest` | internal/sim/media.go:282-285 | they hold wherever nobody of any weight transmits |
| `QuietLayer.QuietLayerWouldWake` | internal/sim/media.go:276-281 | any layer with zero scores on two concrete platforms, one of two members transmitting, is quiet, would be woken by the update and would pull an opinion |
| `QuietLayer.SwitchedOffAndOn` | internal/sim/media.go:299-316 | switching the layer off and on in the middle of a story leaves such zero scores behind unchanged transmitters |
| `QuietLayer.QuietButTold` | internal/sim/sim.go:243-246 | so does a story of no salience in any new simulation with platforms |
| `Reactions.ApplyReactions` | internal/sim/reactions.go:37-88 | each person whose archetype has a reaction is moved by it and nobody else; returns how many reactions and people |
| `Reactions.ReactedIsSane` | internal/sim/reactions.go:50-77 | a reaction keeps everyone in range, moves the prior only toward the stance, never raises a threshold and changes the opinion of broadcasters only |
| `Reactions.PopulationStaysSane` | internal/sim/reactions.go:37-88 | the whole population stays in range |
| `Events.ReactionsReach` | internal/sim/reactions.go:37-77 | on the whole simulation: who reacted moves weight times salience of the way to the stance, loses 0.55 of the share from the threshold, down to 0.01, and a broadcaster says it; nobody else changes |
| `Events.StrongerReactionsDoMore` | internal/sim/reactions.go:50-77 | a more salient reaction moves a prior strictly further, a more shareable one lowers a threshold strictly more |
| `Stories.ResetIsStartExactlyWhen` | internal/sim/sim.go:542-557 | after any history, Reset gives back the state of a new simulation exactly when the media switch and the transmission mode are as built |
| `Stories.ResetErases` | internal/sim/sim.go:542-557 | so any story told after a reset runs as in a new simulation, provided the history before did not touch switch or mode |
| `Stories.SettingsStay` | internal/sim/sim.go:542-557 | only the switch and the mode operations change switch and mode |
| `Stories.OffIsAbsent` | internal/sim/sim.go:297-308 | while the layer stays off, every run equals, at every moment, the run of a simulation without one |
| `Stories.ClosedPlatformIsPeersOnly` | internal/sim/media.go:602-623 | with a single closed platform every run's cascade equals, at every moment, that over peer ties alone |
| `Stories.HistoryIsSane` | internal/sim/sim.go:199-324 | through every run, opinions, priors and feed means stay in [-1, 1], scores and presences in [0, 1], susceptibilities in [0, 0.8], thresholds in [0.01, 1] |
| `Simulation.New` | internal/sim/sim.go:106-124 | a new simulation: settled opinions, nobody aware, everything else at its start |
| `Events.NobodyHasHeard` | internal/sim/sim.go:106-124 | in a new simulation everyone is unaware at their drawn threshold and belief, and the platforms are on and empty |
| `Events.OpinionsAreAtRest` | internal/sim/sim.go:126-137 | and opinions stand within 4e-5 of an equilibrium of the drawn beliefs |
| `Simulation.Sim.Advance` | internal/sim/sim.go:297-324 | a tick on the shared objects: feeds read the last tick's state, then contagion, then opinion on the feeds as they now stand, then the clock |
| `Ticks.TickAdoptsExactlyWhen` | internal/sim/sim.go:297-308 | an unaware person adopts in a tick exactly when awake at this hour with at least one contact among adopted neighbours and the confirmations of the posts this tick's presences put before them, and as many as the rule asks; and is feed-driven exactly when the neighbours would not do |
| `Ticks.FeedsMakeTheDifference` | internal/sim/sim.go:297-308 | a concrete tick whose feeds make somebody adopt, feed-driven, whom the tick without a layer leaves unaware |
| `Ticks.TickMovesLayer` | internal/sim/sim.go:293-302 | a tick leaves a layer that is off or quiet alone, and else updates every platform from the stages and opinions the last tick left; exposed are exactly the unaware who are shown something |
| `Ticks.OpinionReadsNewFeeds` | internal/sim/sim.go:297-309 | opinion moves on the layer as the tick leaves it, at the opinions before the tick |
| `Ticks.SleepersWait` | internal/sim/sim.go:303-307 | somebody unaware whose draw is not below their activity at this hour stays unaware |
| `Ticks.ClockTurns` | internal/sim/sim.go:310-313 | the clock moves on by the minutes of a tick over 60 modulo the day, and only if there is one; what else a tick leaves alone |
| `Ticks.TickReports` | internal/sim/sim.go:307-308 | a tick reports the number of people it made aware and the largest move of an opinion |
| `Simulation.Sim.Inject` | internal/sim/sim.go:200-264 | an event: clock, drawn carriers pinned, difficulty, one of three seeders with its draws, ignition, and nothing else; the seeded people are returned |
| `Events.StoryIsBroadcast` | internal/sim/sim.go:205-217 | a broadcaster carries the story exactly when the draw of its own, by its number among broadcasters, is below the salience; carriers take the stance and stop listening, nobody else's beliefs move |
| `Events.StorySetsTheScene` | internal/sim/sim.go:200-221 | difficulty scales thresholds if it is positive, the hour is taken if the event has one and there is a clock, and what stays |
| `Events.PlaceIsSeeded` | internal/sim/sim.go:223-241 | a regional seed turns into adopters exactly the unaware people in the cyclic window of min(k, N) ranks around the drawn person, k being 64 unless the event says otherwise |
| `Events.NetworkIsSeeded` | internal/sim/sim.go:223-241 | a social seed starts from an ordinary person of most ties among 64 drawn and turns into adopters the unaware of a connected set around them, k of them or the whole component |
| `Events.EverywhereIsSeeded` | internal/sim/sim.go:223-241 | a scattered seed turns into adopters the unaware among the people its draws name in turn, until k are new or 20k + 1000 tries are made |
| `Events.SeededAreNew` | internal/sim/sim.go:223-264 | the people an event returns are exactly those it turned into adopters, each once |
| `Events.StoryIgnites` | internal/sim/sim.go:243-246 | a layer that is on starts the story afresh at those scores, one that is off is left alone |
| `Simulation.Sim.DenseStart` | internal/sim/sim.go:266-284 | of the ordinary people among 64 draws one of the largest degree, person 0 if there is none |
| `Stories.DensestIs` | internal/sim/sim.go:266-284 | the same of any number of draws: the result is drawn, ordinary and of the largest degree, or nobody ordinary was drawn |
| `Simulation.Sim.React` | internal/sim/reactions.go:37-88 | reactions on the live simulation move priors, broadcasters' opinions and thresholds, and nothing else |
| `Simulation.Sim.Reset` | internal/sim/sim.go:545-557 | Reset on the live objects yields exactly the specified state, leftover buffers notwithstanding |
| `Wire.UnpackOfPack` | web/globe.js:53-57 | the shader recovers the stage and the three marks exactly and the opinion to within 2/63 of the packed one |
| `Wire.PackedFields` | internal/sim/sim.go:325-365 | where the fields stand: stage in bits 0-1, opinion in 64 even levels in bits 2-7, the marks in bits 8, 9 and 10 |
| `Wire.SumsAreOrs` | internal/sim/sim.go:342-355 | the same words by shift, or and mask on 16-bit words |
| `Wire.Word16` | internal/sim/sim.go:445-457 | a little-endian 16-bit word reads back as written |
| `Wire.Word32` | internal/sim/sim.go:421-429 | a little-endian 32-bit word reads back as written |
| `Wire.LowByteFirst` | internal/sim/sim.go:421-457 | words are written low byte first |
| `StateFrames.RepackTracks` | internal/sim/sim.go:388-401 | repack keeps the dirty list duplicate-free, in step with its bitmap, and covering every difference from what was last sent |
| `StateFrames.ResyncTracks` | internal/sim/sim.go:377-386 | so does resync |
| `StateFrames.ResyncIsExact` | internal/sim/sim.go:377-386 | after resync the dirty people are exactly those that differ from what was last sent |
| `StateFrames.FrameSize` | internal/sim/sim.go:410-465 | a frame is 12 bytes plus the smaller of 6 per dirty person and 2 per person |
| `StateFrames.FrameLayout` | internal/sim/sim.go:403-457 | the bytes of both forms: the four letters, the count, the tick, and every word or record at its place |
| `StateFrames.SentTracks` | internal/sim/sim.go:467-480 | after a completed frame the last-sent copy is the current state and nothing is dirty |
| `StateFrames.FrameApplies` | web/globe.js:518-540 | a page of at most as many people parses every frame without throwing, takes the server's word for each person carried and keeps its own for each other |
| `StateFrames.MirrorExactlyWhen` | web/globe.js:518-540 | over any run with failed writes and with frames that went to other pages or were dropped, after a frame a page has applied its word for a person is the server's exactly when that frame carried them; or, where a frame had passed the page by, the last word sent was the one it held; or, where none had, it agreed at the start or had been brought them |
| `StateFrames.SoleMirrorExactlyWhen` | web/globe.js:518-540 | for a page that gets every frame: exactly when it agreed with the last-sent copy at the start or some frame has carried that person |
| `StateFrames.AnotherPageTakesTheChange` | internal/sim/sim.go:467-480 | a person who agreed, whose change goes out in a frame to another page, is still stale after the next frame this page applies |
| `StateFrames.AgreementLasts` | internal/sim/sim.go:403-481 | a page, even of a prefix, that once agreed with what was last sent and gets every frame mirrors the server after each |
| `StateFrames.FirstFrameRepairsNothing` | internal/sim/sim.go:367-375 | a page of zeros facing a new server gets an empty delta first: it is right exactly where the packed word is zero |
| `StateFrames.StateSource.Repack` | internal/sim/sim.go:392-401 | the loop on flags, dirty list and bitmap in place |
| `StateFrames.StateSource.Resync` | internal/sim/sim.go:380-386 | the clearing and the loop in place |
| `StateFrames.StateSource.Encode` | internal/sim/sim.go:418-481 | Encode writes exactly the frame through a buffered writer and then acknowledges it; a failed write acknowledges nothing |
| `StateFrames.Globe.Apply` | web/globe.js:518-540 | applyFrame in place, including where it throws and what it has changed by then |
| `Admission.DefaultsAreUsable` | internal/gateway/gateway.go:69-89 | every configuration becomes usable, usable ones keep their capacities, and when a reservation results |
| `Admission.DefaultShareLeavesTwo` | internal/gateway/gateway.go:73-76 | the default share leaves two slots batch cannot occupy exactly from three slots up |
| `Admission.RunKeeps` | internal/gateway/gateway.go:283-328 | every action of every request keeps channel contents and counters equal to what the requests' positions account for |
| `Admission.AdmissionBounds` | internal/gateway/gateway.go:283-313 | in every reachable state at most MaxInFlight requests hold a slot, at most BatchCap of them batch, and an interactive request is held up only behind MaxInFlight - BatchCap interactive ones |
| `Admission.ReleaseNeverBlocks` | internal/gateway/gateway.go:303-328 | release and the undo after a timeout never block |
| `Admission.NothingLeaks` | internal/gateway/gateway.go:283-328 | once every request has finished, however it finished, all tokens and counts are back |
| `Admission.SomeoneCanMove` | internal/gateway/gateway.go:283-328 | while any request is unfinished some request can move without a timeout |
| `Admission.Drains` | internal/gateway/gateway.go:283-328 | from any reachable state the requests present can all finish without a timeout |
| `Admission.ReservationIsReal` | internal/gateway/gateway.go:39-41 | an interactive request can be held up behind batch work alone exactly when the batch share equals all slots |
| `Admission.WaitingBound` | internal/gateway/gateway.go:284-292 | if at most e requests of a lane are ever between reading the waiting count and adding to it, at most MaxWaiting + e - 1 wait |
| `Admission.WaitingBoundIsReached` | internal/gateway/gateway.go:284-292 | and for every e some run has that many waiting |
| `Admission.LimitHoldsExactlyWhen` | internal/gateway/gateway.go:284-292 | so the limit holds in all such runs exactly when no two requests pass the test together |
| `Admission.GivingUpEnds` | internal/gateway/gateway.go:296-313 | a request that waits for a token can give up at any moment and is then done without anybody else, with its count and its batch token returned |
| `Cache.Cache.Get` | internal/gateway/cache.go:47-59 | a hit moves the entry to the front and returns its value; a miss changes only the counter |
| `Cache.Cache.Put` | internal/gateway/cache.go:61-92 | a value over the bound is refused and changes nothing; otherwise the recency list becomes the longest prefix that fits with the new value in front |
| `Cache.Cache.Evict` | internal/gateway/cache.go:82-91 | the eviction loop keeps the longest prefix within the bound |
| `Cache.FitIsLongest` | internal/gateway/cache.go:82-91 | that prefix fits and no longer one does |
| `Cache.GotIs` | internal/gateway/cache.go:47-59 | a Get moves its entry to the front, keeps all others in order, and changes nothing when it misses |
| `Cache.PutInIs` | internal/gateway/cache.go:61-92 | an accepted Put leaves its entry and then the others in order, as many as fit and no fewer |
| `Cache.AcceptedSurvives` | internal/gateway/cache.go:61-92 | a value just accepted is at the front and not evicted |
| `Cache.RunIsFaithful` | internal/gateway/cache.go:47-92 | after any history the cache holds, in order of last use and within the bound, the last accepted value of each key it holds |
| `Cache.HitIsLastPut` | internal/gateway/cache.go:47-59 | a hit returns the last accepted Put of that key |
| `Cache.HitIsLastOfferExactlyWhen` | internal/gateway/cache.go:47-68 | through any history a hit returns what was last put under its key exactly when that fitted |
| `Cache.RefusedPutServesTheOld` | internal/gateway/cache.go:61-68 | a concrete refused Put after which the older value is served |
| `Script.ParseTurns` | internal/reaction/dialogue.go:153-180 | the validation loop keeps exactly the valid turns, in order, with replies renumbered to where their targets went, or dropped |
| `Script.RenumberedAt` | internal/reaction/dialogue.go:153-180 | entry by entry: as many turns as have words and a real speaker, each at the place counting those before it, with its reply following its target or dropped |
| `Script.RenumberingIsUnique` | internal/reaction/dialogue.go:153-180 | that description determines the output |
| `Script.RenumberingIsWellFormed` | internal/reaction/dialogue.go:153-180 | the output has real speakers and strictly backward replies |
| `Script.Shuffle` | internal/sim/cohort.go:797-848 | the in-place shuffle of the speaking order: the permutation its draws determine |
| `Script.EveryOrderHappens` | internal/sim/cohort.go:807-814 | every order comes out of some draws |
| `Script.AgreesExactlyWhen` | internal/sim/cohort.go:833 | two friends agree exactly unless they lean opposite ways |
| `Script.BuildThread` | internal/sim/cohort.go:797-848 | everyone speaks once in that order, each after the first answering the earlier speaker a draw picks, with a line that agrees by the sign of their leanings |
| `Script.BuildCannedScript` | internal/sim/cohort.go:797-848 | the whole canned script: well formed, the thread first, then one or two tangents by drawn speakers answering the turn before |
| `Conversation.StepKeeps` | internal/sim/cohort.go:556-789 | every operation keeps the conversation invariant |
| `Conversation.ConversationIsOneThread` | internal/sim/cohort.go:651-789 | after any history of scripts, offers, resets and ticks: retained identifiers are consecutive, said turns are in script order, every reply names the message its target turn became, and all released turns since the script was written come from the one script in force |
| `Conversation.ReleaseSaysOne` | internal/sim/cohort.go:727-789 | one call says at most one turn, never goes back, and only for a speaker who is not unaware |
| `Conversation.ScriptEnds` | internal/sim/cohort.go:722-789 | 121 ticks a turn, and one more where the first call only takes the baseline, get through any script whatever the cascade does, exactly if the chat has anyone in it |
| `Conversation.OneTurnTakesThemAll` | internal/sim/cohort.go:722-789 | a turn whose speaker never hears takes every one of those ticks |
| `Conversation.FirstIsLost` | internal/sim/cohort.go:556-568 | after NewCohort or Reset the first call of Observe only takes the baseline; everything else happens one tick later |
| `Conversation.SaidSoFar` | internal/sim/cohort.go:740-789 | once all friends have heard, how many turns of a well-formed script have been said after n ticks, from a chat with or without its baseline |
| `Conversation.SaidWholeExactlyWhen` | internal/sim/cohort.go:740-789 | and it is said whole, a turn a tick after the baseline, exactly when every turn has a real speaker and replies only backward |
| `Conversation.OfferIsSaidWhole` | internal/sim/cohort.go:700-789 | a well-formed offer taken before the conversation starts is what the friends then say, whole, in order and as the model's |
| `Conversation.ObservePosts` | internal/sim/cohort.go:570-622 | a tick posts every reaction in order, each as a new thread, and then at most one turn, and changes nothing said before |
| `Conversation.AppendRetains` | internal/sim/cohort.go:651-659 | history keeps the newest message and drops the oldest, one, exactly when full |
| `Conversation.ClearedIsNew` | internal/sim/cohort.go:663-698 | a cleared chat is a new one but for the numbering; a new script keeps the messages |
| `Conversation.RefusedUnsaidExactlyWhen` | internal/sim/cohort.go:700-711 | a reachable chat refuses an offer with nothing released exactly when the cursor has moved and no turn was said |
| `Conversation.RefusedUnsaidHappens` | internal/sim/cohort.go:700-711 | a concrete run to such a chat: a first turn with a speaker who is not there, two ticks, an offer |
| `Conversation.Cohort.AppendMessage` | internal/sim/cohort.go:651-659 | a message gets the next identifier and trimming drops only the oldest |
| `Conversation.Cohort.WriteScript` | internal/sim/cohort.go:686-698 | NewScript replaces the script by a well-formed canned one and starts it over |
| `Conversation.Cohort.InstallModelScript` | internal/sim/cohort.go:708-720 | the model's script replaces the canned one exactly while the cursor has not moved |
| `Conversation.Cohort.ReleaseScript` | internal/sim/cohort.go:740-789 | the release loop: skip what can never be said, wait up to the stall limit, say one turn |
| `Conversation.Cohort.ClearChat` | internal/sim/cohort.go:663-677 | Reset empties the conversation, drops the baseline and keeps the people and the identifiers |
| `Conversation.Cohort.ObserveTick` | internal/sim/cohort.go:556-622 | a tick: nothing without friends, only the baseline the first time, else the reactions and then the script |
| `Reservoir.FinalIsSample` | internal/sim/street.go:142-156 | whatever the draws, the sample holds distinct candidates |
| `Reservoir.SamplingIsFair` | internal/sim/street.go:142-156 | over all sequences of ideal draws each of n candidates is kept in exactly k of every n |
| `Reservoir.ReservoirFromSlice` | internal/sim/street.go:142-156 | reservoirFromSlice in place: all candidates if they are at most k, else the sample its draws determine |
| `Reservoir.ReservoirK` | internal/sim/cohort.go:436-451 | reservoirK keeps the same sample of the people that match: distinct, in range, matching, and k of them or all |
| `Reservoir.PickedAreDistinct` | internal/sim/street.go:142-156 | the people kept are k distinct candidates |
| `Street.NewStreet` | internal/sim/street.go:71-122 | no street where nobody lives; else at most k distinct residents of the place, each with degree, roster ties and the two kinds of other neighbours |
| `Street.SplitRow` | internal/sim/street.go:106-117 | one resident's neighbours sorted into roster positions, same place and elsewhere |
| `Street.StreetTies` | internal/sim/street.go:71-122 | ties are mutual, never to oneself nor twice to another, and ties, same-place and elsewhere add up to the degree, each counting different people |

## Left out

- HTTP handlers, JSON, authentication, streaming, the rate limiter, the language-model client and persistence: I/O plumbing.
- WebGL and Canvas rendering, picking and map drawing, apart from applying a frame and the flag bits.
- The draws of builder.proposals and of kdeg: kinds, hop lengths, directions, picks and degrees are arbitrary, degrees at least one, as the clamps see to.
- slices.Sort on rows of 32 and more: a library call, represented by the same sorted row insertionSort yields.
- Random-number quality, logarithms, exponentials, powers and Poisson sampling: parameters with the ranges the code relies on.
- Floating-point rounding, the order in which sums accumulate, and int32 overflow of edge offsets.
- Admission.AdmissionBounds: is about slot holders, because the inFlight counter lags the channel both ways.
- Wall-clock time in the gateway: a timeout or cancellation may fire at any moment a request is waiting.
- Cache: SHA-256 keys are distinct keys per request; the hit and miss counters carry no property of their own.
- Reservoir.SamplingIsFair: is about ideal draws from 0 .. i; the source reduces a 32-bit number modulo i + 1, whose slight bias is not modelled.
- Chunks: goroutine creation and the barrier are not modelled; the loops that use the ranges are proved sequentially, and interleaved writes to distinct indices are shown not to matter.
- Placement: atomic adds are sequentially consistent steps; the memory model of plain slot writes is not modelled.
- Stories: the chat, the flags and the history ring hang off the same operations but feed nothing back; they are modelled apart, in Conversation and StateFrames.
- QuietLayer.SkippingIsExactWhen: is about what a tick delivers, confirmations and pulls; the skipped layer also keeps its scores, its step and who was exposed last.
- FedOpinion: the layer stands still while opinions settle, as the comment it proves has it; within a tick the code moves the layer first.
- FeedDriven being nil before any allocation: the field is allocated here from the start, and all false.
- NewCohort's four ways of choosing friends (beyond reservoirK) and RerollChat: selection rules without a law of their own.
- Observe's choice and wording of reaction lines, names, roles and all canned text: lines are opaque, only who speaks and what they answer is kept.
- NewStreet's names, roles and coordinates, and Refresh: table look-ups.
- Snapshot, polarisation, variance, degree statistics, bootstrap intervals and the day curve: measurements, not promises.
- Statistical findings (tipping points, magnitudes, tail shapes): empirical.
