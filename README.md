# Web-prefetch clustering and bigram spam tokens, modelled in Dafny

This project models three pieces of a small machine-learning course
repository.

- **K-Means clustering** of client vectors (`cluster/kmeans.py`). Each
  client is a vector of page-request frequencies. The engine:
  - seeds a random partition;
  - alternates prototype recomputation (`calcPrototype`) with reassignment
    of every training vector to its nearest prototype, until the
    convergence flag is set;
  - counts hits, requests and prefetches against the test vectors. A page
    is prefetched when its prototype component exceeds 0.5.
- **The Kohonen self-organising map** (`cluster/kohonen.py`). An n x n grid
  of cells is seeded with training vectors. Each epoch:
  - clears the memberships;
  - presents every training vector but the last;
  - moves a square neighbourhood of the best-matching cell towards the
    vector, with a learning rate and radius that shrink linearly over the
    epochs;
  - records the vector in the best-matching cell.

  `test` looks up, for every client, the cell that holds it and evaluates
  the client against that cell. The last training vector is held by no
  cell, so it is evaluated against the cell found for the previous client.
  With no memberships at all and a non-zero dimension, `test` fails on the
  first client, because `owner` is read before it is ever assigned.
- **The token slice of the bigram spam filter**
  (`Bayespam/bigram_bayespam.py`):
  - the per-word frequency `Counter`;
  - the word cleaning of `read_file` (drop punctuation and digits,
    lower-case, keep words of four or more characters);
  - the two-state machine of `read_messages` that pairs consecutive tokens
    into bigrams.

The modules:

| module | file | contents |
|---|---|---|
| `Vectors` | `vectors.dfy` | what both clusterers share: squared distance, the prefetch tally, the accuracy/hit-rate outcome |
| `Kmeans` | `kmeans.dfy` | the K-Means engine as a class over `seq<Cluster>` |
| `SelfOrganisingMap` | `kohonen.dfy` | the Kohonen map as a class over an n x n grid |
| `BigramBayespam` | `bayespam.dfy` | the `Counter` class, word cleaning, splitting, `read_file`, and the bigram pairing of `read_messages` |

Each loop of the source is a Dafny method with loop invariants. Each method
is proved equal to a recursive specification function, and the lemmas state
what the source promises about those functions:
- partitions of the training indices;
- nearest and best-matching cells;
- the schedule bounds;
- the prototypes staying in the unit cube;
- the round trips between splitting and joining;
- the exact bigrams printed.

## Model

| member | source | states |
|---|---|---|
| `Vectors.SqDist` | cluster/kmeans.py:63-66 | the distance sum of squared component differences is never negative |
| `Vectors.VectorTally` | cluster/kohonen.py:91-98 | the counts for one client vector against one prototype are consistent (hits bounded by requests and by prefetches), and requests and prefetches are at most `dim` |
| `Vectors.VectorTallyZero` | cluster/kmeans.py:94-101 | no request is counted iff no test component exceeds the threshold, and no prefetch iff no prototype component does |
| `Vectors.CountVector` | cluster/kohonen.py:91-98 | the per-dimension counting loop adds exactly the vector's tally to the running counters and keeps them consistent |
| `Vectors.Evaluate` | cluster/kmeans.py:103-104 | zero prefetches fail the first division, zero requests fail the second after accuracy was set, otherwise both rates are set; accuracy x prefetch = hits and hitrate x requests = hits; both rates lie in [0, 1] for consistent counts |
| `Kmeans.OwnerPartitions` | cluster/kmeans.py:49-50 | memberships that agree with an owner table split the indices 0..n-1 over the clusters, each index in exactly one |
| `Kmeans.MemberSumInsert` | cluster/kmeans.py:35-37 | adding one member adds its row's component to the sum, independent of the order the set is visited in |
| `Kmeans.MemberSum` | cluster/kmeans.py:35-37 | one prototype component summed over the members' rows; its behaviour is stated by `MemberSumInsert` and `MemberSumEmpty` |
| `Kmeans.Mean` | cluster/kmeans.py:38-40 | the member sum divided by the member count, the value `RecomputedIsMeanIffZero` compares a recomputed component with |
| `Kmeans.MemberSumEmpty` | cluster/kmeans.py:35-37 | no members sum to zero |
| `Kmeans.Recomputed` | cluster/kmeans.py:33-44 | a recomputed prototype keeps its dimension |
| `Kmeans.CalcPrototypes` | cluster/kmeans.py:33-44 | recomputation keeps the cluster count and every cluster well formed (dimension `dim`, members below the training count) |
| `Kmeans.RecomputedIsMeanIffZero` | cluster/kmeans.py:36-40 | since the prototype is not reset before summing, a recomputed component equals the members' mean exactly when the old component was zero |
| `Kmeans.SumMembers` | cluster/kmeans.py:35-37 | the summing loop adds every member's row to each of the first 200 components and leaves the rest unchanged |
| `Kmeans.DivideBy` | cluster/kmeans.py:38-40 | the averaging loop divides the first 200 components by the member count when it is positive and changes nothing otherwise |
| `Kmeans.FirstNearest` | cluster/kmeans.py:60-69 | the scan picks an index among the scanned prototypes |
| `Kmeans.FirstNearestIsMinimum` | cluster/kmeans.py:60-69 | the picked prototype is at least as near as every prototype and strictly nearer than every one before it (strict `<` from infinity keeps the first minimum) |
| `Kmeans.Nearest` | cluster/kmeans.py:60-69 | the chosen cluster exists |
| `Kmeans.NearestIsFirstMinimum` | cluster/kmeans.py:60-69 | the chosen cluster is the lowest-indexed one at minimum distance |
| `Kmeans.ReassignedUpTo` | cluster/kmeans.py:59-70 | reassignment changes neither prototypes nor previous members |
| `Kmeans.Reassigned` | cluster/kmeans.py:59-70 | reassignment keeps every cluster well formed |
| `Kmeans.ReassignedStaysWellFormed` | cluster/kmeans.py:59-70 | every prefix of the reassignment loop keeps the clusters well formed |
| `Kmeans.ReassignedMembers` | cluster/kmeans.py:59-70 | after the loop a cluster holds exactly its earlier members plus the indices whose nearest prototype is its own |
| `Kmeans.ReassignedStep` | cluster/kmeans.py:70 | one iteration adds the current index to its nearest cluster and to no other |
| `Kmeans.Iteration` | cluster/kmeans.py:54-77 | one pass keeps the clusters well formed, and its flag is the last cluster's stability |
| `Kmeans.Run` | cluster/kmeans.py:53-77 | the convergence loop keeps the clusters well formed |
| `Kmeans.SeededUpTo` | cluster/kmeans.py:49-50 | the random draw changes only current members |
| `Kmeans.SeededMembers` | cluster/kmeans.py:49-50 | after the draw a cluster holds exactly the indices drawn for it |
| `Kmeans.Seeded` | cluster/kmeans.py:49-50 | the draw keeps the clusters well formed |
| `Kmeans.SeededStaysWellFormed` | cluster/kmeans.py:49-50 | every drawn index is a training index |
| `Kmeans.SeededPartitions` | cluster/kmeans.py:49-50 | from empty clusters the draw puts every training index in exactly one cluster |
| `Kmeans.IterationMembers` | cluster/kmeans.py:54-77 | after a pass a cluster's members are exactly the indices whose nearest recomputed prototype is its own, and its previous members are its members before the pass |
| `Kmeans.IterationPartitions` | cluster/kmeans.py:54-77 | after a pass every training index is in exactly one cluster |
| `Kmeans.RunPartitions` | cluster/kmeans.py:53-77 | after at least one pass the clusters partition the training indices |
| `Kmeans.LastStable` | cluster/kmeans.py:73-77 | the convergence flag: only the last cluster's current and previous members are compared, because each loop iteration overwrites the flag |
| `Kmeans.RunConvergedIsLastStable` | cluster/kmeans.py:72-77 | when the loop stops on the flag, the last cluster's members equal its previous members |
| `Kmeans.TwoClustersLastStableSuffices` | cluster/kmeans.py:72-77 | with at most two clusters and partitioned current and previous members, the last cluster's stability implies every cluster's |
| `Kmeans.FlagIgnoresEarlierClusters` | cluster/kmeans.py:73-77 | with three clusters the flag can report convergence while two clusters swapped members; the witness is a hand-built state with empty prototypes, and is not shown to be reachable from `Iteration` |
| `Kmeans.MembersTally` | cluster/kmeans.py:93-101 | the counts for one cluster's members are consistent |
| `Kmeans.RowTallies` | cluster/kmeans.py:94-101 | every test row's tally is consistent |
| `Kmeans.SetTallyConsistent` | cluster/kmeans.py:92-101 | summing consistent tallies over any member set gives consistent counts |
| `Kmeans.SetTallyEmpty` | cluster/kmeans.py:93 | a cluster without members contributes nothing |
| `Kmeans.SetTallyInsert` | cluster/kmeans.py:93-101 | one more member adds its row's tally exactly once, in any visiting order |
| `Kmeans.MembersTallyEmpty` | cluster/kmeans.py:93 | no members count nothing |
| `Kmeans.MembersTallyInsert` | cluster/kmeans.py:93-101 | one more member adds its test vector's tally against the prototype |
| `Kmeans.ClustersTally` | cluster/kmeans.py:89-101 | the counts over all clusters are consistent |
| `Kmeans.CountMembers` | cluster/kmeans.py:93-101 | the member loop adds exactly the cluster's tally to the counters, whatever order the set is visited in |
| `Kmeans.KMeans.constructor` | cluster/kmeans.py:18-31 | k empty clusters with zero prototypes; both rates zero |
| `Kmeans.KMeans.CalcPrototype` | cluster/kmeans.py:33-44 | every cluster is recomputed; previous members become the old current members, current members are emptied, and an empty cluster's prototype is unchanged |
| `Kmeans.KMeans.NearestCluster` | cluster/kmeans.py:60-69 | the distance loops return the first nearest cluster |
| `Kmeans.KMeans.Reassign` | cluster/kmeans.py:59-70 | the reassignment loop yields the reassigned clusters |
| `Kmeans.KMeans.Step` | cluster/kmeans.py:55-77 | one loop body yields the next pass, and the flag it returns is the last cluster's stability |
| `Kmeans.KMeans.Seed` | cluster/kmeans.py:49-50 | the seeding loop yields the drawn partition |
| `Kmeans.KMeans.Train` | cluster/kmeans.py:46-78 | training is the draw followed by the convergence loop; when it converges the last cluster is stable, and after any pass the clusters partition the training indices |
| `Kmeans.KMeans.CountHits` | cluster/kmeans.py:89-101 | the counting loops give the consistent tally over all clusters' members |
| `Kmeans.KMeans.Test` | cluster/kmeans.py:80-105 | the outcome is that of the tally; accuracy and hit rate are set only as far as the divisions get |
| `SelfOrganisingMap.SeededGrid` | cluster/kohonen.py:21-31 | every cell starts with its drawn training vector and no members |
| `SelfOrganisingMap.Trunc` | cluster/kohonen.py:62-65 | `int` truncates toward zero |
| `SelfOrganisingMap.LearningRate` | cluster/kohonen.py:42 | the learning rate 0.8 x (1 - epoch / epochs); its bounds and decrease are stated by `LearningRateBounds` and `LearningRateDecreases` |
| `SelfOrganisingMap.Radius` | cluster/kohonen.py:43 | the radius n / 2 x (1 - epoch / epochs); its bounds and decrease are stated by `RadiusBounds` and `RadiusDecreases` |
| `SelfOrganisingMap.LearningRateBounds` | cluster/kohonen.py:42 | the learning rate lies in (0, 0.8] |
| `SelfOrganisingMap.LearningRateDecreases` | cluster/kohonen.py:42 | the learning rate strictly decreases over the epochs |
| `SelfOrganisingMap.RadiusBounds` | cluster/kohonen.py:43 | the radius lies in (0, n/2] and the reach in [0, n/2] |
| `SelfOrganisingMap.RadiusDecreases` | cluster/kohonen.py:43 | the radius strictly decreases over the epochs |
| `SelfOrganisingMap.Neighbourhood` | cluster/kohonen.py:62-66 | the clamped bounds around the winner; which cells they cover is stated by `NeighbourhoodCells` |
| `SelfOrganisingMap.NeighbourhoodCells` | cluster/kohonen.py:62-68 | the updated cells are within the reach below the winner and strictly inside it above; the last row and column are never updated; a zero reach updates nothing |
| `SelfOrganisingMap.Blend` | cluster/kohonen.py:70-72 | the new prototype has `dim` components |
| `SelfOrganisingMap.BlendBetween` | cluster/kohonen.py:72 | every moved component lies between its old value and the input's |
| `SelfOrganisingMap.Between` | cluster/kohonen.py:72 | one interpolated component lies between its two ends |
| `SelfOrganisingMap.BlendInUnitCube` | cluster/kohonen.py:72 | moving a unit-cube prototype towards a unit-cube vector stays in the unit cube |
| `SelfOrganisingMap.Moved` | cluster/kohonen.py:67-73 | the neighbourhood update keeps the grid's shape |
| `SelfOrganisingMap.MovedRow` | cluster/kohonen.py:68-73 | one row of the update keeps its shape |
| `SelfOrganisingMap.MovedCell` | cluster/kohonen.py:67-73 | a cell inside the region is blended towards the input; any other cell is unchanged |
| `SelfOrganisingMap.Cleared` | cluster/kohonen.py:45-47 | clearing keeps the grid's shape |
| `SelfOrganisingMap.Joined` | cluster/kohonen.py:74 | recording a member keeps the grid's shape |
| `SelfOrganisingMap.Probe` | cluster/kohonen.py:54-60 | one cell of the scan: the running distance grows by the squared distance and is rooted, and the cell is kept when the result is at most the minimum so far; `ProbeSummarises` states the invariant it keeps |
| `SelfOrganisingMap.ProbeSummarises` | cluster/kohonen.py:54-60 | one probe keeps the scan invariant: the kept cell has the least running value so far, strictly less than all later ones |
| `SelfOrganisingMap.ScanRowSummarises` | cluster/kohonen.py:53-60 | the invariant holds across a row |
| `SelfOrganisingMap.ScanRowsSummarises` | cluster/kohonen.py:52-60 | the invariant holds across the whole grid |
| `SelfOrganisingMap.Bmu` | cluster/kohonen.py:50-60 | the best-matching cell lies in the grid |
| `SelfOrganisingMap.BmuIsLastMinimum` | cluster/kohonen.py:50-60 | the best-matching cell has the least running value, and every later cell a strictly greater one (`<=` keeps the last minimum) |
| `SelfOrganisingMap.BmuNeedNotBeNearest` | cluster/kohonen.py:50-56 | because `distance` is never reset between cells, a 2 x 2 grid exists whose best-matching cell is not the nearest |
| `SelfOrganisingMap.Present` | cluster/kohonen.py:49-74 | presenting one vector keeps the grid's shape |
| `SelfOrganisingMap.PresentPrototype` | cluster/kohonen.py:62-73 | one presentation blends exactly the cells of the winner's neighbourhood |
| `SelfOrganisingMap.PresentMembers` | cluster/kohonen.py:74 | one presentation adds the index to the winner and to no other cell |
| `SelfOrganisingMap.Presented` | cluster/kohonen.py:49 | `range(len(traindata) - 1)`: one vector fewer than the training data, and none for empty data |
| `SelfOrganisingMap.PresentUpTo` | cluster/kohonen.py:49-74 | presenting a prefix keeps the grid's shape |
| `SelfOrganisingMap.Epoch` | cluster/kohonen.py:41-74 | one epoch keeps the grid's shape |
| `SelfOrganisingMap.TrainedUpTo` | cluster/kohonen.py:41-74 | training keeps the grid's shape |
| `SelfOrganisingMap.Winners` | cluster/kohonen.py:50-60 | one winner per presented vector, each in the grid |
| `SelfOrganisingMap.PresentUpToMembers` | cluster/kohonen.py:49-74 | a cell holds index i exactly when it held it before or was the winner when vector i was presented |
| `SelfOrganisingMap.OwnerTablePartitions` | cluster/kohonen.py:74 | memberships that agree with an owner table split the indices over the cells |
| `SelfOrganisingMap.EpochPartitions` | cluster/kohonen.py:45-74 | after an epoch every index 0..len(traindata)-2 is in exactly one cell and the last index in none |
| `SelfOrganisingMap.TrainedPartitions` | cluster/kohonen.py:41-74 | after training with at least one epoch the same partition holds |
| `SelfOrganisingMap.PresentKeepsEdges` | cluster/kohonen.py:62-68 | one presentation leaves the last row and column unchanged |
| `SelfOrganisingMap.PresentUpToKeepsEdges` | cluster/kohonen.py:49-74 | so does every prefix of an epoch |
| `SelfOrganisingMap.EpochKeepsEdges` | cluster/kohonen.py:41-74 | so does every epoch |
| `SelfOrganisingMap.TrainedKeepsEdges` | cluster/kohonen.py:41-74 | training never changes a prototype of the last row or column |
| `SelfOrganisingMap.PresentInUnitCube` | cluster/kohonen.py:67-73 | one presentation keeps all prototypes in the unit cube |
| `SelfOrganisingMap.PresentUpToInUnitCube` | cluster/kohonen.py:49-74 | so does every prefix of an epoch |
| `SelfOrganisingMap.EpochInUnitCube` | cluster/kohonen.py:41-74 | so does every epoch |
| `SelfOrganisingMap.TrainedInUnitCube` | cluster/kohonen.py:41-74 | training data and seeds in the unit cube keep every prototype there |
| `SelfOrganisingMap.OwnerRow` | cluster/kohonen.py:85-87 | the owner scan over one row; stated by `OwnerRowCases` and `OwnerRowShape` |
| `SelfOrganisingMap.OwnerRows` | cluster/kohonen.py:84-87 | the owner scan over the rows; stated by `OwnerRowsCases` and `OwnerRowsShape` |
| `SelfOrganisingMap.FindOwner` | cluster/kohonen.py:84-87 | the owner found has a prototype of dimension `dim` |
| `SelfOrganisingMap.OwnerRowsShape` | cluster/kohonen.py:84-87 | the rows scan returns the previous owner or a cell of the grid |
| `SelfOrganisingMap.OwnerRowShape` | cluster/kohonen.py:85-87 | one row's scan returns the previous owner or a cell of that row |
| `SelfOrganisingMap.OwnerRowNone` | cluster/kohonen.py:85-87 | a row without the client leaves the scan at the previous owner |
| `SelfOrganisingMap.OwnerRowLast` | cluster/kohonen.py:85-87 | the scan of a row yields the last cell of that row holding the client |
| `SelfOrganisingMap.OwnerRowCases` | cluster/kohonen.py:85-87 | a row without the client keeps the previous owner; otherwise the last cell holding it wins |
| `SelfOrganisingMap.OwnerRowsNone` | cluster/kohonen.py:84-87 | a grid without the client leaves the scan at the previous owner |
| `SelfOrganisingMap.OwnerRowsLast` | cluster/kohonen.py:84-87 | the scan of the grid yields the last cell in row-major order holding the client |
| `SelfOrganisingMap.OwnerRowsCases` | cluster/kohonen.py:84-87 | a grid without the client keeps the previous owner; otherwise the last cell in row-major order holding it wins |
| `SelfOrganisingMap.FindOwnerInPartition` | cluster/kohonen.py:83-87 | in a partitioned grid a held client's owner is its cell, and an unheld client keeps the previous owner |
| `SelfOrganisingMap.TestUpTo` | cluster/kohonen.py:83-98 | the counters stay consistent and the owner's prototype has dimension `dim` |
| `SelfOrganisingMap.TestUpToStep` | cluster/kohonen.py:83-98 | one client more looks up its owner from the previous one and adds its counts |
| `SelfOrganisingMap.TestOutcome` | cluster/kohonen.py:76-102 | the outcome is the owner-read failure exactly when the client loop reads `owner` before any assignment, and otherwise the evaluation of the counters |
| `SelfOrganisingMap.TestOwners` | cluster/kohonen.py:83-89 | with a non-empty partition no client fails, and every client is evaluated against the cell holding it, or against the cell of the last held index once clients pass the held ones |
| `SelfOrganisingMap.TestUnowned` | cluster/kohonen.py:86-92 | with no memberships and dim > 0 the first client reads an unassigned owner |
| `SelfOrganisingMap.SeededGridPartition` | cluster/kohonen.py:21-31 | the seeded grid holds no members |
| `SelfOrganisingMap.TestUpToStaysNone` | cluster/kohonen.py:83-92 | once the owner read fails, the test stays failed |
| `SelfOrganisingMap.MovedIsMovedBefore` | cluster/kohonen.py:67-73 | once the region's rows have been passed, the grid is the moved grid |
| `SelfOrganisingMap.BlendVector` | cluster/kohonen.py:70-72 | the component loop builds the blended prototype |
| `SelfOrganisingMap.Kohonen.constructor` | cluster/kohonen.py:13-31 | the grid is the seeded grid and both rates are zero |
| `SelfOrganisingMap.Kohonen.BestMatchingCell` | cluster/kohonen.py:50-60 | the nested distance loops return the best-matching cell |
| `SelfOrganisingMap.Kohonen.UpdateNeighbourhood` | cluster/kohonen.py:67-73 | the update loops yield the moved grid |
| `SelfOrganisingMap.Kohonen.ClearMembers` | cluster/kohonen.py:45-47 | the clearing loops empty every cell's members and keep its prototype |
| `SelfOrganisingMap.Kohonen.PresentVector` | cluster/kohonen.py:50-74 | one loop body presents the vector |
| `SelfOrganisingMap.Kohonen.PresentAll` | cluster/kohonen.py:49-74 | the loop presents every vector but the last |
| `SelfOrganisingMap.Kohonen.RunEpoch` | cluster/kohonen.py:42-74 | one epoch with its learning rate and reach |
| `SelfOrganisingMap.Kohonen.Train` | cluster/kohonen.py:33-74 | training runs all epochs |
| `SelfOrganisingMap.Kohonen.FindOwnerOf` | cluster/kohonen.py:84-87 | the owner loops return the scanned owner |
| `SelfOrganisingMap.Kohonen.CountClients` | cluster/kohonen.py:83-98 | the client loop fails exactly when the specification does, and otherwise returns its counts |
| `SelfOrganisingMap.Kohonen.Test` | cluster/kohonen.py:76-102 | the outcome is the specified one; accuracy and hit rate are set only as far as the divisions get |
| `BigramBayespam.Counter.constructor` | Bayespam/bigram_bayespam.py:16-20 | both counts and both probabilities start at zero |
| `BigramBayespam.Counter.IncrementCounter` | Bayespam/bigram_bayespam.py:22-31 | the count of the message's type rises by one; the other count and the probabilities are unchanged |
| `BigramBayespam.LowerChar` | Bayespam/bigram_bayespam.py:84 | the result is not upper-case; an upper-case Latin-1 letter moves down by 32, any other character is unchanged |
| `BigramBayespam.Lower` | Bayespam/bigram_bayespam.py:84 | lower-casing keeps the length |
| `BigramBayespam.Kept` | Bayespam/bigram_bayespam.py:81-83 | the characters of a word outside the punctuation string, in order; stated by `KeptConcat`, `KeptCounts` and `KeptIdempotent` |
| `BigramBayespam.Clean` | Bayespam/bigram_bayespam.py:80-84 | a cleaned word: the kept characters, lower-cased; stated by `CleanChars` |
| `BigramBayespam.KeptConcat` | Bayespam/bigram_bayespam.py:81-83 | filtering distributes over concatenation |
| `BigramBayespam.KeptCounts` | Bayespam/bigram_bayespam.py:81-83 | filtering removes every occurrence of a removed character and keeps every other character's count |
| `BigramBayespam.KeptIdempotent` | Bayespam/bigram_bayespam.py:81-83 | filtering twice is filtering once |
| `BigramBayespam.LowerIdempotent` | Bayespam/bigram_bayespam.py:84 | lower-casing twice is lower-casing once and leaves no upper-case letter |
| `BigramBayespam.CleanChars` | Bayespam/bigram_bayespam.py:80-84 | a cleaned word holds no removed character and no upper-case letter, and gains no space |
| `BigramBayespam.LowerCharPunctuation` | Bayespam/bigram_bayespam.py:75-84 | lower-casing never produces a removed character or a space |
| `BigramBayespam.PunctuationsAreNotLetters` | Bayespam/bigram_bayespam.py:75 | no removed character is a lower-case Latin-1 letter |
| `BigramBayespam.CleanWord` | Bayespam/bigram_bayespam.py:80-84 | the character loop and `.lower()` give the cleaned word |
| `BigramBayespam.FirstSpace` | Bayespam/bigram_bayespam.py:78 | the index of a space with no space before it |
| `BigramBayespam.Split` | Bayespam/bigram_bayespam.py:78 | at least one piece, none containing a space |
| `BigramBayespam.JoinSplit` | Bayespam/bigram_bayespam.py:78 | joining the pieces with spaces gives the line back |
| `BigramBayespam.SplitJoin` | Bayespam/bigram_bayespam.py:78 | splitting a join of space-free pieces gives the pieces back |
| `BigramBayespam.LineTokens` | Bayespam/bigram_bayespam.py:78-84 | one token per piece of the line |
| `BigramBayespam.LongWords` | Bayespam/bigram_bayespam.py:85-86 | the kept tokens are words of at least four characters, and every long cleaned token is kept |
| `BigramBayespam.FileTokensAreWords` | Bayespam/bigram_bayespam.py:77-87 | every token returned is a cleaned word of at least four characters without spaces, and every such cleaned piece of any line is returned |
| `BigramBayespam.FileTokens` | Bayespam/bigram_bayespam.py:77-87 | what `read_file` returns: the cleaned pieces of every line with at least four characters, in order; stated by `FileTokensAreWords` |
| `BigramBayespam.ReadFile` | Bayespam/bigram_bayespam.py:73-87 | the loops return the file's long cleaned tokens in order |
| `BigramBayespam.Step` | Bayespam/bigram_bayespam.py:128-151 | one token of the pairing machine: the new bigram and index, and the bigram printed if one is completed; stated by `FeedStep` and `PairingReachable` |
| `BigramBayespam.Feed` | Bayespam/bigram_bayespam.py:128-151 | the pairing machine run over a token sequence; stated by `FeedPairs` and `FeedAppend` |
| `BigramBayespam.Pairs` | Bayespam/bigram_bayespam.py:128-134 | one bigram per two tokens |
| `BigramBayespam.FeedPairs` | Bayespam/bigram_bayespam.py:96-151 | from the fresh state the machine prints exactly tokens 2k and 2k+1 joined by a space, for every k, and ends fresh after an even count or holding the last token after an odd one |
| `BigramBayespam.PairsGrow` | Bayespam/bigram_bayespam.py:128-134 | one token more adds a bigram after an odd count and none after an even count |
| `BigramBayespam.PairingReachable` | Bayespam/bigram_bayespam.py:128-151 | the index is always 0 or 1 and equals the token count mod 2, so the vocabulary branch of lines 136-146 is never taken |
| `BigramBayespam.FeedStep` | Bayespam/bigram_bayespam.py:128-151 | feeding one token more is one step more |
| `BigramBayespam.FeedAppend` | Bayespam/bigram_bayespam.py:109-151 | feeding two runs of tokens is feeding the second from where the first ended |
| `BigramBayespam.MessageTokens` | Bayespam/bigram_bayespam.py:115-126 | the tokens of one message: the cleaned pieces of its lines in order, without a length filter; stated by `MessageTokensSnoc` and `OneWordMessage` |
| `BigramBayespam.MessagesTokens` | Bayespam/bigram_bayespam.py:109-126 | the tokens of all messages, one message after another; stated by `TwoMessages` |
| `BigramBayespam.MessageTokensSnoc` | Bayespam/bigram_bayespam.py:115-119 | one line more feeds that line's tokens after the earlier ones |
| `BigramBayespam.OneWordLine` | Bayespam/bigram_bayespam.py:117-126 | a line without spaces is one token |
| `BigramBayespam.OneWordMessage` | Bayespam/bigram_bayespam.py:115-126 | a one-line one-word message is one token |
| `BigramBayespam.BigramSpansMessages` | Bayespam/bigram_bayespam.py:96-134 | since the state is set up once per call, the last word of one message and the first of the next form a bigram |
| `BigramBayespam.TwoMessages` | Bayespam/bigram_bayespam.py:109-115 | two messages feed the first's tokens, then the second's |
| `BigramBayespam.Bayespam.constructor` | Bayespam/bigram_bayespam.py:36-39 | the vocabulary starts empty |
| `BigramBayespam.Bayespam.ReadMessages` | Bayespam/bigram_bayespam.py:89-151 | the message and line loops print exactly the consecutive token pairs of all messages, taken together |
| `BigramBayespam.Bayespam.PairTokens` | Bayespam/bigram_bayespam.py:117-151 | the token loop of one line ends in the state, and prints the bigrams, that feeding the line's tokens gives |

## Left out

- Randomness: `random.randint` in both clusterers is an input sequence of choices (`choices`, `seeds`). Any draw the source could make is allowed.
- Floating point: vectors are `real`, so rounding, `inf` and `NaN` are not modelled. K-Means compares squared distances: `math.sqrt` is monotone, so the comparison order is unchanged.
- The Kohonen square root is a parameter `sqrt: real -> real`, because its running value is fed back into the next root. `BmuNeedNotBeNearest` assumes only that the function is strictly monotone with sqrt(1) = 1.
- `Kmeans.Run`: the `while not converged` loop runs on fuel. A run that never converges is not modelled, and neither is what happens after the fuel ends.
- `Kmeans.KMeans.CalcPrototype`: requires `dim >= 200`, because `range(200)` with fewer components raises `IndexError` as soon as a cluster has a member, and that error path is not modelled.
- `Kmeans.KMeans.Test` and `Kmeans.KMeans.CountHits` require every member to index a test row. The source raises `IndexError` otherwise.
- `SelfOrganisingMap.Kohonen.Test` requires `len(traindata) <= len(testdata)`. The source raises `IndexError` otherwise.
- `SelfOrganisingMap.Kohonen.Train` requires `n > 0`, at most one training vector, or no epochs. With `n = 0`, two or more training vectors and at least one epoch, the source reads an unbound `min_d1`; that error is not modelled.
- `Kmeans.KMeans.Train` and `Kmeans.KMeans.Step` require at least one cluster. With `k = 0` the source raises `ValueError` from `randint(0, -1)` when there is training data, and loops forever when there is none, because `converged` is never set; neither behaviour is modelled.
- `SelfOrganisingMap.Kohonen.constructor` requires every seed to index a training vector, which excludes `n > 0` with no training data. There the source raises `ValueError` from `randint(0, -1)`; that error is not modelled.
- The `ZeroDivisionError` of `test` in both clusterers is an `Outcome` value, not an exception. The rates assigned before the error are kept, as the source keeps them.
- Object identity and aliasing: clusters and cells are values. In kohonen.py a seeded prototype is the same list as its training row, but it is only ever replaced, never mutated, so the model does not lose anything.
- Output: `print_test`, `print_members`, `print_prototypes` and `print_vocab` are not modelled. The bigrams that `read_messages` prints are the sequence `ReadMessages` returns.
- File and directory access: `list_dirs`, `open` and argument parsing are not modelled. A file is its sequence of lines and a message list is a sequence of messages, because they are I/O.
- `read_messages`' invalid message-type branch (lines 102-105) is not modelled, because `MessageType` has only two values. Its exception handler (lines 153-155) is not modelled either, because nothing in the token loop raises.
- The vocabulary update of lines 136-146 is not modelled. `PairingReachable` proves the branch is never entered, and `PairTokens` marks it with `assert false`. For the same reason, its lookup of `bigram` under a check for `token` is not modelled.
- Lower-casing covers Latin-1 only, the encoding the files are opened with. `str.lower` on other Unicode characters is not modelled.
- The probability and classification parts of bigram_bayespam.py are not part of this model. They are outside the token slice.
