# simpleplayer, modelled in Dafny

This project models the core of `simpleplayer`, a Battlecode 2022 robot player written in
Java. Every robot of a team runs the same player and can coordinate only through the
engine's shared array: 64 words of 16 bits each. The model covers:

- **Communication**: the shared-array protocol.
  - Archon beacons use a sparse codec, `x*H + y + 1`, and a coarse-expiry codec that
    packs a location and a timestamp into one word.
  - Our archons take slots 0-3 and the enemy archons slots 4-7.
  - Two alternating banks of seven per-type unit counters occupy words 8-21.
- **Grid5x5Strategy** (`DemandGrid`): the map is cut into 5x5 blocks. Each block owns two
  bits counted down from word 63:
  - a *worker* bit, where 0 means "send a miner";
  - an *attacker* bit, where 1 means "send fighters".

  Robots scan their block and publish these flags. Miners and fighters then search the
  blocks around them, nearest first.
- **Miner**: how a miner weighs the lead and gold around it. This covers the 3x3 charge
  window `Mat3x3l` (`Window`), the assignment of resources among nearby miners, and the
  choice of where to mine, attack or explore.
- **Directions**: the Java-ordinal conversion, the random permutation of the eight
  directions, and the "toward" and "away from" direction sets.
- **Pathfinding**: direct movement toward a target, then bug navigation around obstacles.
- **Movement policies** (`Movement`): simple, rubble-averse and cautious movement.
- **BFS**: the oracle-or-greedy fallback.
- **BooleanGrid**: the bit-packed visited set.
- **MapSymmetry**: the three map symmetries.

Conventions:

- The engine itself (`battlecode.common`) is not part of this model. `Engine` states the
  little of it the player relies on, and calls into the engine become parameters:
  - the shared array's contents;
  - the round number;
  - sensed robots, lead, gold and rubble;
  - `canMove`;
  - a random bit stream.
- The engine's constants `MAP_MAX_WIDTH`, `MAP_MAX_HEIGHT` and `GAME_MAX_NUMBER_OF_ROUNDS`
  are a parameter `Consts`. The model assumes only that the largest map fits one 16-bit
  word.
- Java `int` arithmetic is modelled where it can differ from unbounded integers:
  - truncating `/` and `%`;
  - `long` shift distances taken modulo 64;
  - 64-bit words as `bv64`.

Where the source has a defect, the model keeps two versions of the operation:

- one *as written*, together with a lemma that exhibits the defect;
- one *corrected*, with the intended property proved about it.

The rest of the model uses the corrected version. See "## Findings".

## Model

| member | source | states |
|---|---|---|
| Communication.Write | src/simpleplayer/Communication.java:110 | a shared-array write is accepted exactly when the index is 0..63 and the value 0..0xFFFF; the written word takes the value and every other word is unchanged |
| Communication.DecodeSparse | src/simpleplayer/Communication.java:113-122 | word 0 and only word 0 decodes to "no location" |
| Communication.SparseRoundTrip | src/simpleplayer/Communication.java:105-122 | an in-bounds location encodes to 1..W*H and decodes back to itself |
| Communication.SparseWriteRead | src/simpleplayer/Communication.java:105-122 | a sparse write of an in-bounds location is accepted and the slot reads back as that location |
| Communication.Granularity | src/simpleplayer/Communication.java:125-126 | the timestamp granularity is at least 1, and W*H cells times the granularity fit in 0xFFFF |
| Communication.TimestampBelowGranularity | src/simpleplayer/Communication.java:131 | the coarse timestamp of any round of the game lies in 0..granularity-1 |
| Communication.TimestampMonotone | src/simpleplayer/Communication.java:131 | coarse timestamps never decrease as rounds advance |
| Communication.DecodeBeacon | src/simpleplayer/Communication.java:137-154 | word 0 is absent; a word whose stored timestamp is more than one epoch old is expired |
| Communication.BeaconFits | src/simpleplayer/Communication.java:128-135 | a beacon word for an in-bounds location written during the game is nonzero and at most 0xFFFF |
| Communication.BeaconRoundTrip | src/simpleplayer/Communication.java:128-154 | reading a beacon gives back exactly the written location while the reader's epoch is at most one past the writer's, and nothing afterwards |
| Communication.NumPresent | src/simpleplayer/Communication.java:55 | the number of reported slots is at most the number of slots |
| Communication.CompactLength | src/simpleplayer/Communication.java:55-69 | the result array is exactly as long as the number of reported slots |
| Communication.CompactRank | src/simpleplayer/Communication.java:57-69 | each reported slot lands at the position equal to the number of reported slots before it |
| Communication.CompactSource | src/simpleplayer/Communication.java:57-69 | every entry of the result came from a reported slot |
| Communication.Slots | src/simpleplayer/Communication.java:51-54 | the four slots read are the four consecutive words from the base, each decoded with expiry |
| Communication.ReadLocations | src/simpleplayer/Communication.java:50-103 | readArchonLocations/readEnemyArchonLocations return the live beacons of their four slots in slot order, without gaps, and nothing else |
| Communication.FirstFreeFrom | src/simpleplayer/Communication.java:35-40 | the slot found from k has all earlier slots live and is itself free, or is 4 when all are live |
| Communication.InitArchonIndex | src/simpleplayer/Communication.java:34-41 | an archon takes the first of slots 0..3 with no live beacon, or 4 when all four are live |
| Communication.WriteArchonLocation | src/simpleplayer/Communication.java:43-48 | a fresh archon (index -1) picks its slot by initArchonIndex, otherwise it keeps its slot; a valid write reads back this round as the archon's location, and no other word changes |
| Communication.WriteReadSameRound | src/simpleplayer/Communication.java:128-154 | a beacon written this round is accepted and reads back this round as the location |
| Communication.EnemyArchonSlotRange | src/simpleplayer/Communication.java:78-79 | archon IDs 2..9 map to the enemy slots 4..7, two consecutive IDs per slot |
| Communication.WriteEnemyArchonLocation | src/simpleplayer/Communication.java:73-80 | for IDs 2..9 the enemy archon's location reads back from its slot this round; no other word changes |
| Communication.ClearUnitCounts | src/simpleplayer/Communication.java:168-188 | when another archon has visibly started counting, nothing changes; otherwise exactly the seven counters of the current round's bank become 0 |
| Communication.IncrementUnitCount | src/simpleplayer/Communication.java:190-198 | the counter of this type in the current bank goes up by one and nothing else changes; the engine refuses the write only when the counter is already 0xFFFF |
| Communication.GetLastTurnUnitCount | src/simpleplayer/Communication.java:200-211 | the result is the seven counters of the bank the previous round counted into |
| Communication.BanksDisjoint | src/simpleplayer/Communication.java:156-211 | consecutive rounds count into different banks; the bank counted in one round is the one read in the next; both banks lie in words 8..21 |
| Communication.IncrementVisibleNextRound | src/simpleplayer/Communication.java:190-211 | an increment in round r shows up as exactly one more of that type in round r+1's last-turn counts, with the other six types unchanged |
| DemandGrid.SlotRange | src/simpleplayer/Grid5x5Strategy.java:132-134 | any block index below 512 names a word of the array, and the block's worker and attacker bits are distinct bits of that word |
| DemandGrid.GridAvoidsComms | src/simpleplayer/Grid5x5Strategy.java:12-17 | block indices below 336 never touch the communication words 0..21 |
| DemandGrid.BlockOfExtended | src/simpleplayer/Grid5x5Strategy.java:22-24 | a location on the map falls in a grid block or in one of the partial strips along the top and right edges |
| DemandGrid.IndexInArray | src/simpleplayer/Grid5x5Strategy.java:132 | every block the grid or its strips contain has an index inside the array's free words |
| DemandGrid.GridIdxInjective | src/simpleplayer/Grid5x5Strategy.java:132 | distinct blocks inside the grid have distinct indices |
| DemandGrid.SlotsDistinct | src/simpleplayer/Grid5x5Strategy.java:132-134 | distinct blocks inside the grid own distinct (word, bit pair) slots |
| DemandGrid.BlockIdx | src/simpleplayer/Grid5x5Strategy.java:132 | the index of an extended block fits the array's free words |
| DemandGrid.WriteFlags | src/simpleplayer/Grid5x5Strategy.java:136-151 | the worker bit ends up 0 exactly when a worker is needed and the attacker bit 1 exactly when an attacker is needed; the word's other 14 bits are unchanged |
| DemandGrid.WriteReport | src/simpleplayer/Grid5x5Strategy.java:132-151 | the report lands in one word of 22..63; that block's two bits carry the report and every other bit of the array is unchanged |
| DemandGrid.MarkAttack | src/simpleplayer/Grid5x5Strategy.java:69-76 | the block's attacker bit becomes 1 and every other bit of the array is unchanged |
| DemandGrid.MarkAttackIdempotent | src/simpleplayer/Grid5x5Strategy.java:69-76 | marking a block twice is the same as marking it once |
| DemandGrid.ReportIsLocal | src/simpleplayer/Grid5x5Strategy.java:132-151 | in block terms, the reporting block reads the new flags, every other grid block reads its old flags, and words 0..21 are untouched |
| DemandGrid.MarkIsLocal | src/simpleplayer/Grid5x5Strategy.java:69-76 | in block terms, the marked block wants attackers and keeps its worker flag; every other grid block is unchanged |
| DemandGrid.SetAttackLocationAsWritten | src/simpleplayer/Grid5x5Strategy.java:61-77 | as written: marks the raw index of the location's block, and never touches words 0..21 |
| DemandGrid.SetAttackLocation | src/simpleplayer/Grid5x5Strategy.java:61-77 | corrected: afterwards a grid block wants attackers exactly when it is the location's block or wanted them before; no worker flag changes |
| DemandGrid.SetAttackLocationIdempotent | src/simpleplayer/Grid5x5Strategy.java:61-77 | setting the same attack location twice is the same as setting it once |
| DemandGrid.UpdateTurnAsWritten | src/simpleplayer/Grid5x5Strategy.java:28-58 | one turn as the source runs it: the report is decided over the tiles its loops visit (a worker when their resources exceed five per miner, the robot itself counted, and fewer than 19 robots are there; an attacker when the enemy's fighters outnumber ours or it has only non-fighters there); a robot not placed to scan changes nothing, one in a grid block publishes exactly that report for its block, and words 0..21 are never touched |
| DemandGrid.UpdateTurn | src/simpleplayer/Grid5x5Strategy.java:28-58 | corrected: the same decisions over every on-map tile of the block, published only from a grid block; no other block's flags change, words 0..21 are never touched, and otherwise the array is untouched |
| DemandGrid.StripAliases | src/simpleplayer/Grid5x5Strategy.java:61-77 | a location in the top partial strip has the same index as the bottom block of the next column |
| DemandGrid.TallMapStrip | src/simpleplayer/Grid5x5Strategy.java:22-57 | on a 10x23 map, (2, 22) lies in the top strip, and a miner standing there does scan |
| DemandGrid.StripMarksOtherBlock | src/simpleplayer/Grid5x5Strategy.java:61-77 | as written, an attack location in the top strip marks the bottom block of the next column; the corrected operation marks nothing |
| DemandGrid.Count | src/simpleplayer/Grid5x5Strategy.java:85-100 | a count over the robots seen is at most their number |
| DemandGrid.Census | src/simpleplayer/Grid5x5Strategy.java:85-107 | the counting loop yields the numbers of our miners and our fighters (each including the robot itself), the number of enemy fighters and archons, and whether any harmless enemy is present |
| DemandGrid.WorthAppend | src/simpleplayer/Grid5x5Strategy.java:112-126 | the resource total over two runs of tiles is the sum of their totals |
| DemandGrid.TilesMembers | src/simpleplayer/Grid5x5Strategy.java:112-114 | the nested countdown loops visit exactly the rectangle of i columns by m rows at (left, bot) |
| DemandGrid.ScanTilesAsWritten | src/simpleplayer/Grid5x5Strategy.java:109-114 | as written, the scan reads exactly the tiles strictly below min(last map column, left+4) and min(last map row, bot+4) |
| DemandGrid.ScanTilesIntended | src/simpleplayer/Grid5x5Strategy.java:109-114 | corrected: the scan reads exactly the tiles of the block that are on the map |
| DemandGrid.ScanSkipsFifthColumn | src/simpleplayer/Grid5x5Strategy.java:112-113 | the block's lower-right tile is on the map and in the block, yet the as-written scan never reads it |
| DemandGrid.ScanTilesAsWrittenWithin | src/simpleplayer/Grid5x5Strategy.java:112-113 | every tile the as-written scan reads is one the corrected scan reads |
| DemandGrid.TotalWorth | src/simpleplayer/Grid5x5Strategy.java:111-126 | the summing loop computes the total worth of the tiles it visits |
| DemandGrid.ScanReport | src/simpleplayer/Grid5x5Strategy.java:127-130 | a worker is needed exactly when resources exceed five per miner and fewer than 19 robots are present; an attacker is needed exactly when the enemy outnumbers our fighters, or has only harmless robots there |
| DemandGrid.UpdatePerTurnAsWritten | src/simpleplayer/Grid5x5Strategy.java:28-58 | as written: a robot that the vision gate stops writes nothing, and words 0..21 are never touched |
| DemandGrid.UpdatePerTurn | src/simpleplayer/Grid5x5Strategy.java:28-58 | corrected: a scanning robot in the grid sets its own block's flags to the report; no other grid block's flags and no communication word change; a robot in a strip or off-centre writes nothing |
| DemandGrid.StripReportLandsOnOtherBlock | src/simpleplayer/Grid5x5Strategy.java:28-58 | as written, a scanning robot in the top strip overwrites both flags of the bottom block of the next column; the corrected update writes nothing |
| DemandGrid.NeighboursExtended | src/simpleplayer/Grid5x5Strategy.java:162-263 | each one-sided neighbour test keeps its probe inside the grid plus strips |
| DemandGrid.NeighboursInGrid | src/simpleplayer/Grid5x5Strategy.java:162-263 | from a block inside the grid, every edge and corner neighbour probed is inside the grid |
| DemandGrid.InGridOnly | src/simpleplayer/Grid5x5Strategy.java:270 | filtering keeps exactly the probed blocks that lie inside the grid |
| DemandGrid.InGridOnlyKeeps | src/simpleplayer/Grid5x5Strategy.java:270 | filtering blocks that all lie inside the grid changes nothing |
| DemandGrid.RingFrom | src/simpleplayer/Grid5x5Strategy.java:266-322 | every block a ring step probes lies inside the grid |
| DemandGrid.Rings | src/simpleplayer/Grid5x5Strategy.java:265-324 | every block the spiral probes lies inside the grid |
| DemandGrid.RingsFrom | src/simpleplayer/Grid5x5Strategy.java:265 | the spiral from ring 2 up to the loop bound probes only blocks inside the grid |
| DemandGrid.ProbesAsWritten | src/simpleplayer/Grid5x5Strategy.java:162-324 | as written, the search probes only blocks of the grid plus strips |
| DemandGrid.Probes | src/simpleplayer/Grid5x5Strategy.java:162-324 | corrected: the search probes only blocks inside the grid |
| DemandGrid.ProbesAgreeInGrid | src/simpleplayer/Grid5x5Strategy.java:162-324 | from a block inside the grid, the corrected and as-written probe orders are identical |
| DemandGrid.StripSearchProbesOutside | src/simpleplayer/Grid5x5Strategy.java:187-198 | from the right-hand strip the as-written search probes a block outside the grid, which the corrected search never probes |
| DemandGrid.FirstWanted | src/simpleplayer/Grid5x5Strategy.java:169-173 | the search finds nothing exactly when no probed block asks for help; a block found was probed and asks for help |
| DemandGrid.FirstWantedIsFirst | src/simpleplayer/Grid5x5Strategy.java:162-326 | the block found is the first probed one that asks for help |
| DemandGrid.FirstWantedAppend | src/simpleplayer/Grid5x5Strategy.java:162-326 | searching a concatenation searches the first part, then the second |
| DemandGrid.FindClosestAsWritten | src/simpleplayer/Grid5x5Strategy.java:154-502 | as written, findClosestMiningLocation and findClosestAttackLocation return the centre of an extended block whose flag asks for help |
| DemandGrid.FindClosest | src/simpleplayer/Grid5x5Strategy.java:154-502 | corrected: absent exactly when no probed block asks for help; otherwise the centre of the first probe, in the source's nearest-first order, that asks, every earlier probe asking for nothing, and that block is in the grid |
| DemandGrid.FindClosestAgreesInGrid | src/simpleplayer/Grid5x5Strategy.java:154-502 | for a robot inside the grid, the corrected search returns what the source returns |
| DemandGrid.OrthogonalFirst | src/simpleplayer/Grid5x5Strategy.java:162-210 | an edge neighbour that asks for help wins over every corner neighbour and every ring block |
| DemandGrid.RingSkips | src/simpleplayer/Grid5x5Strategy.java:266 | since i runs from 2r-2 down to 0, each ring misses the four blocks next to its corners |
| DemandGrid.RingStepDistance | src/simpleplayer/Grid5x5Strategy.java:268-311 | the four blocks of a ring step lie at Chebyshev distance r from the robot's block |
| DemandGrid.RingDistance | src/simpleplayer/Grid5x5Strategy.java:265-322 | every block of ring r lies at Chebyshev distance exactly r |
| Bits.SetBit | src/simpleplayer/Grid5x5Strategy.java:142 | or-ing in a single-bit mask turns that bit on and leaves the other fifteen bits of the word as they were |
| Bits.ClearBit | src/simpleplayer/Grid5x5Strategy.java:139 | and-ing with the complement of a single-bit mask turns that bit off and leaves the other fifteen as they were |
| Bits.WithBit | src/simpleplayer/Grid5x5Strategy.java:136-151 | writing bit k to a given value changes bit k only, and the result is still a 16-bit word |
| Bits.ToBitsIsShift | src/simpleplayer/Grid5x5Strategy.java:170 | the k-th binary digit of a non-negative value is what shifting right by k and masking with 1 reads |
| Bits.BitsDetermine | src/simpleplayer/Grid5x5Strategy.java:136-151 | two 16-bit words that agree on every bit are equal |
| Bits.FromToBits | src/simpleplayer/Grid5x5Strategy.java:170 | reading a word's binary digits back gives the word |
| Bits.ToFromBits | src/simpleplayer/Grid5x5Strategy.java:170 | the digits of the number a bit sequence denotes are that sequence |
| Window.Get | src/simpleplayer/Mat3x3l.java:6-37 | get(x, y) is field mXY for x, y in 0..2, and -1 for any other pair, including the pairs whose inner switch falls through into the next column |
| Window.GetWith | src/simpleplayer/Mat3x3l.java:6-37 | after assigning a cell, get reads the new value there and the old value everywhere else |
| Window.Extensionality | src/simpleplayer/Mat3x3l.java:4-37 | two windows on which get agrees at all nine cells are equal |
| Window.NumPositive | src/simpleplayer/Mat3x3l.java:39-49 | numPositive lies in 0..9 |
| Window.PositiveCells | src/simpleplayer/Mat3x3l.java:39-49 | the one-per-cell count lies in 0..9 |
| Window.NumPositiveWeights | src/simpleplayer/Mat3x3l.java:40-48 | as written, numPositive counts m12 and m22 twice and m10 and m20 not at all, and every other cell once |
| Window.NumPositiveIgnoresBottomRow | src/simpleplayer/Mat3x3l.java:40-48 | changing m10 or m20 never changes numPositive |
| Window.NumPositiveCountsTwice | src/simpleplayer/Mat3x3l.java:43-46 | m12 turning positive raises numPositive by two |
| Window.NumPositiveMonotone | src/simpleplayer/Mat3x3l.java:39-49 | raising any cells never lowers numPositive |
| Window.Plus | src/simpleplayer/Mat3x3l.java:4 | adding two windows adds them cell by cell |
| Miner.BuildWindow | src/simpleplayer/Miner.java:66-217 | m11 is the robot's own lead plus gold; on a map at least 2x2, every cell over an on-map tile is refreshed with that tile's lead plus gold, and every cell over an off-map tile keeps its value from the previous turn |
| Miner.DeductAsWrittenCharges | src/simpleplayer/Miner.java:223-389 | the written switch subtracts 10 from exactly the cells ChargedAsWritten names for its key: the claims pattern, except the (1, -2) and (1, 2) cases; unknown keys and key (0, 0) subtract nothing |
| Miner.DeductIntendedCharges | src/simpleplayer/Miner.java:223-389 | corrected: a miner at offset (dx, dy) takes 10 from exactly the window cells, other than ours, within one step of it |
| Miner.DiagonalNeighbourIgnored | src/simpleplayer/Miner.java:229-231 | a miner diagonally below-left, which claims m00, is keyed (0, 0) by the source and charged nothing |
| Miner.SlantCaseMischarges | src/simpleplayer/Miner.java:327-357 | the (1, -2) case charges m00, which that miner is not next to, and misses m20, which it is |
| Miner.DeductForCharges | src/simpleplayer/Miner.java:223-389 | one miner's deduction, as written or corrected, subtracts 10 from exactly the cells charged for it |
| Miner.DeductionsHits | src/simpleplayer/Miner.java:225-389 | after the loop, each cell has lost 10 for every miner that charges it |
| Miner.HitsAppend | src/simpleplayer/Miner.java:225 | the charges from two lists of miners add up |
| Miner.HitsPermutation | src/simpleplayer/Miner.java:225-389 | the number of charges a cell receives does not depend on the order of the miners |
| Miner.DeductionsOrderIndependent | src/simpleplayer/Miner.java:225-389 | any reordering of minersToConsider leaves the same final window |
| Miner.CentreNeverCharged | src/simpleplayer/Miner.java:223-389 | no miner ever charges our own tile m11 |
| Miner.MinersOf | src/simpleplayer/Miner.java:47-62 | minersToConsider holds exactly the locations of the nearby robots that are miners, and is no longer than the nearby list |
| Miner.AssignWith | src/simpleplayer/Miner.java:23-396 | with more than seven nearby miners the result is 0 and the window is untouched; otherwise the count is numPositive of the final window, m11 is our own tile's resources, and every cell is its refreshed value minus 10 per charging miner |
| Miner.AssignResourcesAsWritten | src/simpleplayer/Miner.java:23-396 | the as-written assignResources is AssignWith with the source's switch, and its count lies in 0..9 |
| Miner.AssignResources | src/simpleplayer/Miner.java:23-396 | corrected: past seven nearby miners it reports no tiles and keeps the old window; otherwise the centre is our own tile's resources, each cell is its refreshed value minus 10 for every miner within one step of it, and the count is numPositive of that window, in 0..9 |
| Miner.NonAdjacentFar | src/simpleplayer/Miner.java:462-472 | a tile not within one step is at distance squared at least 4, so stopping at 4 loses nothing |
| Miner.NearestUnassigned | src/simpleplayer/Miner.java:455-502 | the nearest non-adjacent gold tile wins; only when there is none is the nearest non-adjacent lead tile with at least 2 lead chosen; absent when neither exists |
| Miner.ScanTiles | src/simpleplayer/Miner.java:457-499 | each backward loop with its early break at radius 4 finds the same tile as a full scan for the nearest qualifying tile |
| Miner.ClosestResource | src/simpleplayer/Miner.java:455-502 | the two loops compute NearestUnassigned |
| Miner.FindClosestFighter | src/simpleplayer/Miner.java:399-417 | absent exactly when no visible ally can attack (rooted watchtowers excluded); otherwise the location of a nearest such ally |
| Miner.ChooseTarget | src/simpleplayer/Miner.java:511-533 | the target is a visible resource that still holds something; else the closest fighter; else the previous target unless within distance squared 2; else the grid search's block; else the random tile |
| Miner.MinerStep | src/simpleplayer/Miner.java:433-535 | past seven nearby miners the miner never stays; otherwise it stays, remembering its own tile and not pathing, exactly when numPositive of its charged window is at least 5; when it moves it paths toward, and remembers, ChooseTarget's choice |
| Miner.StayNeedsThreeCells | src/simpleplayer/Miner.java:439-446 | a miner that stays has at least three distinct window cells with resources left to it, although five are counted |
| Miner.ChooseTargetIsCandidate | src/simpleplayer/Miner.java:511-533 | the next target is the closest resource, the closest fighter, the previous target, the grid search's block or the random tile, nothing else |
| Select.ScanIsBest | src/simpleplayer/Miner.java:457-475 | the descending scan with a strict less-than finds a candidate exactly when one qualifies, and the one it keeps has the smallest key, ties going to the highest index |
| Select.BestUnique | src/simpleplayer/Miner.java:457-475 | only one index has that property, so the scan's answer is determined by the candidates alone |
| Select.ScanStable | src/simpleplayer/Miner.java:467-473 | once the best so far has a key no remaining element can beat, stopping the loop early gives the same answer as finishing it |
| Select.ScanSuffix | src/simpleplayer/Miner.java:458-475 | after visiting the elements from the last down to index i the scan holds the best of that suffix, and holds nothing exactly when the suffix has no candidate |
| Directions.DirToInt | src/simpleplayer/Directions.java:20-41 | dirToInt is -1 exactly for CENTER, and otherwise the position of the direction in ACTUAL_DIRECTIONS |
| Directions.DirToIntOfActual | src/simpleplayer/Directions.java:20-41 | dirToInt inverts the indexing of ACTUAL_DIRECTIONS |
| Directions.Factorial | src/simpleplayer/Directions.java:51 | the factorial is at least 1, so nextInt's bound is valid |
| Directions.Digits | src/simpleplayer/Directions.java:52-54 | the factorial-number-system expansion of the draw has one digit per round of the outer loop |
| Directions.DigitsBounded | src/simpleplayer/Directions.java:52-54 | the digit taken in round i, index % i, is below i |
| Directions.DigitsRoundTrip | src/simpleplayer/Directions.java:52-54 | the draw is recovered from its digits |
| Directions.FromDigitsStep | src/simpleplayer/Directions.java:53-54 | a round takes the current digit as the remainder, and what remains of the draw is the quotient |
| Directions.DigitsInjective | src/simpleplayer/Directions.java:51-54 | different draws below n! have different digit sequences |
| Directions.FactorialDigit | src/simpleplayer/Directions.java:53-54 | the quotient of a draw below n! is below (n-1)!, so the next round's draw is in range |
| Directions.Without | src/simpleplayer/Directions.java:58-61 | taking one direction off the unused list shortens it by one |
| Directions.Select | src/simpleplayer/Directions.java:52-67 | choosing by digits fills every position |
| Directions.Pick | src/simpleplayer/Directions.java:51-67 | the permutation for a draw has as many entries as there are directions |
| Directions.SelectPermutes | src/simpleplayer/Directions.java:52-67 | choosing by digits rearranges the directions: the same multiset |
| Directions.WithoutDistinct | src/simpleplayer/Directions.java:58-61 | removing one of a list of distinct directions leaves them distinct |
| Directions.SelectInjective | src/simpleplayer/Directions.java:52-67 | over distinct directions, different digit sequences give different permutations |
| Directions.PickPermutes | src/simpleplayer/Directions.java:45-68 | the permutation for any draw is a rearrangement of the eight directions |
| Directions.PickInjective | src/simpleplayer/Directions.java:45-68 | different draws below 8! give different permutations |
| Directions.Free | src/simpleplayer/Directions.java:57-58 | the unused directions in a range number at most the range's length |
| Directions.FreeSplit | src/simpleplayer/Directions.java:57-58 | the unused directions of adjacent ranges concatenate |
| Directions.FreeFrame | src/simpleplayer/Directions.java:61 | marking a direction outside a range leaves that range's unused list alone |
| Directions.FreeAround | src/simpleplayer/Directions.java:57-61 | the unused list splits around an unused direction j |
| Directions.FreeAroundMarked | src/simpleplayer/Directions.java:61 | once j is marked, the unused list is the parts before and after it |
| Directions.WithoutMiddle | src/simpleplayer/Directions.java:61 | removing the middle element of a + [x] + b gives a + b |
| Directions.MarkRemoves | src/simpleplayer/Directions.java:61 | marking the chosen direction removes exactly it, at its position, from the unused list |
| Directions.AllIndices | src/simpleplayer/Directions.java:12-13 | the direction indices are 0..7 in ACTUAL_DIRECTIONS order |
| Directions.NoneUsedFrom | src/simpleplayer/Directions.java:48 | with nothing used from lo on, the unused list is lo, lo+1, ... |
| Directions.NoneUsed | src/simpleplayer/Directions.java:48 | initially every direction is unused, in order |
| Directions.SelectStep | src/simpleplayer/Directions.java:52-62 | one round of choosing, unfolded: the last open position takes the current digit's element |
| Directions.FindUnused | src/simpleplayer/Directions.java:56-66 | the inner loop always finds an unused direction, the one with exactly `selected` unused directions before it |
| Directions.RoundKeeps | src/simpleplayer/Directions.java:52-66 | each round of the outer loop keeps the still-open positions in step with the remaining digits |
| Directions.ChooseRounds | src/simpleplayer/Directions.java:52-67 | the outer loop fills the positions with the permutation the digits select |
| Directions.InitRandomDirections | src/simpleplayer/Directions.java:45-68 | for every draw below 8!, the result is the factorial-number-system permutation of the draw, and a rearrangement of ACTUAL_DIRECTIONS |
| Directions.Gap | src/simpleplayer/Directions.java:70-77 | the rotation distance between two directions is 0..4 |
| Directions.StrictlyToward | src/simpleplayer/Directions.java:70-72 | three entries, the first being the destination direction; they are exactly the directions within one rotation of it |
| Directions.WeaklyToward | src/simpleplayer/Directions.java:74-77 | five entries, beginning with the strict cone; they are exactly the directions within two rotations of it |
| Directions.WeakCone | src/simpleplayer/Directions.java:74-77 | the five directions listed are exactly those within two rotations |
| Directions.TowardDistinct | src/simpleplayer/Directions.java:70-77 | no direction appears twice in either cone |
| Directions.CountTrue | src/simpleplayer/Directions.java:86 | the number of marked entries is at most the length |
| Directions.CountTrueSet | src/simpleplayer/Directions.java:113-123 | marking an entry adds one to the count exactly when it was unmarked |
| Directions.CountTrueNone | src/simpleplayer/Directions.java:85-86 | the fresh all-false array has count 0 |
| Directions.CountTrueAll | src/simpleplayer/Directions.java:125-127 | a count of 8 means every entry is marked |
| Directions.Neighbours | src/simpleplayer/Directions.java:101-111 | ccw and cw are distinct from each other and from the direction, and together with it they are exactly the directions within one rotation, wrapping at 0 and 7 |
| Directions.MarkCone | src/simpleplayer/Directions.java:113-123 | after marking, an entry is true exactly when it was true or is within one rotation of d; the count grows by the number of those three that were unmarked |
| Directions.DirsAwayFrom | src/simpleplayer/Directions.java:79-130 | eight entries; entry i is true exactly when some robot with damage above 0 within distance squared 25 approaches along a direction within one rotation of i; the early exit at a count of 8 does not change the result, and no robots give all false |
| Pathfinding.SetTarget | src/simpleplayer/Pathfinding.java:35-41 | afterwards the target and strategy are the given ones; bug mode survives only when both the target and the strategy object are unchanged; no other field changes |
| Pathfinding.SetTargetIdempotent | src/simpleplayer/Pathfinding.java:35-41 | setting the same target with the same strategy object twice is the same as once |
| Pathfinding.DirectChoice | src/simpleplayer/Pathfinding.java:57-80 | a candidate is allowed by canMove and is the target direction or one of its neighbours; the target direction wins whenever allowed; when both neighbours are allowed the left one is taken exactly when its square is strictly closer; there is none exactly when all three are refused |
| Pathfinding.ResetBugMode | src/simpleplayer/Pathfinding.java:173-203 | the distance at start becomes the current distance squared, dirAtStart and lastMoveDir the direction to the target, both counters 0, and the side the next random bit, which is consumed; nothing else changes |
| Pathfinding.ResetCounters | src/simpleplayer/Pathfinding.java:197-200 | the reset without the random draw leaves the side, the mode, the target and the strategy alone |
| Pathfinding.ResetWouldExitInPlace | src/simpleplayer/Pathfinding.java:173-203 | a freshly reset bug mode passes the exit test from the spot where it began |
| Pathfinding.FlipOverwritten | src/simpleplayer/Pathfinding.java:99-102 | as written, the side after a map-edge reset is the random bit alone: flipping the side first makes no difference |
| Pathfinding.EdgeReset | src/simpleplayer/Pathfinding.java:99-102 | corrected: at a map edge the side is flipped and the counters restart, as resetBugMode sets them |
| Pathfinding.ProbeDirIs | src/simpleplayer/Pathfinding.java:105-125 | the i-th probe is start + i (mod 8) going left and start - i (mod 8) going right |
| Pathfinding.ProbesCover | src/simpleplayer/Pathfinding.java:108-127 | the first eight probes include every direction |
| Pathfinding.Probe | src/simpleplayer/Pathfinding.java:104-127 | the direction found is the first of the eight probes allowed under the counter in force (the incoming value, then 0 after any failure); none is found exactly when all eight are refused, and then canMove refuses every direction but the first; the counter ends at its incoming value if the first probe passes and at 0 otherwise |
| Pathfinding.RotationMod | src/simpleplayer/Pathfinding.java:149-155 | the two remainders taken there are the differences, brought into 0..7 |
| Pathfinding.NumRightRotations | src/simpleplayer/Pathfinding.java:149-151 | lies in 0..7 and is the number of right turns from start to end |
| Pathfinding.NumLeftRotations | src/simpleplayer/Pathfinding.java:153-155 | lies in 0..7 and is the number of left turns from start to end |
| Pathfinding.RotationsSum | src/simpleplayer/Pathfinding.java:149-155 | the two counts sum to 0 when start equals end and to 8 otherwise |
| Pathfinding.BugRotation | src/simpleplayer/Pathfinding.java:157-163 | lies strictly between -8 and 8 and is the difference of the rotation counts on the robot's side |
| Pathfinding.NoTurnAtStart | src/simpleplayer/Pathfinding.java:157-163 | moving in the starting direction, when it was also the last move, adds no turning |
| Pathfinding.NextStart | src/simpleplayer/Pathfinding.java:133-137 | after a bug move, dirAtStart is two steps left of the move going left, and the move itself going right, where a left and a right rotation cancel; two right rotations were probably meant |
| Pathfinding.BugStep | src/simpleplayer/Pathfinding.java:90-140 | one bug-mode turn: the edge check (with the corrected reset), then the probes under the incremented counter; on success the move is allowed, lastMoveDir is the move, numTurns grows by the bug rotation and dirAtStart follows NextStart; on failure lastMoveDir, numTurns and dirAtStart are unchanged and the counter is 0 |
| Pathfinding.PathfindToward | src/simpleplayer/Pathfinding.java:44-143 | at the goal nothing happens and the result is false; the result is true exactly when the robot is not in bug mode after the exit test and a direct candidate exists, and then it moves there and leaves bug mode; otherwise it ends in bug mode; every move is one the strategy and the engine allow; the random stream advances only when bug mode starts |
| Movement.AtGoal | src/simpleplayer/RubbleAverseMovement.java:19-21 | every strategy is at its goal exactly when the robot stands on the target (SimpleMovement and CautiousMovement say the same) |
| Movement.InEnemyRange | src/simpleplayer/CautiousMovement.java:43-54 | true exactly when some enemy that can attack has the location within its action radius squared |
| Movement.CanMove | src/simpleplayer/RubbleAverseMovement.java:30-36 | canMove implies the engine's canMove; rubble-averse refuses exactly the on-map destinations at or above the threshold and otherwise asks the engine; cautious (CautiousMovement.java 30-36) needs the engine's yes and a destination out of every enemy's reach; simple asks the engine |
| Movement.CanMoveIfImpatient | src/simpleplayer/RubbleAverseMovement.java:39-41 | for the simple and rubble-averse strategies impatience is the engine's canMove alone; for the cautious strategy (CautiousMovement.java 39-41) it is canMove itself |
| Movement.ImpatienceRelaxes | src/simpleplayer/RubbleAverseMovement.java:30-41 | whatever canMove allows, canMoveIfImpatient allows, and both imply the engine's canMove |
| Movement.Move | src/simpleplayer/RubbleAverseMovement.java:24-27 | simple and rubble-averse moves record locAtStartOfTurn plus the direction as locAfterMovement; the cautious move (CautiousMovement.java 25-27) leaves it alone |
| Bfs.ResetState | src/simpleplayer/BFS.java:21-24 | greedy turns are 0 and every cell of the visited set reads false; the target is kept |
| Bfs.Update | src/simpleplayer/BFS.java:26-32 | the target is recorded and the robot's cell reads visited; a first or changed target zeroes greedy turns and clears every other cell, while the same target spends a greedy turn and keeps every other cell |
| Bfs.SameTargetKeeps | src/simpleplayer/BFS.java:27-29 | the same target twice in a row never resets |
| Bfs.ActivateGreedy | src/simpleplayer/BFS.java:34-36 | greedy turns become 4 and nothing else changes |
| Bfs.Move | src/simpleplayer/BFS.java:46-73 | with no target, movement not ready or the robot on its target, nothing happens; an oracle step happens only in the non-greedy branch, toward an unvisited cell the engine allows, and records locAtStartOfTurn plus the direction; the greedy step runs only with at least 2500 bytecodes left and spends a greedy turn |
| Bfs.OracleOrGreedy | src/simpleplayer/BFS.java:53-72 | in the non-greedy branch the oracle's direction is taken exactly when it leads to an unvisited cell the engine allows; no direction, or a visited cell, starts four greedy turns, one of them spent at once when bytecodes allow |
| Bfs.NoThrowOnMap | src/simpleplayer/BFS.java:57 | when the oracle's cell lies on the largest map, the visited lookup never fails |
| BooleanGrid.CellIndex | src/simpleplayer/BooleanGrid.java:29-31 | the bit index computed for any cell, after Java masks the shift distance, is one of the 64 bits of a word |
| BooleanGrid.Reset | src/simpleplayer/BooleanGrid.java:24-26 | reset allocates ceil(W*H/64) words, all zero |
| BooleanGrid.Get | src/simpleplayer/BooleanGrid.java:28-33 | get fails (the array access throws) exactly when the cell's word lies outside the array; otherwise it is true exactly when the cell's bit of that word is set |
| BooleanGrid.GetAt | src/simpleplayer/BooleanGrid.java:35-40 | the MapLocation overload of get agrees with get(x, y) |
| BooleanGrid.Put | src/simpleplayer/BooleanGrid.java:42-68 | a write fails exactly when the word lies outside the array; otherwise only the cell's word changes, by setting or clearing the cell's bit |
| BooleanGrid.SetTrue | src/simpleplayer/BooleanGrid.java:42-47 | after setTrue the cell reads true; setTrue fails exactly when get would |
| BooleanGrid.SetFalse | src/simpleplayer/BooleanGrid.java:56-61 | after setFalse the cell reads false; setFalse fails exactly when get would |
| BooleanGrid.PutAt | src/simpleplayer/BooleanGrid.java:49-68 | the MapLocation overloads of setTrue and setFalse agree with the (x, y) ones |
| BooleanGrid.CellDecides | src/simpleplayer/BooleanGrid.java:46-60 | setting or clearing a bit decides that bit |
| BooleanGrid.CellKeeps | src/simpleplayer/BooleanGrid.java:46-60 | setting or clearing a bit leaves every other bit of the word |
| BooleanGrid.SetDecides | src/simpleplayer/BooleanGrid.java:46 | or-ing in a bit sets it |
| BooleanGrid.ClearDecides | src/simpleplayer/BooleanGrid.java:60 | and-ing with the complement clears the bit |
| BooleanGrid.Disjoint | src/simpleplayer/BooleanGrid.java:46-60 | the single-bit masks of two different bits share no bit |
| BooleanGrid.OrKeeps | src/simpleplayer/BooleanGrid.java:46 | or-ing in bits outside a mask leaves the word's bits under the mask |
| BooleanGrid.AndNotKeeps | src/simpleplayer/BooleanGrid.java:60 | clearing bits outside a mask leaves the word's bits under the mask |
| BooleanGrid.SetKeeps | src/simpleplayer/BooleanGrid.java:46 | or-ing in bit b leaves every other bit |
| BooleanGrid.ClearKeeps | src/simpleplayer/BooleanGrid.java:60 | clearing bit b leaves every other bit |
| BooleanGrid.ShiftTest | src/simpleplayer/BooleanGrid.java:32 | the test shift right then and 1 is nonzero exactly when the bit is set in the word |
| BooleanGrid.ShiftRoundTrip | src/simpleplayer/BooleanGrid.java:31 | a bit index 0..63 survives the conversion to a shift distance |
| BooleanGrid.DistinctShifts | src/simpleplayer/BooleanGrid.java:31 | different bit indices give different shift distances |
| BooleanGrid.SetBitReads | src/simpleplayer/BooleanGrid.java:28-68 | a cell read after a successful write holds the written value, and the write fails exactly when the read does |
| BooleanGrid.GridIdxBounds | src/simpleplayer/BooleanGrid.java:25-31 | a cell of the largest map has gridIdx in 0..W*H-1, and its word lies inside the array reset allocates |
| BooleanGrid.InRangeIndex | src/simpleplayer/BooleanGrid.java:29-31 | for cells of the largest map Java's truncating division and remainder are plain division |
| BooleanGrid.GridIdxInjective | src/simpleplayer/BooleanGrid.java:29 | distinct cells of the largest map have distinct gridIdx |
| BooleanGrid.SplitInjective | src/simpleplayer/BooleanGrid.java:30-31 | distinct gridIdx values differ in word or in bit |
| BooleanGrid.CellsDistinct | src/simpleplayer/BooleanGrid.java:29-31 | distinct cells of the largest map never share a word and a bit |
| BooleanGrid.ResetAllFalse | src/simpleplayer/BooleanGrid.java:24-33 | after reset every cell of the largest map reads false |
| BooleanGrid.PutFrame | src/simpleplayer/BooleanGrid.java:42-68 | setTrue or setFalse on one cell of the largest map succeeds and leaves every other cell as it was |
| BooleanGrid.WordFrame | src/simpleplayer/BooleanGrid.java:46-60 | writing one bit of one word leaves every other bit of every word |
| BooleanGrid.PutReads | src/simpleplayer/BooleanGrid.java:42-68 | a write to a cell of the largest map succeeds, keeps the array's length, and reads back as the written value |
| BooleanGrid.WestEdgeAliases | src/simpleplayer/BooleanGrid.java:29 | the cell just west of column 0 in row y is stored in the same bit as the last column of row y-1, and reads the same |
| MapSymmetry.Init | src/simpleplayer/MapSymmetry.java:19-24 | as written: init rules out only the rotational symmetry, and only on a non-square map; the other two flags are untouched |
| MapSymmetry.AllMapOntoItself | src/simpleplayer/MapSymmetry.java:56-66 | every one of the three symmetries sends each location of any rectangular map to a location of that map |
| MapSymmetry.RotationRuledOutOnNonSquare | src/simpleplayer/MapSymmetry.java:20-22 | on a 20x30 map the half-turn keeps every location on the map, yet init rules rotational symmetry out |
| MapSymmetry.InitIntended | src/simpleplayer/MapSymmetry.java:19-24 | corrected: a symmetry stays possible exactly when it was possible and sends every location of the map onto the map, so the shape of the map rules out nothing |
| MapSymmetry.Involutions | src/simpleplayer/MapSymmetry.java:56-66 | each of the three symmetries undoes itself |
| MapSymmetry.StayOnMap | src/simpleplayer/MapSymmetry.java:56-66 | each symmetry maps locations on the map to locations on the map |
| MapSymmetry.RotationComposes | src/simpleplayer/MapSymmetry.java:56-66 | the half-turn is the two reflections one after the other, in either order |
| MapSymmetry.SymmetricCoords | src/simpleplayer/MapSymmetry.java:43-54 | index 1 gives the half-turn, index 2 the horizontal reflection, and index 0 or any other index the vertical reflection |
| MapSymmetry.AllSymmetricCoords | src/simpleplayer/MapSymmetry.java:26-41 | one image per possible symmetry, in the order vertical, rotational, horizontal, and each image is the one getSymmetricCoords gives for its symmetry |
| MapSymmetry.SquareKeepsAll | src/simpleplayer/MapSymmetry.java:19-41 | on a square map all three symmetries stay possible, and all three images lie on the map |

## Left out

- Engine calls (`battlecode.common`): reading and writing the shared array, sensing, `canMove`/`move`, `onTheMap`, `directionTo` and the clock. They appear only as parameters and results, and the engine's own behaviour is not part of this model.
- Direction conventions are assumptions: the order of `ACTUAL_DIRECTIONS`, `rotateLeft`/`rotateRight` as a step of one in that order, and the unit offsets with north as +y. `RobotType.canAttack` is likewise assumed to hold for watchtowers, soldiers and sages.
- `java.util.Random` and `Util.factorial`: the permutation index is an input below 8!, and the random booleans are an injected bit stream. The generator's algorithm is not modelled.
- `Integer.MAX_VALUE` sentinels are modelled as "no best yet". The squared distances involved are far below 2^31.
- `showDebug` and the other debug drawing are left out because they only draw indicators.
- The miner's flee step and `tryMiningAdjacentTiles` are left out: they issue engine actions and decide nothing the model's properties depend on.
- `Miner.java` role code outside the resource assignment, closest-fighter choice and target choice is left out, and so are the other robot roles (archon, soldier, builder and the rest). They sit outside the modelled core.
- DemandGrid.TotalWorth: the `double totalResources` sum is modelled in hundredths of a unit (`TileWorth`), so the comparison with five per worker is exact. With at most 25 tiles the exact sum never sits on a multiple of five unless no tile had lead, so floating-point rounding of `3. / 50.` cannot flip that comparison; the rounding itself is not modelled.
- Grid layouts are required to fit (`GridFits`): every block index, partial strips included, must land in the words below the ones the communication layout uses. The engine's largest map, 60x60, needs 169 indices of the 336 available, but the model states the bound rather than deriving it from the engine's constants.
- A threat standing on the robot's own tile is not modelled. `dirsAwayFrom` takes any robot's `curLoc`, and there `dirToInt(CENTER)` gives -1, which would index `result[-2]`. Two robots cannot share a tile, so the case does not arise.
- Bfs.Move: the greedy fallback (`path.move`, `initTurn`) is an opaque action, and the oracle's `getBestDir` and the remaining bytecode are inputs.
- BooleanGrid: `gridIdx` overflowing 32 bits is not modelled, because a map of at most `MAP_MAX_WIDTH * MAP_MAX_HEIGHT` cells keeps it small.
- The `Movement` interface and `GridStrategy` are thin dispatch layers. `CautiousMovement.setNearbyEnemies` is modelled as the enemy list carried in the policy value.
- Several robots writing the shared array in the same round are not modelled: each operation is one robot's turn.
- Pathfinding.PathfindToward: at a map edge it uses the corrected `EdgeReset`, which keeps the flipped side, not the as-written flip followed by `resetBugMode`'s redraw, which consumes one random bit where the corrected reset consumes none. See "## Findings".
- Movement.AtGoal, Movement.CanMove, Movement.CanMoveIfImpatient, Movement.Move and Movement.InEnemyRange cite `RubbleAverseMovement.java`. The matching `SimpleMovement.java` and `CautiousMovement.java` lines are named in each row's text.

## Findings

| source | as written | input that shows it | evidently intended | confidence | as-written member | corrected member |
|---|---|---|---|---|---|---|
| src/simpleplayer/Miner.java:229-231 | the switch keys are `loc.x - myX + 1` and `loc.y - myY + 1`, while the cases and their comments are laid out for the plain offset | a miner at (4, 4) seen from (5, 5) shares cell m00, yet it lands in case (0, 0) and nothing is charged | switch on the offset itself, so that (-1, -1) charges the cells that miner is next to | high, not executed | Miner.DiagonalNeighbourIgnored | Miner.AssignResources |
| src/simpleplayer/Miner.java:327-357 | the (1, -2) case charges m00 and m10, and the (1, 2) case charges m20 and m10 | a miner at offset (1, -2) is next to m10 and m20 but is charged for m00, which it does not touch | (1, -2) charges m10 and m20, and (1, 2) charges m12 and m22, mirroring the (-1, ±2) cases | high, not executed | Miner.SlantCaseMischarges | Miner.DeductIntendedCharges |
| src/simpleplayer/Grid5x5Strategy.java:61-77 | `gridIdx = gridX * rows + gridY` with `rows = height / 5`, so a location in the partial top strip has `gridY == rows` | on a 10x23 map, an attack at (2, 22) sets the attacker bit of block (1, 0) | a location outside the full grid marks no block | high, not executed | DemandGrid.StripMarksOtherBlock | DemandGrid.SetAttackLocation |
| src/simpleplayer/Grid5x5Strategy.java:28-58 | a robot in the partial top strip still scans and reports under the aliased index | on a 10x23 map, a miner at (2, 22) overwrites both flags of block (1, 0) | a robot outside the full grid reports nothing | high, not executed | DemandGrid.StripReportLandsOnOtherBlock | DemandGrid.UpdatePerTurn |
| src/simpleplayer/Grid5x5Strategy.java:187-198 | from a robot in the partial right strip (`gridX == cols`) the search probes block `(gridX, gridY - 1)` without checking `x < cols`, unlike the spiral probes | on a 23x10 map (a 4x2 grid), a robot at (22, 7) probes block (4, 0), which is outside the grid, and can return (22, 2) when that slot's worker bit is clear | probe only blocks inside the grid, as the spiral's bounds check does | medium, not executed | DemandGrid.StripSearchProbesOutside | DemandGrid.FindClosest |
| src/simpleplayer/Grid5x5Strategy.java:112-113 | the scan loops run `i` from `min(widthm1, left + 4) - left - 1` down to 0, and likewise for `j` | the lower-right tile (left + 4, bot) of a block on a wide enough map is never read, and nor is the top row | read the block's 5x5 tiles that lie on the map | high, not executed | DemandGrid.ScanSkipsFifthColumn | DemandGrid.ScanTilesIntended |
| src/simpleplayer/Pathfinding.java:99-102 | at a map edge `isGoingLeft` is flipped and then `resetBugMode` sets it to `gen.nextBoolean()` | from any state, the side after the edge reset is the next random bit, with or without the flip | keep the flipped side, so the robot follows the wall the other way | high, not executed | Pathfinding.FlipOverwritten | Pathfinding.EdgeReset |
| src/simpleplayer/MapSymmetry.java:20-22 | a map whose width differs from its height has the rotational symmetry ruled out | on a 20x30 map the half-turn sends every location to a location of the map, so a rotationally symmetric 20x30 map is possible, yet init clears its flag | the map's shape rules out no symmetry, since all three map any rectangle onto itself | medium, not executed | MapSymmetry.RotationRuledOutOnNonSquare | MapSymmetry.InitIntended |
