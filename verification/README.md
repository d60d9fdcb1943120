# The proof-party board, verified

A Dafny model of the Hazync coordinator: which verified ranges form the genesis chain, who may claim or
submit what, how folding converges, what the reported numbers count, and the two drivers that spend money
on the board's behalf (the sponsor proving bot and the tip rig). Hashes and digests are opaque strings,
public keys opaque numbers, a range id is the pair of bounds its canonical spelling names, and time is a
real number of seconds. STARK and ed25519 verification are oracles: an accepted receipt carries boundary
values and proves exactly the submitted range.

`dafny verify dfyconfig.toml` checks everything.

## How it is laid out

- `Ranges`, `Frontier`, `FrontierLaws`, `SeamOracle`, `Continuity`: rows, seams and chains; the walk that
  selects the most-work chain; its laws; the depth-first oracle of the fuzz harness; integrity check 3.
- `FoldTree`, `FoldRuns`, `FoldSeam`: the canonical tree, runs of folding, telling folds from proofs.
- `Sorting`, `Intervals`, `Contributions`, `Credit`, `StatusMap`, `Rotation`: the reported numbers, who is credited
  with them, and key rotation.
- `BoardRules` (one relation per locked section), `Board` (a class with the tables, which implements them),
  `BoardLaws` (what the rules mean, from the stored columns), `BoardRuns` (every interleaving, as runs),
  `BoardTheorems`, `BoardLimits`.
- `Sponsorship`: payment statuses, as rules, as laws from the payments, and as a class over the table.
- `BotMoney`, `BotWork`, `SponsorBot`: the bot's budget, its work log, and the bot itself as a class whose
  outside world answers arbitrarily and whose steps can be cut.
- `TipFleet`, `TipRun`: one poll of the rig, and a whole block driven by polls.

## What was found

- A re-offered block's covers are safe, over all runs whose commits become visible within a given lag of their stamp,
  exactly when that lag is below FRONTIER_SETTLE, whatever it is set to. At the settling time itself a run re-offers a
  genuine proof of the frontier's next block (`BoardLimits.SafeIffLagBelowSettlingTime`).
- `rotate` lets an accepted rotation close a loop exactly when the new key already leads to the old one by
  more than 32 edges, and any such chain can be closed (`Rotation.CycleIffTooDeep`, `Rotation.DeepChainAcceptsCycle`).
- `is_fold_seam` never calls a proof a fold, but off the tree its widest-only index can miss one
  (`FoldSeam.HiddenSibling`).
- A wide range submitted over single blocks without its two halves passes the submit gate, is not seen as a fold, and
  credits its submitter with blocks others proved (`Credit.WideWithoutHalvesIsCredited`). On tree nodes the proved columns
  are exact if and only if no block lies in rows of two heads that join nothing (`Credit.ColumnsAreHeadlineExactly`).
- The bot's lead time must reach from the last passed budget check to the end of the stop, and it covers not a moment
  more: for every d > 0 a pod at the ceiling reaches the cap d seconds after the lead (`BotMoney.LeadIsExact`).
- A signal or an error that cuts a step of the bot in two leaves three traces in its pods and work rows. After the first
  INSERT of a chunk and before the hand-over, exactly the inserted rows stay open at exit. Between the hand-over of a
  pod's first chunk and the start of its segment, the cleanup itself raises if one of the blocks has landed, and later
  pods stay live (`SponsorBot.Bot.TerminateAll`). Inside a recording, that pod's logged seconds can exceed its wall time
  (`BotWork.CutRecordingCanOverrun`); exactly when is `BotWork.CutFitsWallExactly`: the shares the cut recording paid must
  be no more than what the cleanup's split withholds for rows it finds closed, and the pod's time outside the segment that
  no earlier row has used. Every other cut leaves nothing behind in them (`SponsorBot.Bot.Run`).
- The continuity check looks at tips and digests separately, so a pass means a chain exactly for one record per height,
  which a board built by submits has (`Continuity.PassMeansChainIffOneEach`, `BoardTheorems.ContinuityBoundsFrontier`).
- One poll of the rig sends two chunks to one card exactly when it recovers two chunks and finds a free card
  (`TipRun.RunSendsTwice`; for any tick, `TipFleet.OnePollSendsTwice`).

## Model

| member | source | states |
|---|---|---|
| Frontier.FrontierChain | coordinator/server.py:1686-1739 | The loop's answer is the end of a real genesis-anchored, boundary-continuous chain, with the sum of that chain's stored work; no such chain has more stored work, or as much and more height; among the best, the one ending at the earliest row is reported |
| Frontier.BestPredecessor | coordinator/server.py:1725-1735 | The indexed inner loop finds the greatest work among all rows that seam onto this one, and None exactly when none does |
| Frontier.WalkStep | coordinator/server.py:1716-1737 | With rows in lo order, the value computed for a row is the greatest work of any chain ending there, and absent exactly when no chain does |
| Frontier.ChainCovers | coordinator/server.py:1719-1738 | A chain covers every height from 1 to its end |
| Frontier.ChainsAreGenuine | coordinator/server.py:1716-1732 | A chain, from the columns: the first row at height 1 on the genesis tip with a digest, each next one at the next height with the same tip and the same non-empty digest |
| Frontier.FrontierIsHeaviest | coordinator/server.py:1723-1737 | From the stored columns: a genuine chain realises the answer, and none has more stored work, nor as much and a greater height |
| FrontierLaws.FrontierOrderIndependent | coordinator/server.py:895-897 | Two coordinators with the same verified set get the same work and height, whatever the row order |
| FrontierLaws.FrontierMonotone | coordinator/server.py:895-897 | Adding rows never lowers the frontier |
| FrontierLaws.FoldNeutral | coordinator/server.py:1701-1739 | Adding a row that folds two seamed rows (joined boundaries, summed work) changes neither work nor height |
| FrontierLaws.UnfoldedIsChain | coordinator/server.py:1701-1739 | Any chain that uses a fold expands to a chain without it that ends the same way |
| FrontierLaws.NothingContinuesFrontier | coordinator/server.py:3593-3600 | No row the walk read, of non-negative work, continues any best chain |
| FrontierLaws.FrontierCovers | coordinator/server.py:1741-1743 | Every height up to the frontier is covered by a verified range |
| SeamOracle.OracleIsExact | coordinator/seam_fuzz.py:123-151 | The depth-first oracle collects the end of every chain and of nothing else |
| SeamOracle.WalkMatchesOracle | coordinator/seam_fuzz.py:194-214 | The campaign's check holds for all rows: an answer is a frontier if and only if it is one of the oracle's and the greatest of them |
| Continuity.CheckContinuity | coordinator/check-continuity.py:95-160 | Exit code 0 if and only if every height has a record (or an accepted hole), a digest, its tip and digest links, and the last record ends on the spine's tip; exit code 2 if and only if all of that holds but height n is an accepted hole |
| Continuity.LinksFromColumns | coordinator/check-continuity.py:95-121 | When a height links, from the stored tips and digests of the records at it and below it |
| Continuity.PassBoundsFrontier | coordinator/check-continuity.py:95-121 | A pass without accepted holes over one record per height makes the records 1..n a chain, so the frontier has at least their work, and height n on a tie |
| Continuity.TwoRecordsCanPassUnjoined | coordinator/check-continuity.py:116-121 | A table of three records, two at one height, that passes although no chain reaches the end |
| Continuity.TwoRecordsBreakTheCheck | coordinator/check-continuity.py:95-160 | For all numbers of records per height, at least one each, and every height k with two or more: a table with just those records passes, and no chain of it reaches k |
| Continuity.PassMeansChainIffOneEach | coordinator/check-continuity.py:95-160 | Over all tables with the given numbers of records, a pass means a chain to the end if and only if no height has two (or some height has none, and nothing passes) |
| BoardTheorems.ContinuityBoundsFrontier | coordinator/check-continuity.py:95-160 | On any board reached by submits the one-record condition holds, so a pass bounds the frontier |
| FoldTree.BitTrick | coordinator/server.py:1404-1411 | w & (w-1) == 0 holds exactly for the powers of two |
| FoldTree.SiblingsMakeANode | coordinator/server.py:1459-1464 | Two siblings join into an aligned node of twice the width |
| FoldTree.NodeSplits | coordinator/server.py:1404-1411 | Every wider node is the join of two siblings |
| FoldTree.OfferedPair | coordinator/server.py:1453-1470 | From the bounds alone: two ranges of one power-of-two width that meet in the middle of an aligned range above the floor, itself neither verified nor claimed |
| FoldTree.Foldable | coordinator/server.py:1413-1473 | Every offer is a sibling pair above the floor whose parent is missing and unclaimed; when fewer than the limit come back, every such pair did; offers come lowest first, and a pair left out is no lower than the last one offered |
| FoldRuns.FoldingConverges | coordinator/server.py:1413-1431 | Every run of offered folds from blocks 1..n stops within n-1 folds, always at the set of all nodes inside 1..n and always after n minus the number of one-bits of n folds |
| FoldRuns.RunInvariant | coordinator/server.py:1413-1431 | After i folds a run holds every leaf, only nodes inside 1..n, and exactly i folded ranges |
| FoldRuns.FoldedCount | coordinator/server.py:1413-1431 | The full tree over 1..n has n minus the number of one-bits of n folded ranges |
| FoldSeam.FoldSpans | coordinator/server.py:1763-1784 | In submission order a row is classed as a fold exactly when it is wide, an earlier range shares its start, and the widest earlier range from that one's end ends with it |
| FoldSeam.FoldSeamSound | coordinator/server.py:1809-1828 | A range classed as a fold is the exact join of two earlier ranges |
| FoldSeam.FoldSeamExactOnNodes | coordinator/server.py:1809-1828 | On a board of tree nodes the test is exact in both directions |
| FoldSeam.HiddenSibling | coordinator/server.py:1782-1783 | Off the tree the walk misses a fold in a list each of whose ranges is a single block or tiled by earlier ones, as the submit gate demands |
| Intervals.ProvenCount | coordinator/server.py:1745-1761 | The merge returns the number of distinct covered heights |
| Intervals.TiledByVerified | coordinator/server.py:3796-3817 | The greedy walk accepts exactly the spans all of whose heights are covered by ranges inside them |
| Intervals.SweepCovered | coordinator/server.py:2344-2351 | The sweep says yes exactly when every height of the span is covered |
| Contributions.ContributionsByPubkey | coordinator/server.py:1830-1892 | Each head's `proved` is the number of distinct heights of its non-fold rows after key resolution, with its fold and spine counts; absent keys have none |
| Contributions.MergeByKey | coordinator/server.py:1877-1890 | One merge over (key, lo, hi) order counts every key's distinct heights without double counting |
| Contributions.ProvedSumsToHeadline | coordinator/server.py:1839-1843 | If every covered block has its own row, the proved columns sum to at least the headline |
| Credit.CreditIsForProofs | coordinator/server.py:1864-1872 | On tree nodes a key is credited with exactly the blocks of its rows that join no two earlier rows |
| Credit.FolderProvesNothing | coordinator/server.py:1833-1840 | A key is credited with no block if and only if each of its rows joins two earlier ones |
| Credit.FoldsAreJoins | coordinator/server.py:1866-1868 | A key's `folded` is the number of its rows that join two earlier ones |
| Credit.AnchorsAreSteps | coordinator/server.py:1874-1876 | A key's `anchored` is the number of spine steps under it |
| Credit.ColumnsAreHeadlineExactly | coordinator/server.py:1839-1846 | On tree nodes the proved columns sum to at least the headline, and to exactly it if and only if no block lies in rows of two heads that join nothing |
| Credit.WideWithoutHalvesIsCredited | coordinator/server.py:1825-1828 | A wide node over single blocks, without its halves, passes the gate and is credited whole to its submitter |
| BoardTheorems.ProvedColumnsReachHeadline | coordinator/server.py:1830-1892 | The same for every board reached by any interleaving of submits |
| BoardTheorems.ProvedColumnsAreHeadline | coordinator/server.py:1830-1892 | On a board reached by submits, of tree nodes, the proved columns sum to exactly the headline if and only if no block was proved under two heads, and always when every wide range joins two earlier ones |
| StatusMap.PaintStatus | coordinator/server.py:2136-2146 | Every byte is its block's furthest state: anchored over folded over proven |
| StatusMap.GreatestCodeWins | coordinator/server.py:2124-2146 | A byte is the greatest code over its block: 5 up to the genesis proof, else 4 or 3 of some mark over it, else 0 |
| StatusMap.FindRuns | coordinator/server.py:2147 | The runs are sorted, disjoint, maximal, and decode to the buffer |
| StatusMap.ProvenIn | coordinator/server.py:2787-2801 | Bisecting the runs counts what looking at every block of the span counts |
| StatusMap.CountIsBlocks | coordinator/server.py:2792-2801 | That count is the number of blocks of the span that have any state |
| Rotation.ResolvePubkey | coordinator/server.py:1107-1121 | The loop computes the bounded walk the lemmas below are about |
| Rotation.ResolveOnChain | coordinator/server.py:1107-1121 | On a chain with a head the walk reaches the head if it is at most 32 edges away, and otherwise stops 32 edges on |
| Rotation.ResolveGivesHead | coordinator/server.py:1107-1121 | While no chain is deeper than that, resolving gives the unique head and is idempotent |
| Rotation.CycleIffTooDeep | coordinator/server.py:1308-1318 | An accepted rotation closes a loop if and only if the new key led to the old one by more than 32 edges |
| Rotation.AcceptedExactly | coordinator/server.py:1308-1320 | On shallow acyclic graphs a rotation is accepted if and only if it is authorised, its keys differ, the old one has not rotated, and the new one's head is not the old key; then just that edge is added |
| Rotation.RotationsStayAcyclic | coordinator/server.py:1308-1320 | In every run whose chains stay within 32 edges before each rotation, the graph stays acyclic |
| Rotation.DeepChainAcceptsCycle | coordinator/server.py:1084 | In every acyclic graph, rotating the head of a chain of more than 32 edges back to its start is accepted and closes a loop |
| Rotation.StaircaseAcceptsCycle | coordinator/server.py:1084 | Such graphs exist for every such length |
| Rotation.RunEndsInALoop | coordinator/server.py:1308-1320 | For every length over 32, a run of accepted rotations from an empty graph that ends in a loop |
| BoardClass.Board.Snapshot | coordinator/server.py:1655-1661 | A snapshot keeps the time its read began, exactly the rows of the table, and their frontier |
| BoardClass.Board.CoverageAndHeld | coordinator/server.py:991-1017 | The two sets are pointwise coverage, and live claims plus sponsor holds |
| BoardClass.Board.Claim | coordinator/server.py:3524-3640 | The locked section answers a retry, applies the cap, re-offers a settled blocker or hands out the first available block, and changes exactly that row |
| BoardLaws.FreeOfClaimsExactly | coordinator/server.py:230-231 | A block is free of claims if and only if every row starting there is not claimed, CLAIM_MAX old, CLAIM_TTL without a sign of life, or unbeaten past CLAIM_GRACE |
| BoardLaws.ClaimIsAnswered | coordinator/server.py:3524-3640 | From the columns: a retry gets the claim it made; a key with too many unlapsed claims of its kind gets none; the frontier's settled blocker comes first; otherwise the lowest free, uncovered, servable, unreserved block, and nothing only when there is none; only that row changes |
| BoardClass.Board.Pick | coordinator/server.py:1019-1057 | The suggestion is the first open block of the window that no peer has done, preferring blocks no peer is proving, and changes nothing |
| BoardLaws.PickSuggests | coordinator/server.py:1019-1057 | From the columns: the first open block of the two million above the frontier that no peer has proven, one that no peer is proving if there is any |
| BoardClass.Board.Beat | coordinator/server.py:3706-3718 | Only the assignee of a claimed row younger than CLAIM_MAX moves its beat, and nothing else moves |
| BoardLaws.BeatBuysTime | coordinator/server.py:3706-3718 | After a beat the claim lapses exactly CLAIM_TTL later or at CLAIM_MAX, whichever is first; a beat of another key or of a claim past CLAIM_MAX changes nothing |
| BoardClass.Board.SubmitGate | coordinator/server.py:3879-3895 | Passes exactly single blocks from 1 up, and wide ranges every height of which is covered by ranges inside them |
| BoardClass.Board.SubmitOpen | coordinator/server.py:3904-3921 | Makes the row on demand and refuses exactly a verified one |
| BoardClass.Board.SubmitCommit | coordinator/server.py:3935-3977 | Re-checks the status, then records the proof, or the failure and whether it parks the block; a verified row is never dragged back |
| BoardLaws.ThirdFaultParks | coordinator/server.py:258-302 | Over any failed submissions: environment failures never park a block, its own third failure does, and a verified block is never parked |
| BoardRuns.RunKeepsInv | coordinator/server.py:3840-3977 | The board invariant over every interleaving of snapshots, claims, beats and two-phase submits |
| BoardTheorems.CoveredBlockHasItsOwnProof | coordinator/server.py:3857-3879 | In every run each covered block has a verified range of its own (#281) |
| BoardTheorems.GateOnBoard | coordinator/server.py:3846-3895 | In every run the gate lets in exactly single blocks from 1 on and ranges all of whose blocks were proved one by one |
| BoardTheorems.VerifiedStays | coordinator/server.py:3955-3960 | Verified ranges never leave the board |
| BoardTheorems.OfferedFoldPassesGate | coordinator/server.py:1453-1470 | A pair offered at any moment passes the submit gate at every later one |
| BoardTheorems.OnlyReofferOverwritesProof | coordinator/server.py:3606-3629 | A claim overwrites a verified row only on the re-offer path |
| BoardTheorems.ReofferedCoversCannotSeam | coordinator/server.py:1677-1683 | With prompt commits, every cover of a re-offered block had been read by the judging snapshot and continues none of its best chains (#339) |
| BoardLimits.LagOfTheSettlingTimeIsTooMuch | coordinator/server.py:1580-1583 | Whatever the settings, a commit lag of the settling time or more lets a run re-offer a block whose proof seams onto the snapshot, and overwrite the verified row |
| BoardLimits.SafeIffLagBelowSettlingTime | coordinator/server.py:1655-1683 | Over all runs of lag at most L, re-offered covers cannot seam if and only if L is below FRONTIER_SETTLE |
| BoardTheorems.RetriesGetTheSameBlock | coordinator/tip_board.py:111-134 | Every later attempt of one signed claim gets the block the first was granted and orphans none, unless that block is verified or parked, with the time for verifying the signature and waiting for the lock allowed for (#268) |
| BoardTheorems.ClaimStaysCarried | coordinator/server.py:3472-3479 | Until then exactly one row carries the nonce, still live, in every interleaving |
| BoardTheorems.PickAgreesWithClaim | coordinator/server.py:1019-1057 | Without peers, a re-offer or a re-take hold, pick and claim choose the same block or both find none, each from a snapshot of its own, however stale |
| SponsorRules.StatusesOnlyRise | coordinator/server.py:2708-2779 | Over every run a status only rises; paid needs a settled minimum, proven needs full coverage and is final |
| SponsorLedger.Ledger.Poll | coordinator/server.py:2725-2779 | One answered poll moves the row exactly as its answer calls for, under the guard of the status it was read with |
| SponsorLaws.PollIsAnswered | coordinator/server.py:2741-2779 | From the payments: paid, or proven at once, if and only if a positive settled sum reaches the minimum; underpaid or expired if and only if the invoice is over with nothing confirming; otherwise the status stays; with the sums, times and holds this leaves |
| SponsorLaws.OthersOnlyEnd | coordinator/server.py:2339-2356 | Every other row changes only by its hold ending, with its whole span covered |
| SponsorLaws.HoldLastsUntilProven | coordinator/server.py:3102-3116 | A hold lasts from the payment through the proving and ends only by being proven, at the recorded range that covers the last of its span |
| SponsorLedger.Ledger.MarkProven | coordinator/server.py:2339-2356 | Exactly the overlapping holds whose whole span is covered end |
| SponsorLedger.Ledger.StartProving | coordinator/server.py:3102-3116 | Only a hold in `paid` becomes `proving` |
| SponsorLedger.Ledger.HoldRefusal | coordinator/server.py:2358-2384 | Refuses exactly the submissions that would newly prove a held block under an unregistered key, naming the oldest such payment and its first such block |
| SponsorLaws.OldestPaymentFirst | coordinator/server.py:2328-2337 | The order in which holds refuse: by payment time, then by id |
| BotMoney.SpendGrows | coordinator/sponsor_bot.py:1003-1008 | Between two moments the spend grows by at most the hourly rate for that long |
| BotMoney.EstimateCoversBill | coordinator/sponsor_bot.py:1000-1008 | The estimates are never below what the pods really cost, and equal it where every price was reported |
| BotMoney.CheckIsExact | coordinator/sponsor_bot.py:1059-1060 | The check fails if and only if the running pods would reach the cap by the end of the lead time |
| BotMoney.DeployTestsAreExact | coordinator/sponsor_bot.py:1364-1371 | One more pod at the ceiling is let in if and only if, with it, the pod cap, the hourly cap and the budget check hold |
| BotMoney.CheckKeepsBudget | coordinator/sponsor_bot.py:1059-1060 | A passed check keeps the cap for the whole lead time after it |
| BotMoney.DeployKeepsBudget | coordinator/sponsor_bot.py:1364-1371 | A deploy that passes the three tests keeps the pod cap, the hourly cap and the budget for the lead time |
| BotMoney.LeadMustOutlastTheStop | coordinator/sponsor_bot.py:1129-1132 | A run of figures: if the stop takes a lead of its own after a failed check, the cap is passed |
| BotMoney.LeadIsExact | coordinator/sponsor_bot.py:1059-1060 | For all accepted limits under which a pod can be rented, a passed check covers d seconds more than the lead if and only if d is not positive |
| BotMoney.OverrunPassesTheCap | coordinator/sponsor_bot.py:1059-1060 | The pod, rented through the deploy tests and priced at the ceiling, and the passing check that show it for every d > 0 |
| SponsorBot.Bot.Run | coordinator/sponsor_bot.py:1109-1178 | For any number of looks, any answers, any clock that never runs backwards, and a signal or error at any statement: unless the cleanup raises (only after one kind of cut), at exit no pod is live, the open rows are exactly those of a chunk cut between INSERT and hand-over, and every pod's logged seconds fit its wall time, that of a pod whose recording was cut exactly under the stated condition; and the spend is below the cap when no pod was priced over the ceiling and the clock is within one lead of the last passed check's look |
| SponsorBot.Bot.SpendStaysBelowCap | coordinator/sponsor_bot.py:1059-1060 | In every state whose clock is within one lead of the last passed check, the spend is below the cap at every moment up to then |
| SponsorBot.Bot.TerminateAll | coordinator/sponsor_bot.py:1431-1433 | After whatever cut it stops every pod and says what each one's log becomes, unless it raises, which is exactly when some live pod whose segment was never started has a landed block |
| SponsorBot.Bot.GiveWorkCut | coordinator/sponsor_bot.py:1340-1349 | Giving a chunk to a pod, cut: the rows inserted so far and no pod with them, or the pod with its chunk and no segment |
| SponsorBot.Bot.RecordProven | coordinator/sponsor_bot.py:1304-1315 | The landed blocks' open rows, and only they, are proven, with equal shares that add up to the time since the last one |
| SponsorBot.Bot.RecordProvenCut | coordinator/sponsor_bot.py:1304-1315 | A recording, cut: some of the first rows are closed, the segment still runs, and the pod has given its landed blocks up only if all are |
| SponsorBot.Bot.Terminate | coordinator/sponsor_bot.py:1401-1429 | Landed rows become proven with their shares, the pod's other rows the outcome, closed rows and other pods' rows never change, only this pod stops, and its clock stops |
| SponsorBot.Bot.AssignOne | coordinator/sponsor_bot.py:1327-1358 | The pod gets a chunk of free, bundled blocks of the queue, none of them on another pod; without any it is stopped, and when it cannot start it is stopped and its rows are closed |
| SponsorBot.Bot.AssignPod | coordinator/sponsor_bot.py:1327-1358 | From the answers: exactly the first blocks of the list, at most `blocksPerPod`, each with a row of its own and the clock started; or stopped for lack of work; or stopped with its rows failed but for those landed |
| SponsorBot.TodoInOrder | coordinator/sponsor_bot.py:547-562 | The list takes the queue in order, each block at its first place |
| SponsorBot.Bot.Progress | coordinator/sponsor_bot.py:1277-1302 | From what was seen: the pod is stopped if and only if a sponsorship of a task left is no longer held, tasks are left and none landed for more than the stall time, or its worker has been finished for more than the grace, each with its outcome for the rows; otherwise it lives, idle exactly when no task is left, its clocks restarted exactly when a block landed; a silent coordinator ends the pass just where it was asked |
| SponsorBot.Bot.ObserveWaiting | coordinator/sponsor_bot.py:1252-1258 | A waiting pod boots once it has ssh, is given up after the ssh timeout, and otherwise waits unchanged |
| SponsorBot.Bot.ObserveBooting | coordinator/sponsor_bot.py:1259-1268 | A booted pod is idle, a failed or overdue boot ends the pod, and otherwise it stays as it is |
| SponsorBot.Bot.PendingWork | coordinator/sponsor_bot.py:547-562 | The list is free of busy, repeated and unbundled blocks, and misses no other block of the queue |
| SponsorBot.Bot.Launch | coordinator/sponsor_bot.py:1360-1398 | However RunPod answers, the pod cap, the hourly cap and the budget hold after it; it deploys no more than the queue calls for and stops short only while backing off or at a limit |
| SponsorBot.Bot.WantedIsJustEnough | coordinator/sponsor_bot.py:1361-1363 | With the pods wanted, and no fewer, those without work could take the whole list |
| SponsorBot.Bot.AskRunPod | coordinator/sponsor_bot.py:1373-1389 | A refusal or a lack of capacity backs off, and the third refusal in a row stops the run |
| BotWork.GivingUpKeepsState | coordinator/sponsor_bot.py:1304-1315 | Closing some of a pod's rows keeps every open row assigned to exactly one pod and every pod's log within its time |
| BotWork.LoggedClosed | coordinator/sponsor_bot.py:1307-1311 | Closing rows with s seconds each adds s to that pod's log for every open one of them and nothing to another's |
| BotWork.CutRecordingFits | coordinator/sponsor_bot.py:1304-1315 | What a cut recording and the cleanup log fits the time since the segment began and any slack if and only if the shares the first paid are no more than what the second withholds for rows already closed, and the slack |
| BotWork.GrownCoverageFits | coordinator/sponsor_bot.py:1409-1418 | When what had landed still counts as landed: it fits if and only if n times the excess of the first share over the second is within the slack, so always when nothing more has landed |
| BotWork.GivenUpFits | coordinator/sponsor_bot.py:1314-1315 | When the pod had given the blocks up already: it fits if and only if the time up to the cut is within the slack |
| BotWork.CutFitsWallExactly | coordinator/sponsor_bot.py:1304-1315 | For every cut recording and every cleanup after it, the pod's log fits its wall time if and only if the shares paid are no more than those withheld and the pod's unused time outside the segment |
| BotWork.CutRecordingCanOverrun | coordinator/sponsor_bot.py:1304-1315 | A pod of 130 seconds whose log has 210: the recording was cut when the pod had given the block up |
| TipFleet.PlanTick | coordinator/tip_fleet.py:212-271 | One poll's actions and clocks are, chunk by chunk, those the rules call for |
| TipFleet.OneActionPerChunk | coordinator/tip_fleet.py:238-268 | A poll acts on a chunk at most once, and never on a staged one |
| TipFleet.RecoveryIsLate | coordinator/tip_fleet.py:83-90 | A chunk is recovered only after more than the stall time without progress, and its clock starts again |
| TipFleet.RecoveryChoosesWell | coordinator/tip_fleet.py:121-138 | Work moves only to a finished, unburdened card measured free, and restarts in place only when there is none |
| TipFleet.PlanFromReply | coordinator/tip_fleet.py:238-268 | From the reply's numbers: collect a receipt, leave a silent card and its timers alone, and recover only from a card that looks idle and whose log has not moved for more than the stall time |
| TipFleet.WorkingIsLeftAlone | coordinator/tip_fleet.py:60-90 | A card with a live process and utilisation or memory at the limits, or whose log size has just changed, is never recovered |
| TipFleet.FreeFromReplies | coordinator/tip_fleet.py:93-118 | A card is free, from its reply: it has finished, took nobody else's chunk, and reports no process and little memory |
| TipFleet.GoesToTheFirst | coordinator/tip_fleet.py:121-138 | The target is the first in assignment order that may be taken |
| TipFleet.TwoChunksOneCard | coordinator/tip_fleet.py:258-268 | A poll that does send two chunks to one card |
| TipFleet.SameTargetIffCollide | coordinator/tip_fleet.py:121-138 | Two chunks would be sent to one card exactly when there is a free card and neither is on the first one, or both are and there is another |
| TipFleet.OnePollSendsTwice | coordinator/tip_fleet.py:212-271 | For any tick, one poll sends two chunks to one card if and only if it recovers two chunks that collide so |
| TipRun.ChunkPhase | coordinator/tip_run.py:268-303 | The phase is one planned and performed step per poll until everything is staged; over any run the k-th recovery of a chunk is later than t0 + k * stall and a staged chunk is left alone |
| TipRun.PollsOnlyForAChunk | coordinator/tip_run.py:268-303 | At every poll of a run but the first some chunk is still to be staged (the staged count is never enough before every chunk is) |
| TipRun.PerformAll | coordinator/tip_run.py:275-298 | The actions are performed and logged in order, and the lateness of recoveries and the finality of staging survive them |
| TipRun.ActionsMove | coordinator/tip_run.py:283-290 | After a poll a reassigned chunk is on its target and no other chunk has moved |
| TipRun.ActionsOccupy | coordinator/tip_run.py:289 | The cards sent a chunk, and no others, are newly busy |
| TipRun.ActionsMark | coordinator/tip_run.py:290-298 | The recovered chunks, and no others, are newly marked |
| TipRun.ActionsStage | coordinator/tip_run.py:277-280 | The chunks whose receipt was collected, and no others, are newly staged |
| TipRun.Sweep | coordinator/tip_run.py:307-310 | Afterwards the staged chunks are those staged before and those whose receipt the sweep collected |
| TipRun.AwaitAggregate | coordinator/tip_run.py:326-346 | The first status that is verified, dead, or the last of enough unanswered polls in a row decides; without one the wait lasts all its polls |
| TipRun.VerifiedWasReported | coordinator/tip_run.py:326-346 | The run is verified exactly when the last status polled says so, and is called never verified only when no status did |
| TipRun.FirstDecisiveStatus | coordinator/tip_run.py:326-346 | The wait ends at the first poll with a receipt, a dead process, or the end of a whole silent stretch, is named after it, and otherwise lasts all its polls |
| TipRun.RunBlock | coordinator/tip_run.py:210-346 | Which runs end for lack of cards, an unclean fleet or missing chunks; the aggregate starts exactly when the fleet was empty and at least n chunks are staged, and the run ends within both poll budgets |
| TipRun.RunSendsTwice | coordinator/tip_run.py:268-303 | In every run that starts with a card for each chunk, a poll sends one card two chunks if and only if it recovers two chunks and finds a free card |

## Left out

- STARK verification, ed25519 signatures and the mock modes: oracles. A claim's signature check keeps only its timestamp window.
- SQLite, HTTP, tar streaming, files, BTCPay, RunPod, ssh and scp: plumbing. Each locked section is one atomic step, and the answers are arbitrary.
- sync_from_peers and the peer caches: they bypass the submit rules. The peers' heights are inputs of pick.
- The single-flight cache's TTL and leader election: a thread may be handed any cached snapshot however old, which allows more than the code does.
- BoardRuns.RunKeepsInv: the sponsor holds are an arbitrary refusal at both checks of a submit and an arbitrary set in a claim; who holds what is modelled in Sponsorship.
- BoardTheorems.ReofferedCoversCannotSeam: rows written before the ts column was filled (NULL, read as 0) are not modelled; every stored row has a time.
- Rotation.RotationsStayAcyclic: the signature, timestamp, moderation and handle checks are one verdict, because they do not look at the graph.
- Contributions.ContributionsByPubkey: keys are ordered as numbers rather than as hex text; the result does not depend on which total order it is.
- SponsorBot.Bot.Run: the regeneration queue and reconcile_work (subprocesses and after-the-fact log repair), the prices in the work rows, the sweep for stray pods and the `sponsor_pods` table (a cut just before its UPDATE leaves that row open); cuts fall between statements, and none falls into the cleanup itself (an error there, or a signal just before it ignores signals).
- SponsorBot.Bot.Launch: a pod priced over the ceiling is stopped as in the code, but the money properties then no longer apply.
- TipRun.RunBlock: launching, killing and relaunching provers and the telemetry feed are I/O; the sweep's receipts and the staged count are inputs.
- TipFleet.PlanTick: probe replies arrive parsed; the text format and NaN are not modelled.
- The state() blocker wording, leaderboards, timelines, dashboards, donations, handle cleaning: presentation.
- fold claims, spine submission, tip_controller, tip_lifecycle, tip_chain, tip_recruit and the measurement scripts: they would add only easy members.
