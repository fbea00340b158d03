# hypersync, modelled in Dafny

hypersync keeps a node fed with blocks from untrusted gossip peers. This project models its decision
logic and proves what that logic promises over every input and every run. `dafny verify dfyconfig.toml`
checks all of it.

**Failover (`src/failover/`).** A session forwards blocks from one active peer and buffers what its
standbys deliver. When the active stalls or dies, a standby takes over, and its buffered chain is
replayed to the node.

- `FailoverUpstream`: one upstream's buffer, as a value, with the methods that update it.
- `FailoverCore`, `FailoverSession`: the `Core` object and the session around it, as classes. Each
  method is proved against a function on the whole state.
- `FailoverBooks`, `FailoverSeam`: how the state relates to what the upstreams delivered and what the
  node was sent.
- `FailoverRuns`: arbitrary interleavings of blocks, joins, departures, deaths and timer steps. An
  inductive invariant carries the theorems at the end of the file.

**Reading rounds (`src/protocol.rs`).** `Lz4` holds a full LZ4 block decoder as the specification and
the bounded decoder as a method over an array. `BlockRound` shows that scanning the bounded output
gives the same answer as scanning the whole block. `RoundCluster` and `ProbeTip` show that a majority
of probes fixes the published tip.

**The live push (`src/push/live.rs`).** `ForwardGate` and `PushGates` model the two paths a frame can
take to the node. `Freshest` and `LagGuards` model the shared freshest-round table, the two lag guards
that read it, and the floor for selecting a peer.

**Gateway state (`src/gateway/`).** `PrefetchProtocol` is a state machine over the atomic steps of
pins, prefetches, takes and expiries, run by any number of threads. `CatchupLog` is the bounded sample
log behind the catch-up verdict.

**Discovery and logs.** `Crawl` is the bounded crawl, with the answers of a hop arriving in any order.
`ProbeRotation` is the choice of candidates to probe. `Redaction` is the in-place rewriting of log
lines.

Times are natural numbers of milliseconds. Rounds are integers bounded to 32 bits (`u32`), and
saturating arithmetic is written out. Block hashes are abstract values. Choices the program leaves to a
hash map or to the scheduler are left open in the model, so a result holds for every order.

Where a promise does not hold without a condition, the condition is exact:

- The catch-up verdict is the one the whole history gives, as long as the window holds no more batches
  than the log keeps (`CatchupLog.VerdictIsHistorys`). A fuller window is never called still, even if
  it was (`CatchupLog.CrowdedIsNotStill`).
- The selection floor outlives a grace period whenever the grace period is at most the staleness
  limit (`LagGuards.FloorHolds`), and otherwise need not (`LagGuards.FloorNeedsWindow`). The program's
  settings, 5 s and 30 s, meet the condition (`src/push/live.rs:354-355`).
- The probe rotation reaches every candidate whenever at least two may be probed per cycle
  (`ProbeRotation.RotationIsFair`). With one per cycle, a peer that stays live is all that is ever
  probed (`ProbeRotation.OnePerCycleStarves`). The daemon clamps the number to at least 32
  (`src/peerd/daemon.rs:326`).

The comment above `crawl_peers_with` leaves excluding the daemon's own addresses to the caller. The
code excludes them itself, and the model follows the code.

## Model

| member | source | states |
|---|---|---|
| `FailoverUpstream.KeepLowestFits` | src/failover/core.rs:115-127 | What is left after discarding from the top is within both size limits |
| `FailoverUpstream.KeepLowestIsLower` | src/failover/core.rs:115-127 | It is the lower part of the buffer: nothing kept is above anything discarded |
| `FailoverUpstream.KeepLowestIsWidest` | src/failover/core.rs:115-127 | It is the largest such part: no lower part that fits keeps more |
| `FailoverUpstream.ChainHead` | src/failover/core.rs:166-188 | The head of a chain is the lowest buffered round and names the starting round as parent; the tail is a chain from it |
| `FailoverUpstream.ChainClimbs` | src/failover/core.rs:170-188 | The rounds of a chain strictly increase from where it starts |
| `FailoverUpstream.ChainParents` | src/failover/core.rs:170-188 | Each block of a chain names the one before it as its parent |
| `FailoverUpstream.OperationsKeepValid` | src/failover/core.rs:101-146 | Every operation keeps the buffer within its limits |
| `FailoverUpstream.Upstream.Compared` | src/failover/core.rs:101-112 | The verdict counters after a comparison, and whether the standby is to be dropped |
| `FailoverUpstream.Upstream.InsertAhead` | src/failover/core.rs:115-127 | The loop leaves exactly the widest lower part that fits, its byte count, and the highest discarded round |
| `FailoverUpstream.Upstream.TakeAhead` | src/failover/core.rs:129-133 | The block taken out, and the byte count of what is left |
| `FailoverUpstream.Upstream.TrimAhead` | src/failover/core.rs:136-146 | Exactly the rounds above the floor stay, with their byte count |
| `FailoverUpstream.Upstream.Settle` | src/failover/core.rs:260-277 | One standby's comparison with a block the active delivered, then the trim |
| `FailoverUpstream.Upstream.TakeChain` | src/failover/core.rs:412-424 | Takes out exactly the chain from the given round, in order |
| `FailoverUpstream.Upstream.ChainLen` | src/failover/core.rs:170-188 | The length and first arrival of exactly the chain a switch would replay |
| `FailoverCore.KeepHighestIsPart` | src/failover/core.rs:250-256 | The record of forwarded blocks keeps true entries, as many as its limit allows, and drops none above one it keeps |
| `FailoverCore.Core.constructor` | src/failover/core.rs:213-233 | The first active, with an empty record |
| `FailoverCore.Core.Remove` | src/failover/core.rs:246-248 | Removes that upstream only, and gives its address |
| `FailoverCore.Core.RecordForwarded` | src/failover/core.rs:250-256 | The node's new last round and the trimmed record |
| `FailoverCore.Core.SettleStandbys` | src/failover/core.rs:260-277 | Every standby is settled, the active is not, and exactly the disagreeing ones are reported, in any map order |
| `FailoverCore.Core.OnActiveBlock` | src/failover/core.rs:281-296 | Forwards exactly the rounds above the last, if there is a last; an old round changes nothing but the active's arrival time |
| `FailoverCore.Core.OnStandbyBlock` | src/failover/core.rs:299-333 | Buffers a new round, compares an old one, and reports a third mismatch in a row |
| `FailoverCore.Core.PickSwitch` | src/failover/core.rs:336-403 | Whatever the map order, the pick is maximal among its candidates, stall before preferred before lag, and none only if there is no candidate |
| `FailoverCore.BestOverall` | src/failover/core.rs:391-402 | The maxima of the three scans, taken in this order, are a correct pick |
| `FailoverCore.Core.SwitchTo` | src/failover/core.rs:408-440 | Succeeds exactly if the standby can continue the node's chain, replays that chain and settles the others; a refusal changes nothing |
| `FailoverCore.Core.Replay` | src/failover/core.rs:428-438 | The loop records every replayed block and settles the other standbys with each |
| `FailoverSession.FailoverSession.constructor` | src/failover/session.rs:293-305 | The session's first state |
| `FailoverSession.FailoverSession.OnBlock` | src/failover/session.rs:405-446 | The new state after a block frame from any upstream, and whether it goes to the node |
| `FailoverSession.FailoverSession.OnActiveBlock` | src/failover/session.rs:412-440 | An implausible, lagging or jumping round kills the active and is not sent; the rest is sent if above the floor and new |
| `FailoverSession.FailoverSession.ForwardActiveBlock` | src/failover/session.rs:327-345 | Hands a block to the core and drops exactly the standbys that disagree |
| `FailoverSession.FailoverSession.OnStandbyBlock` | src/failover/session.rs:412-446 | Drops a standby for an implausible or lagging round or a third mismatch |
| `FailoverSession.FailoverSession.Leave` | src/failover/session.rs:455-467 | A lost standby is removed, a lost active is dead |
| `FailoverSession.FailoverSession.Join` | src/failover/session.rs:468-479 | A connected standby gets a fresh id |
| `FailoverSession.FailoverSession.OnTick` | src/failover/session.rs:533-573 | Makes some pick the rules allow and carries it out |
| `FailoverSession.FailoverSession.SwitchTo` | src/failover/session.rs:536-573 | Replays the standby's chain, restarts the progress guard, removes the old active and the disagreeing standbys |
| `FailoverBooks.LedgerInserted` | src/failover/core.rs:115-127 | Inserting a delivered block loses nothing that the highest discarded round does not account for |
| `FailoverBooks.LedgerSettled` | src/failover/core.rs:260-277 | Neither does settling |
| `FailoverBooks.TrailingMatchesMeans` | src/failover/core.rs:101-112 | The match counter is at least `n` exactly when the last `n` comparisons all matched |
| `FailoverBooks.RejectsMeans` | src/failover/core.rs:101-112 | The drop verdict is given exactly when the last three comparisons all differed |
| `FailoverBooks.ReplayClimbs` | src/failover/core.rs:408-424 | What a switch replays climbs from the node's last round, each block naming the one before it |
| `FailoverSeam.BufferIsTail` | src/failover/core.rs:166-168 | A linked standby that can continue holds exactly what it delivered above the node's last round |
| `FailoverSeam.SwitchReplaysTail` | src/failover/core.rs:170-188 | Its chain is all of that, in order, and taking it out empties the buffer |
| `FailoverRuns.StepKeepsInv` | src/failover/session.rs:405-573 | Every step of a session keeps the invariant |
| `FailoverRuns.BufferLedger` | src/failover/core.rs:115-146 | In every reachable state: delivered rounds above the node's last are buffered or at most the highest discarded one; buffered ones are above it and were delivered; both limits hold |
| `FailoverRuns.NodeStream` | src/failover/core.rs:250-296 | Over every run the rounds sent to the node strictly increase, and every replayed block's parent is the round sent just before it |
| `FailoverRuns.OneChain` | src/failover/core.rs:408-440 | If the upstreams' streams are linked and the floor held nothing back, the node's whole stream is one linked chain, across any number of switches |
| `FailoverRuns.SeamlessSwitch` | src/failover/session.rs:533-573 | In every reachable state, a picked standby with a linked stream replays all it delivered above the node's last round, in order, ends with an empty buffer, and its next block continues from the node's last |
| `FailoverRuns.PickRules` | src/failover/core.rs:336-403 | A picked standby can be switched to, and yields exactly `chain_len` frames, at least one; lag and preferred picks respect the dwell time; a priority active yields to a pool peer only when stalled or dead |
| `FailoverRuns.SwitchDiscipline` | src/failover/core.rs:351-402 | Over every run: lag and preferred switches are a dwell time apart from the switch before; a priority active yields to a pool peer only when stalled or dead; and the last three comparisons of every target were of blocks it had delivered, matching blocks the node was sent |
| `FailoverRuns.ReportedOnBlock` | src/failover/core.rs:299-322 | In every reachable state a standby is reported for a late block exactly when its last three comparisons all differ |
| `FailoverRuns.ReportedOnSettle` | src/failover/core.rs:260-296 | The same for a buffered block once the active delivers its round |
| `FailoverRuns.ReportedOnReplay` | src/failover/session.rs:536-573 | A switch drops the old active, and of the other standbys exactly those for which some replayed block was the third difference in a row |
| `FailoverRuns.ReportedAtBlock` | src/failover/core.rs:426-433 | At every block of a replay, settling it reports an upstream exactly then |
| `Lz4.UntilIsPrefix` | src/protocol.rs:127-197 | Stopping the decoder early gives a prefix of the full output, long enough or all of it |
| `Lz4.FirstN` | src/protocol.rs:127-197 | For every block the full decoder accepts, the bounded decoder writes exactly the first `min(n, length)` bytes, overlapping matches included, and touches nothing outside its buffer |
| `Lz4.FirstUntil` | src/protocol.rs:127-197 | For every input, valid or not, the bounded decoder succeeds exactly when decoding up to the bound does, and writes that |
| `Lz4.Sequence` | src/protocol.rs:132-195 | One token, its literals and its match, against one step of the specification |
| `Lz4.LengthAt` | src/protocol.rs:136-148 | A length with its continuation bytes, or the end of the input |
| `Lz4.CopyBack` | src/protocol.rs:187-191 | Copying byte by byte from `offset` back is the overlapping match copy |
| `Lz4.DecodesLiterals` | src/protocol.rs:127-197 | Decoding a block of literals gives the literals back, so every output is some block's |
| `BlockRound.FindBlockRoundParent` | src/protocol.rs:75-93 | The scan returns the round and parent of the header found |
| `BlockRound.FindIsFirst` | src/protocol.rs:75-93 | It is the first header triple in the scanned bytes, and nothing exactly when there is none |
| `BlockRound.FindReadsPrefix` | src/protocol.rs:69-93 | The answer depends only on the scanned prefix |
| `BlockRound.BoundedIsFull` | src/protocol.rs:200-222 | For every payload that decompresses, the bounded reading equals scanning the full block |
| `BlockRound.BlockRoundFull` | src/protocol.rs:104-114 | The round by full decompression |
| `BlockRound.BlockRound` | src/protocol.rs:200-211 | For every payload that decompresses, the fast round is the full one |
| `BlockRound.BlockRoundParent` | src/protocol.rs:214-222 | The same for round and parent |
| `RoundCluster.BestRoundCluster` | src/protocol.rs:398-417 | Sorts in place and returns the longest run of rounds within the gap, the higher one on a tie, if it is large enough |
| `RoundCluster.LongestRun` | src/protocol.rs:403-415 | The one-pass scan finds that run among all maximal runs |
| `RoundCluster.MajorityMedian` | src/protocol.rs:388-417 | If most rounds lie in an interval no wider than the gap, the median of the longest run lies in it |
| `RoundCluster.MajorityTip` | src/protocol.rs:388-394 | So the tip exists and lies in it, whatever the other rounds are |
| `RoundCluster.ClusterMajorityTip` | src/protocol.rs:384-394 | Where most of the best cluster lies, the tip lies, whatever the gap and the rounds outside the cluster |
| `RoundCluster.TipCorroborated` | src/protocol.rs:388-394 | Every tip is a reported round with another within the gap above it |
| `RoundCluster.CorroboratedClusteredRound` | src/protocol.rs:388-394 | The method computes the lower median of the longest run, with clusters of at least two |
| `ProbeTip.ClusteredProbeTip` | src/peerd/daemon.rs:56-62 | A majority of the reported rounds within the lag allowance fixes the published tip |
| `ProbeTip.SplitLiveByTip` | src/peerd/daemon.rs:64-84 | The live peers and the lagging ones, in order |
| `ProbeTip.LiveIff` | src/peerd/daemon.rs:64-84 | A peer is live exactly when it was probed and is within the allowance of the tip, if there is one |
| `ProbeTip.MajorityKept` | src/peerd/daemon.rs:56-84 | Every peer of that majority stays live |
| `PrefetchProtocol.StepKeepsInv` | src/gateway/client_blocks.rs:279-374 | Every atomic step of every thread keeps the invariant |
| `PrefetchProtocol.QuietSlotIsCurrent` | src/gateway/client_blocks.rs:300-347 | In every interleaving, while no pin is between its bump and its clear, the slot is empty or holds a prefetch of the current generation |
| `PrefetchProtocol.ClearedPinIsFinal` | src/gateway/node.rs:103-138 | Once a pin has cleared the slot, no older prefetch is in it or about to be put there |
| `PrefetchProtocol.NoBatchAcrossPin` | src/gateway/client_blocks.rs:355-374 | No batch is served across a pin: every pin before it was served, even during the wait, came before its fetch began |
| `ForwardGate.RoundDedup.IsNew` | src/protocol.rs:232-244 | Whether the slot held another round, and the slot's new content |
| `ForwardGate.RoundForwardGate.ShouldForward` | src/protocol.rs:419-468 | An active's block is forwarded exactly if it is above the last one, whatever the slot ring holds; another's exactly if it is the next one |
| `PushGates.PathsAgree` | src/push/live.rs:911-1029 | The two copies of the gate sequence, each written out from its own path, treat a well-formed frame alike: queue, drops, refusal and progress |
| `PushGates.SplitAnywhere` | src/push/live.rs:862-1029 | Splitting a list of well-formed frames anywhere into prefetched and live gives the same queue, drops and refusal as one live run |
| `PushGates.SessionClimbs` | src/push/live.rs:862-1029 | Over every session the forwarded block rounds strictly increase |
| `PushGates.PushSession.ProcessLiveFrame` | src/push/live.rs:965-1029 | The prefetched path |
| `PushGates.PushSession.LiveFrame` | src/push/live.rs:911-957 | The live path, one frame |
| `PushGates.PushSession.PumpMerge` | src/push/live.rs:862-960 | The live loop stops at the first refusal |
| `Freshest.FreshestRound.Offer` | src/push/live.rs:405-418 | Ignores rounds over the ceiling, raises the stream's round, and forgets stale streams |
| `Freshest.FreshestRound.GetWithin` | src/push/live.rs:438-456 | The reference is the largest round that fresh, under-ceiling streams of two different peers have reached, and none without two such peers |
| `Freshest.FreshestRound.Get` | src/push/live.rs:433-435 | The same with the staleness limit |
| `Freshest.FreshestRound.SelectFloor` | src/push/live.rs:425-431 | The floor is the reference among younger streams less the lag allowance |
| `Freshest.PerPeer` | src/push/live.rs:443-452 | The loop finds each peer's best counted round |
| `Freshest.SecondHighest` | src/push/live.rs:453-455 | The second highest of the peers' bests |
| `Freshest.BestsAreReference` | src/push/live.rs:438-456 | That is the reference |
| `LagGuards.BlockProgress.OnRound` | src/push/live.rs:238-251 | Refuses exactly a jump, and else records progress |
| `LagGuards.BlockProgress.Lagging` | src/push/live.rs:256-271 | Flags exactly a session that has been late for the grace period |
| `LagGuards.StalledBehind.Check` | src/push/live.rs:310-326 | Flags exactly a session far behind for the grace period whose distance has widened |
| `LagGuards.TimerMeans` | src/push/live.rs:256-271 | The timer is the time of the first check of the unbroken stretch of late checks that ends now |
| `LagGuards.LagFiresMeans` | src/push/live.rs:256-271 | In every state a run reaches, the lag guard fires at a check exactly if that stretch, this check included, began at least the grace period ago |
| `LagGuards.OnePeerCannotRaise` | src/push/live.rs:438-456 | The reference is at most what the other peers have reached, however many streams one peer feeds |
| `LagGuards.CheckPasses` | src/push/live.rs:256-326 | Such a check neither fires nor leaves a timer running |
| `LagGuards.OnePeerCannotFrame` | src/push/live.rs:256-326 | In every run in which, whenever a guard checks, all peers but one are within the allowance of the session's own rounds, no check of either guard ever ends the session |
| `LagGuards.FloorWithinGuard` | src/push/live.rs:425-431 | The floor is at most the current reference less the allowance |
| `LagGuards.FloorHolds` | src/push/live.rs:405-456 | While no counted stream ends, the reference up to a grace period later is at least the one the floor was taken from |
| `LagGuards.FloorNeedsWindow` | src/push/live.rs:425-431 | With a grace period longer than the staleness limit this fails: for every such pair, two offers set a floor that has no reference left a grace period later |
| `CatchupLog.ClientBlockLog.MarkResponse` | src/gateway/node.rs:177-212 | The run continued or restarted, and its sample window trimmed |
| `CatchupLog.LogKeeps` | src/gateway/node.rs:177-212 | After any history the log holds its latest samples; each one it dropped is past the span or no later than the log's start of the run |
| `CatchupLog.LogStarts` | src/gateway/node.rs:186-209 | The log is within its count, and its start of the run is the history's, or the time of a batch with as many newer ones as the log can keep |
| `CatchupLog.SinceIsHistorys` | src/gateway/node.rs:193-232 | The run counts as older than the window exactly if it began before the window and the window's batches are no more than the log can keep |
| `CatchupLog.VerdictIsHistorys` | src/gateway/node.rs:219-266 | The verdict in terms of the history alone: still exactly if the run began before the window, the window's batches sat still, and they are no more than the log can keep |
| `CatchupLog.CrowdedIsNotStill` | src/gateway/node.rs:193-199 | For every larger count there is a history that sat still and is not called still |
| `CatchupLog.StillMeans` | src/gateway/node.rs:219-266 | A "still" verdict means no two judged batches are a progress step apart |
| `Redaction.IPv4IsDotted` | src/priority.rs:302-320 | Every listed address, written out, is of the form the results need |
| `Redaction.WholeUnique` | src/priority.rs:346-374 | No two different addresses stand whole at one place, so the order of the list does not matter there |
| `Redaction.WholeBefore` | src/priority.rs:355-370 | A replacement leaves the addresses before it as they were |
| `Redaction.WholeAfter` | src/priority.rs:355-370 | And those after it |
| `Redaction.LabelInert` | src/priority.rs:350-370 | No address starts in a label, even with the text that follows |
| `Redaction.SameRedaction` | src/priority.rs:346-374 | Replacing one occurrence leaves the all-at-once redaction of the line unchanged |
| `Redaction.RedactPeer` | src/priority.rs:352-370 | The loop over one address ends and leaves none of it, nor of earlier ones |
| `Redaction.RedactWith` | src/priority.rs:346-374 | The result is the line with every whole occurrence replaced at once and all else as it was; none is left; redacting again changes nothing |
| `Crawl.SelectTargets` | src/peerd/crawl.rs:147-156 | New hosts only, each once, within the budget; all of the frontier unless the budget is spent |
| `Crawl.TakeAnswer` | src/peerd/crawl.rs:180-190 | One answer's peers reach the discovered set, up to its cap, and the next frontier |
| `Crawl.Gather` | src/peerd/crawl.rs:175-193 | In any answer order, the next frontier is exactly the unvisited peers the targets advertise |
| `Crawl.Hop` | src/peerd/crawl.rs:142-193 | One hop, or none if there is no host to ask |
| `Crawl.HostsSettle` | src/peerd/crawl.rs:142-160 | Once a hop brings nothing new, no later one would, so stopping there loses nothing |
| `Crawl.CrawlPeers` | src/peerd/crawl.rs:122-196 | No host is asked twice, no own address is asked or returned, the budget is kept and is spent unless every host nearer than `depth` was asked; with no cap reached the result is exactly what those hosts advertise |
| `ProbeRotation.KeepPrevious` | src/peerd/daemon.rs:137-144 | The candidates among the first previous peers, up to half a cycle |
| `ProbeRotation.Scan` | src/peerd/daemon.rs:146-164 | The candidates from the cursor on, around the end, until the selection is full |
| `ProbeRotation.SelectProbeCandidates` | src/peerd/daemon.rs:125-167 | A duplicate-free selection of at most the limit, from the candidates; where the scan stopped is where the next begins |
| `ProbeRotation.RotationIsFair` | src/peerd/daemon.rs:125-167 | With at least two per cycle, every candidate is selected within `ceil(n / (m - m/2))` cycles, whatever the lists of live peers were |
| `ProbeRotation.OnePerCycleStarves` | src/peerd/daemon.rs:125-167 | With one per cycle, a peer that stays live is all that is selected, and the cursor does not move |

## Left out

- Sockets, timeouts, tasks and channels in every file: the model starts at the decisions they lead to.
- `lz4_flex` and the keyed hash in `block_hash`: the full decoder is written as a specification, the hash is an abstract value.
- `Upstream` in `src/failover/core.rs` is a value that the core's map owns, not an object of its own; nothing else refers to it in the program either.
- Leads in the failover core are exact integers of milliseconds, and ids and counters do not wrap.
- Prefetched frames at the start of a failover session, the no-progress timer, the blacklist and the rotation of slow standbys: each only adds one of the modelled steps (a block from the active, a dead active, a standby leaving).
- The grace period after which a session with a dead active ends, cooldowns, and dialling new standbys.
- Non-block frames in a failover session, which pass through from the active only.
- FailoverRuns.SeamlessSwitch: speaks of standbys whose own deliveries are linked, which is what the code relies on; a standby that skips blocks is covered by FailoverRuns.NodeStream only.
- PrefetchProtocol: real and lazy pins take the same steps there, and which peer is pinned is not modelled; the fetch itself is a step that may take any time.
- PushGates: the tip and the floor are fixed over a session and the timed guards are aside; the guards are in LagGuards.
- PushGates.PumpMerge: requires frames of at least a header, as the reader delivers them.
- ForwardGate.RoundDedup: the slot mask is written as a remainder, which is the same for a power of two.
- Crawl: a host's answer is a fixed table entry, the parsing of answers and the concurrency limit are aside.
- Racing and peer ordering in `src/gateway/select.rs`, bootstrap capture in `src/gateway/cache.rs`, environment parsing, status output and counters: timing, input and output, or one-branch facts.
