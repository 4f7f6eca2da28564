# A verified model of the packet schedulers and transport protocols

A Dafny 4.11 model of two groups of components, with proofs of what they guarantee over
whole runs.

**Schedulers of the `CONGA-Htsim` simulator.** `FairQueue` (self-clocked fair queueing with
tail drop), `AprxFairQueue` (a calendar of FIFO slots driven by a count-min sketch),
`StocFairQueue` (deficit round robin), and the plain `Queue` feeding a `Pipe` on the
simulator's `EventList`.

**Reliable delivery.** The New Reno sender `TcpSrc` with `TcpSink` and the reassembly of
`DataSink`, and the DPDK sliding window of `TCP-SW-DPDK`: both over a network that may lose,
duplicate, delay and reorder.

Every component has the same shape:

| file | content |
|---|---|
| `XSpec.dfy` | the state as a value, the steps as functions, the invariant, proofs that every step keeps it |
| `X.dfy` | the source's class: fields and arrays updated in place, loops as in the source, each method proved to take exactly the step of the specification |
| `XRuns.dfy` | theorems over every run of the specification |

`Packets.dfy`, `Htsim.dfy` and `Arithmetic.dfy` hold what they share. The theorems on the
reassembly are in `DataSinkSpec.dfy`, since the sink has no runs of its own.

| file | more about |
|---|---|
| `Hashing.dfy` | the hash of the schedulers: its primes, and when it spreads flows without collision |
| `StocFairQueueFlows.dfy`, `AprxFairQueueFlows.dfy` | what that means for order, accuracy and fairness of flows |
| `TcpReno.dfy` | how the congestion window grows, and what a loss does to it |
| `TcpProgress.dfy` | the sender's sequence numbers, timer and window on every run; finishing a flow |
| `TcpBounds.dfy` | runs without 32-bit overflow |
| `TcpClock.dfy` | runs that keep to the sender's own schedule and to a network with delay |
| `TcpCollapse.dfy`, `TcpStall.dfy` | such runs in which the window collapses, and in which the sender stops for ever |
| `SlidingWindowProgress.dfy` | progress and completion of a flow |
| `SlidingWindowFlows.dfy` | all flows together |
| `SlidingWindowTimers.dfy` | the retransmission timers |

Run `dafny verify dfyconfig.toml` to check everything.

## What is proved, in short

- **Fair queueing.** While a flow stays in the system its start tag advances by exactly the
  bytes it enters into service, tail drops included; so two such flows differ by at most two
  packets over any stretch of any run. While a flow's next packet waits, any other flow, coming
  and going as it likes, gets at most that packet's size plus one packet. Tags of a flow are
  contiguous, dropping an arrival restores the previous state, each flow leaves in order with
  exactly its tail-dropped packets missing, nothing is lost or invented. Equal tags are served by
  packet identifier, and overload drops in the reverse order.
- **Approximate fair queueing.** A packet is queued exactly when it fits the buffer and its flow is not
  charged beyond the calendar. Each packet leaves in exactly the round it was assigned on
  arrival and each flow in exactly its order of acceptance, for any hash collisions; the
  unsigned difference in the ECN test cannot wrap; no flow gets the bytes of a range of rounds
  plus a packet into that range; the sketch never underestimates the exact counter of the source's
  comment, and is exact for a flow alone in one of its buckets. Two such flows that stay backlogged
  are served amounts that differ by less than two packets over the rounds passed, and by at most two
  rounds' bytes and two packets between any two events; no other flow, whatever its collisions, gets
  more than that above such a flow.
- **Deficit round robin.** Two busy sub-queues differ by at most a quantum plus two packets less
  two bytes; a packet at the head of its sub-queue starts after at most
  `ceil(size / quantum)` turns of the list; both selection loops terminate. Each flow leaves in
  order whatever shares its sub-queue, and the same fairness holds between flows that share theirs
  with no other flow.
- **Hash.** The first `m` flows get `m` different places of a table of `m` entries *if and only if* the
  prime does not divide `m` (`Hashing.SpreadsExactly`). So up to `nQueue` or `nBucket` flows, numbered
  from 0, meet the conditions of both fairness theorems for every table size that is not a multiple of
  7643, and the sketch is exact for all of them.
- **Link.** The event-driven code computes the departure-time recursion exactly, each busy
  element has exactly one pending event, the clock assertions never fail, and the events of one
  instant fire in the order in which they were scheduled.
- **TCP.** The sink acknowledges no byte it has not received, whatever arrives. With packets that
  overlap it can lose bytes it has received; it accounts for every byte *if and only if* each packet
  it ignores ends within what it holds and each other one overlaps nothing stored
  (`DataSinkSpec.ReassemblyExactly`), which whole segments always satisfy. End-to-end safety holds
  on every run, and so do these, without any bound:
  - `_last_acked <= _highest_sent` (`TcpProgress.RunBehind`);
  - an active sender's timer stays armed *if and only if* no acknowledgement arrives outside recovery
    that covers everything sent while even twice `_cwnd` is less than a packet
    (`TcpProgress.RunArmedExactly`);
  - its window keeps room for a packet *if and only if* no acknowledgement overflows the 32-bit sum
    its branch forms, four cases in all (`TcpProgress.RunUsableExactly`);
  - from every state with an armed timer some continuation finishes a sized flow
    (`TcpProgress.CanFinish`).

  Until 2,863,305 acknowledgements have been delivered nothing can overflow: the timer is always armed,
  the only way to lose the window is a fast-recovery exit on an acknowledgement exactly one packet
  beyond `_highest_sent` (`TcpBounds.NeverStalls`, `TcpBounds.WindowKeptIff`), and every sized flow can
  be finished. Both exceptions are real, on runs that keep to the sender's own schedule and to a
  network with 100 microseconds of delay each way that delivers nothing twice. In
  `TcpCollapse.WindowCanCollapse` reordering empties the window at a recovery exit. In
  `TcpStall.StallReachable` an unlimited flow without any loss grows `_cwnd` to 2^32 - 1 and wraps it to
  0, after which an acknowledgement of everything sent turns the timer off: the sender is active and,
  as long as the network delivers nothing twice, never sends again (`TcpStall.StalledForever`).

  The window itself obeys the textbook. In congestion avoidance one window of acknowledgements opens
  it by at most a packet, and by a packet up to rounding (`TcpReno.OneWindowOfAcks`); however many
  duplicates and partial acknowledgements a loss takes, recovery ends with at most half of the window
  it began with, or two packets (`TcpReno.LossEpisode`). The division in `inflateWindow` is always
  defined, because it only happens when `_cwnd >= _ssthresh >= 2 * MSS_BYTES`.
- **Sliding window.** No two live sequence numbers ever meet in a slot of the 128-slot ring;
  everything acknowledged was received or is one of the recorded skips; ten stalled rounds pay for
  each skip; the flows of a burst do not disturb each other. A packet is retransmitted exactly
  when more than 50 microseconds have passed since it was last sent, although 128 time stamps
  serve all packets. New packets fill the advertised window and never go past it. A turn of the
  client makes progress *if and only if* something is unacknowledged or the advertised window is
  open; otherwise the client is stuck until an acknowledgement opens it. A client that is not
  stuck can always complete its flow. The server advertises one window throughout: a client can
  get stuck before the end *if and only if* that window is 0.

## Assumptions

- Packet sizes are at least 1 in `FairQueue` and `StocFairQueue`, and in `DataSinkSpec.ReassemblyExactly`;
  everything else takes any size. Theorems with a numeric bound name the largest size. `quantum`,
  `bytesPerRound`, `nQueue`, `nHash`, `nBucket` and the bit rate are at least 1.
- `FairQueue::_currentPkt` starts null. The constructor leaves it unset, yet `receivePacket` reads it.
- `sendOn` does not re-enter the same queue or pipe synchronously.
- Times, 64-bit byte counts, the DPDK sequence numbers, and the 32-bit `_credits`, `_Qsize`, `_currQ` and
  `_nPackets` of the schedulers are unbounded. `StocFairQueueRuns.RunInv` keeps every credit below
  `quantum` plus the largest packet, `_Qsize` is part of `_queuesize` and so at most `_maxsize`, and
  `AprxFairQueueRuns.SketchBounded` says how far a sketch cell can be from 2^64.
- `_cwnd`, `_ssthresh`, `_dupacks`, `same_ack`, the sliding window's clock and the 32-bit differences of
  `TcpSrc` wrap as in the source. `TcpBounds.RunLive` and `TcpBounds.WindowKeptExactly` carry `RoomyRun`, a
  check on each state that rules out an overflow; `TcpBounds.ShortRunsAreRoomy` discharges it.
- In the system of `TcpRuns` data packets are whole segments of `MSS_BYTES`, as its sender makes
  them; the sink itself takes any packet.
- The network is the set of packets ever sent: any of them may arrive at any later time, any
  number of times, or never. The phases of the sliding window's client interleave freely, which
  allows more runs than its loop does.

Lists that the source pushes at the front and serves at the back are written oldest first. A
scheduler's call to put its completion on the event list appears as the out-parameter `scheduled`.

`FairQueue` describes itself as byte-by-byte round robin; in its only live mode the virtual time
is the finish tag of the packet in service, and the model follows that. The server of the sliding
window computes the window it advertises from the addresses of two arrays, the same in every
acknowledgement. The model takes an arbitrary window in each, and `SlidingWindowProgress.StuckIffClosed`
is about a fixed one.

## Model

| member | source | states |
|---|---|---|
| FairQueueSpec.LessIsStrictWeakOrder | CONGA-Htsim/fairqueue.h:12-30 | the comparison is a strict weak order, as an ordered multiset requires; `SortedInOrder` says which |
| FairQueueSpec.SortedInOrder | CONGA-Htsim/fairqueue.h:15-29 | sorted means by tag, and among equal tags by packet identifier, least first |
| FairQueueSpec.InsertPlace | CONGA-Htsim/fairqueue.cpp:110 | an insertion goes behind everything of a smaller tag, or of the same tag and no larger identifier, and before the rest |
| FairQueueSpec.InsertWaiting | CONGA-Htsim/fairqueue.cpp:110 | inserting a flow's new tag puts the packet behind the flow's others and leaves other flows alone |
| FairQueueSpec.FinishTagContinues | CONGA-Htsim/fairqueue.cpp:98-108 | whichever branch computed it, a new tag exceeds the end of the flow's tag chain by exactly the packet's size |
| FairQueueSpec.EnqueueCore | CONGA-Htsim/fairqueue.cpp:90-112 | an arrival keeps tags sorted, chained per flow and not below virtual time, and the counters exact |
| FairQueueSpec.LastIsFlowLast | CONGA-Htsim/fairqueue.cpp:119-133 | the largest tag belongs to its flow's last packet and equals that flow's `_flowRound` |
| FairQueueSpec.DropLastCore | CONGA-Htsim/fairqueue.cpp:119-134 | dropping the largest tag rolls the flow's tag back to its new last packet and keeps the whole invariant |
| FairQueueSpec.OverfullHasWaiting | CONGA-Htsim/fairqueue.cpp:118-120 | the drop loop never looks for a last element in an empty multiset |
| FairQueueSpec.DropTailKeepsPrefix | CONGA-Htsim/fairqueue.cpp:118-142 | survivors are the longest prefix in tag order that fits the buffer |
| FairQueueSpec.DroppedLast | CONGA-Htsim/fairqueue.cpp:118-142 | what the overload loop frees is what it does not keep, from the back of the service order |
| FairQueueSpec.CompleteInv | CONGA-Htsim/fairqueue.cpp:39-71 | a completion keeps the invariant: `_flowRound` is the last tag, tags contiguous, `_queuesize` exact and within `_maxsize` |
| FairQueueSpec.ReceiveInv | CONGA-Htsim/fairqueue.cpp:74-147 | an arrival, its drops and a possible service start keep the invariant |
| FairQueue.FairQueue.constructor | CONGA-Htsim/fairqueue.cpp:7-12 | the empty queue satisfies the invariant |
| FairQueue.FairQueue.BeginService | CONGA-Htsim/fairqueue.cpp:15-36 | serves the smallest tag and makes it the virtual time |
| FairQueue.FairQueue.CompleteService | CONGA-Htsim/fairqueue.cpp:39-71 | exact new state; departs the packet in service, with an ECN mark exactly above the threshold |
| FairQueue.FairQueue.Enqueue | CONGA-Htsim/fairqueue.cpp:90-112 | exact new state of counting, tagging and inserting |
| FairQueue.FairQueue.DropLargest | CONGA-Htsim/fairqueue.cpp:119-134 | exact new state of one drop, and the packet dropped |
| FairQueue.FairQueue.DropOverload | CONGA-Htsim/fairqueue.cpp:118-142 | the overload loop reaches exactly the specified state and frees exactly the specified packets |
| FairQueue.FairQueue.ReceivePacket | CONGA-Htsim/fairqueue.cpp:74-147 | exact new state; frees exactly the overload drops in order; starts service exactly when idle |
| FairQueueRuns.RunInv | CONGA-Htsim/fairqueue.cpp:15-147 | the invariant holds in every state of every run |
| FairQueueRuns.ServedFirst | CONGA-Htsim/fairqueue.cpp:15-25 | the packet entering service has the least tag of all that wait, and the least identifier among equal tags |
| FairQueueRuns.DropsLast | CONGA-Htsim/fairqueue.cpp:118-142 | nothing that an overloaded arrival keeps has a larger tag than anything it drops, nor the same tag and a larger identifier |
| FairQueueRuns.RoundNeverDecreases | CONGA-Htsim/fairqueue.cpp:19-25 | virtual time never goes back |
| FairQueueRuns.StartAdvance | CONGA-Htsim/fairqueue.cpp:15-147 | one event moves a backlogged flow's start tag by exactly the bytes it enters into service |
| FairQueueRuns.StartNearRound | CONGA-Htsim/fairqueue.cpp:19-25 | for a waiting head packet, tag minus size <= virtual time <= tag |
| FairQueueRuns.ServiceTracksRound | CONGA-Htsim/fairqueue.cpp:15-147 | a backlogged flow's service is within one packet of the advance of virtual time |
| FairQueueRuns.Fairness | CONGA-Htsim/fairqueue.cpp:15-147 | two backlogged flows' service differs by at most two packets over any stretch of any run |
| FairQueueRuns.StartNeverLags | CONGA-Htsim/fairqueue.cpp:15-147 | one event never lets any flow's service outrun its start tag, whether it stays, joins or leaves |
| FairQueueRuns.Isolation | CONGA-Htsim/fairqueue.cpp:15-147 | while a flow's next packet waits, any other flow enters at most that packet's size plus one largest packet |
| FairQueueRuns.DropUndoesArrival | CONGA-Htsim/fairqueue.cpp:118-142 | dropping the packet that just arrived restores the entire previous state |
| FairQueueRuns.FlowOrder | CONGA-Htsim/fairqueue.cpp:110-142 | departed then held packets of a flow are its arrivals in order, and the missing ones are exactly its drops |
| FairQueueRuns.Conservation | CONGA-Htsim/fairqueue.cpp:39-147 | arrivals = departures + drops + held, as multisets |
| AprxFairQueueSpec.RaiseEstimates | CONGA-Htsim/aprx-fairqueue.cpp:169-173 | a conservative update lowers no flow's estimate and sets its own flow's estimate exactly |
| AprxFairQueueSpec.BucketAdds | CONGA-Htsim/aprx-fairqueue.cpp:192-220 | each row hashes additively, which with the place of flow 1 fixes it |
| AprxFairQueueSpec.BucketsSpread | CONGA-Htsim/aprx-fairqueue.cpp:192-220 | in each of the first four rows the first nBucket flows get different buckets iff the row's prime does not divide nBucket |
| AprxFairQueueSpec.ReceiveExactly | CONGA-Htsim/aprx-fairqueue.cpp:90-131 | a packet is queued iff it fits the buffer and its flow is charged less than the bytes of the rounds up to the end of the calendar; otherwise nothing changes |
| AprxFairQueueSpec.ChargeInRound | CONGA-Htsim/aprx-fairqueue.cpp:110-133 | the byte count charged from lies in the round the packet is assigned to |
| AprxFairQueueSpec.ScanStops | CONGA-Htsim/aprx-fairqueue.cpp:34-42 | the scan for a busy slot takes at most nQueue - 1 steps |
| AprxFairQueueSpec.RotateFlat | CONGA-Htsim/aprx-fairqueue.cpp:36-42 | passing empty slots changes nothing in the service order |
| AprxFairQueueSpec.HeadRound | CONGA-Htsim/aprx-fairqueue.cpp:64-73 | at a departure the flow's sketch round is at least `_nRounds`, so the unsigned difference cannot wrap |
| AprxFairQueueSpec.ReceiveInv | CONGA-Htsim/aprx-fairqueue.cpp:82-179 | an arrival keeps: every queued packet charged up to its round, counters exact, service slot busy |
| AprxFairQueueSpec.CompleteInv | CONGA-Htsim/aprx-fairqueue.cpp:49-79 | a completion keeps the same invariant |
| AprxFairQueue.AprxFairQueue.constructor | CONGA-Htsim/aprx-fairqueue.cpp:7-29 | the empty calendar satisfies the invariant |
| AprxFairQueue.AprxFairQueue.NextSlot | CONGA-Htsim/aprx-fairqueue.cpp:37-41 | the wrapping cursor stays `_nRounds` modulo nQueue and turns the calendar by one |
| AprxFairQueue.AprxFairQueue.BeginService | CONGA-Htsim/aprx-fairqueue.cpp:32-46 | moves the cursor to the first busy slot, one round per slot |
| AprxFairQueue.AprxFairQueue.ReadSketch | CONGA-Htsim/aprx-fairqueue.cpp:104-108 | the loop finds the flow's smallest cell over all rows |
| AprxFairQueue.AprxFairQueue.UpdateSketch | CONGA-Htsim/aprx-fairqueue.cpp:169-173 | the loop raises exactly the flow's cells |
| AprxFairQueue.AprxFairQueue.TakeHead | CONGA-Htsim/aprx-fairqueue.cpp:53-57 | exact new state when the packet in service leaves its slot |
| AprxFairQueue.AprxFairQueue.AssignSlot | CONGA-Htsim/aprx-fairqueue.cpp:101-133 | fits exactly when the assigned round is within nQueue rounds; the slot is that many places after the cursor, wrap included, and the charge is the specified byte count |
| AprxFairQueue.AprxFairQueue.Put | CONGA-Htsim/aprx-fairqueue.cpp:163-167 | appends to the slot k places after the cursor, wrap included |
| AprxFairQueue.AprxFairQueue.CompleteService | CONGA-Htsim/aprx-fairqueue.cpp:49-79 | exact new state; ECN mark exactly when 8 rounds ahead or above the threshold |
| AprxFairQueue.AprxFairQueue.ReceivePacket | CONGA-Htsim/aprx-fairqueue.cpp:82-179 | exact new state; accepted exactly when the buffer and the calendar have room |
| AprxFairQueueRuns.RunInv | CONGA-Htsim/aprx-fairqueue.cpp:32-179 | the invariant holds in every state of every run |
| AprxFairQueueRuns.NothingLater | CONGA-Htsim/aprx-fairqueue.cpp:110-133 | no packet of a flow waits in a later round than its next arrival gets |
| AprxFairQueueRuns.FlowOrder | CONGA-Htsim/aprx-fairqueue.cpp:32-179 | each flow is served in order of acceptance, every packet in exactly its assigned round |
| AprxFairQueueRuns.DepartureRounds | CONGA-Htsim/aprx-fairqueue.cpp:64-73 | rounds never decrease, and every departure finds its flow charged up to the current round |
| AprxFairQueueRuns.RoundShare | CONGA-Htsim/aprx-fairqueue.cpp:110-173 | a flow's bytes assigned to any range of rounds stay below the range's bytes plus one packet, whatever the collisions |
| AprxFairQueueRuns.SketchBounded | CONGA-Htsim/aprx-fairqueue.cpp:110-173 | every cell stays below (`_nRounds` + nQueue) * bytesPerRound plus one packet |
| AprxFairQueueRuns.NeverUnderestimates | CONGA-Htsim/aprx-fairqueue.cpp:101-173 | the estimate never falls below the exact counter of the source's comment |
| AprxFairQueueRuns.ServedIsAssigned | CONGA-Htsim/aprx-fairqueue.cpp:32-179 | once a round is reached, a flow has been served exactly what it was assigned to earlier rounds |
| AprxFairQueueRuns.RoundsFilled | CONGA-Htsim/aprx-fairqueue.cpp:110-173 | a backlogged flow alone in a row fills the rounds that pass to less than a packet |
| AprxFairQueueRuns.BackloggedShare | CONGA-Htsim/aprx-fairqueue.cpp:32-179 | such a flow is served the bytes of any rounds that pass, give or take less than a packet |
| AprxFairQueueRuns.RoundFairness | CONGA-Htsim/aprx-fairqueue.cpp:32-179 | two such flows are served amounts that differ by at most 2 * (Max - 1) bytes over the rounds passed |
| AprxFairQueueRuns.ServedInRounds | CONGA-Htsim/aprx-fairqueue.cpp:32-79 | what is served between two events lies in the rounds between them, and covers the rounds strictly between |
| AprxFairQueueRuns.ServedAtMost | CONGA-Htsim/aprx-fairqueue.cpp:32-179 | between two events any flow is served less than the bytes of the rounds touched plus a packet |
| AprxFairQueueRuns.ServedAtLeast | CONGA-Htsim/aprx-fairqueue.cpp:32-179 | a backlogged flow alone in a row is served at least the bytes of the rounds strictly between, less a packet |
| AprxFairQueueRuns.Isolation | CONGA-Htsim/aprx-fairqueue.cpp:32-179 | no flow, whatever its collisions, is served more than such a flow plus 2 * bytesPerRound + 2 * (Max - 1) between any two events |
| AprxFairQueueRuns.Fairness | CONGA-Htsim/aprx-fairqueue.cpp:32-179 | two such flows are served bytes that differ by at most 2 * bytesPerRound + 2 * (Max - 1) between any two events |
| AprxFairQueueRuns.ExactWhenAlone | CONGA-Htsim/aprx-fairqueue.cpp:101-173 | it equals the exact counter when some row gives the flow a bucket of its own |
| AprxFairQueueFlows.TakenExactly | CONGA-Htsim/aprx-fairqueue.cpp:90-131 | on every run the calendar takes exactly the packets that met those two bounds when they arrived |
| AprxFairQueueFlows.SmallFlowsExact | CONGA-Htsim/aprx-fairqueue.cpp:101-173 | with flows numbered below nBucket, which 7643 does not divide, the sketch is exact for all of them |
| AprxFairQueueFlows.SmallFlowFairness | CONGA-Htsim/aprx-fairqueue.cpp:89-181 | any two such flows that stay backlogged are treated as in `AprxFairQueueRuns.Fairness` |
| Hashing.SpreadsExactly | CONGA-Htsim/stoc-fairqueue.cpp:127-156 | the first m flows go to m different places of a table of m iff the prime does not divide m, for each of the four primes |
| StocFairQueueSpec.SubQueueAdds | CONGA-Htsim/stoc-fairqueue.cpp:95 | the hash is additive, which with the place of flow 1 fixes it |
| StocFairQueueSpec.SharedSubQueue | CONGA-Htsim/stoc-fairqueue.cpp:95 | two flows share a sub-queue iff nQueue divides 7643 times their difference |
| StocFairQueueSpec.SubQueuesSpread | CONGA-Htsim/stoc-fairqueue.cpp:95 | flows 0 to nQueue - 1 all get sub-queues of their own iff 7643 does not divide nQueue |
| StocFairQueueSpec.ReceiveExactly | CONGA-Htsim/stoc-fairqueue.cpp:82-119 | a packet is queued iff it fits the buffer; otherwise nothing changes |
| StocFairQueueSpec.GrantProgress | CONGA-Htsim/stoc-fairqueue.cpp:27-37 | every turn of the selection loop shrinks the total shortfall, so the loop ends |
| StocFairQueueSpec.SettleInv | CONGA-Htsim/stoc-fairqueue.cpp:27-37 | the loop ends with a front sub-queue that can pay, touching only list order and credits |
| StocFairQueueSpec.FrontLeaves | CONGA-Htsim/stoc-fairqueue.cpp:57-62 | removing an emptied sub-queue keeps the list exact and duplicate-free |
| StocFairQueueSpec.ReceiveInv | CONGA-Htsim/stoc-fairqueue.cpp:76-115 | an arrival keeps: list = non-empty sub-queues, waiting credits >= quantum, all credits < quantum + Max |
| StocFairQueueSpec.CompleteInv | CONGA-Htsim/stoc-fairqueue.cpp:43-73 | a completion keeps the same, and the front credits cover the packet in service |
| StocFairQueue.StocFairQueue.constructor | CONGA-Htsim/stoc-fairqueue.cpp:7-19 | the empty scheduler satisfies the invariant |
| StocFairQueue.StocFairQueue.BeginService | CONGA-Htsim/stoc-fairqueue.cpp:22-40 | the loop computes the settled list and credits |
| StocFairQueue.StocFairQueue.BumpFront | CONGA-Htsim/stoc-fairqueue.cpp:30-33 | exact new state of one bump |
| StocFairQueue.StocFairQueue.SpendHead | CONGA-Htsim/stoc-fairqueue.cpp:47-56 | exact new lists, credits and byte counts when the front sub-queue's first packet leaves |
| StocFairQueue.StocFairQueue.TakeHead | CONGA-Htsim/stoc-fairqueue.cpp:47-62 | exact new state of a dequeue, active flags and sub-queue sizes included |
| StocFairQueue.StocFairQueue.CompleteService | CONGA-Htsim/stoc-fairqueue.cpp:43-73 | exact new state; departs the packet in service, ECN-marked exactly above the threshold |
| StocFairQueue.StocFairQueue.Put | CONGA-Htsim/stoc-fairqueue.cpp:95-108 | exact new state of an enqueue, activation included |
| StocFairQueue.StocFairQueue.ReceivePacket | CONGA-Htsim/stoc-fairqueue.cpp:76-115 | exact new state; accepted exactly when the buffer has room |
| StocFairQueueRuns.RunInv | CONGA-Htsim/stoc-fairqueue.cpp:22-115 | the invariant and the credit bounds hold in every state of every run |
| StocFairQueueRuns.SubQueueOrder | CONGA-Htsim/stoc-fairqueue.cpp:43-100 | what a sub-queue accepted has left in order or is waiting in order |
| StocFairQueueRuns.LeadStep | CONGA-Htsim/stoc-fairqueue.cpp:22-115 | service moves one busy sub-queue's lead over another byte for byte; grants and arrivals do not |
| StocFairQueueRuns.LeadRange | CONGA-Htsim/stoc-fairqueue.cpp:29-33 | the lead stays in a window of quantum + 2 * (Max - 1) bytes |
| StocFairQueueRuns.Fairness | CONGA-Htsim/stoc-fairqueue.cpp:22-115 | bytes completed by two busy sub-queues differ by at most quantum + 2 * (Max - 1) |
| StocFairQueueRuns.WaitStep | CONGA-Htsim/stoc-fairqueue.cpp:22-73 | each event takes at least the bytes it completes off a waiting sub-queue's wait |
| StocFairQueueRuns.NoStarvation | CONGA-Htsim/stoc-fairqueue.cpp:22-73 | a head packet's service begins before others complete ceil(size/quantum) * (nQueue-1) * (quantum+Max-1) bytes |
| StocFairQueueFlows.RunHomed | CONGA-Htsim/stoc-fairqueue.cpp:95-98 | on every run each packet waits where its flow hashes to |
| StocFairQueueFlows.FlowOrder | CONGA-Htsim/stoc-fairqueue.cpp:22-119 | each flow leaves in order whatever shares its sub-queue: what has completed and what waits is exactly what fitted the buffer on arrival |
| StocFairQueueFlows.FlowFairness | CONGA-Htsim/stoc-fairqueue.cpp:22-73 | two flows alone in their sub-queues that stay backlogged complete bytes that differ by at most quantum + 2 * (Max - 1) |
| StocFairQueueFlows.SmallFlowFairness | CONGA-Htsim/stoc-fairqueue.cpp:22-119 | so do any two flows when all are numbered below nQueue, which 7643 does not divide |
| LinkSpec.InsertOrdered | CONGA-Htsim/eventlist.cpp:75-83 | the pending multimap stays ordered and not before the clock |
| LinkSpec.InsertAtEnd | CONGA-Htsim/eventlist.cpp:75-83 | an event goes behind those pending for the same instant, and no other instant notices |
| LinkSpec.FireReady | CONGA-Htsim/eventlist.cpp:30-43 | the clock assertion holds, and the first event's source is busy and due now |
| LinkSpec.FireInv | CONGA-Htsim/eventlist.cpp:30-72 | firing keeps one pending event per busy element and no clock assertion fails |
| Link.EventList.SourceIsPending | CONGA-Htsim/eventlist.cpp:75-83 | inserts behind every entry that is not later; the source's assertion is its precondition |
| Link.EventList.Advance | CONGA-Htsim/eventlist.cpp:36-43 | removes the first event and sets the clock to it |
| Link.Queue.constructor | CONGA-Htsim/queue.cpp:9-19 | drain rate from the bit rate |
| Link.Queue.BeginService | CONGA-Htsim/queue.cpp:22-26 | schedules the completion one drain time from now |
| Link.Queue.CompleteService | CONGA-Htsim/queue.cpp:29-49 | the packet enters the next hop before the next one begins; ECN-marked exactly above the threshold |
| Link.Queue.ReceivePacket | CONGA-Htsim/queue.cpp:58-83 | accepted exactly when it fits; service begins exactly when idle |
| Link.Pipe.ReceivePacket | CONGA-Htsim/pipe.cpp:10-21 | exit time now + delay; an event is scheduled exactly when the pipe was empty |
| Link.Pipe.DoNextEvent | CONGA-Htsim/pipe.cpp:24-41 | delivers the oldest packet and schedules the next exit |
| Link.Wire.DoNextEvent | CONGA-Htsim/eventlist.cpp:30-72 | pops, sets the clock, runs the source: exactly the specified step |
| LinkRuns.OneEventEach | CONGA-Htsim/eventlist.cpp:29-83 | on every run the clock is monotone and each busy element has exactly one pending event |
| LinkRuns.SameInstantOrder | CONGA-Htsim/eventlist.cpp:30-83 | on every run the events of one instant fire in the order in which they were scheduled |
| Htsim.MarkingThreshold | CONGA-Htsim/queue.h:30-38 | every queue marks beyond 10, 30 or 90 full packets, more at higher bit rates |
| LinkRuns.ClosedForm | CONGA-Htsim/queue.cpp:21-83 | the k-th accepted packet departs at max(arrival, previous departure) + drain time, exits the pipe `delay` later |
| LinkRuns.DeliveredOnTime | CONGA-Htsim/pipe.cpp:9-41 | the k-th packet out of the pipe is the k-th accepted, at its closed-form time |
| DataSinkSpec.ProcessOrdered | CONGA-Htsim/datasink.cpp:20-62 | any packet leaves the list strictly sorted and the acknowledgement no lower |
| DataSinkSpec.NeverInvents | CONGA-Htsim/datasink.cpp:20-62 | after any packets, overlapping or not, every byte acknowledged and every packet stored was received |
| DataSinkSpec.ReachExactly | CONGA-Htsim/datasink.cpp:44-60 | from a stored packet's first byte the list covers everything up to the next gap, and no more |
| DataSinkSpec.IgnoredClean | CONGA-Htsim/datasink.cpp:41-60 | a packet taken for a bad retransmission ends at or below the acknowledgement, or before the gap after the packet it begins with, iff all its bytes are held |
| DataSinkSpec.CleanKeepsExact | CONGA-Htsim/datasink.cpp:26-60 | a packet that ends within what is held when ignored, and else overlaps nothing stored, adds exactly its bytes |
| DataSinkSpec.ExactNeedsClean | CONGA-Htsim/datasink.cpp:26-60 | any other packet loses bytes or leaves the list stuck |
| DataSinkSpec.ReassemblyExactly | CONGA-Htsim/datasink.cpp:20-62 | every byte received stays accounted for throughout iff each packet was clean when it arrived |
| DataSinkSpec.ExactAcknowledgement | CONGA-Htsim/datasink.cpp:26-40 | then the acknowledgement is the longest prefix of the bytes received |
| DataSinkSpec.StuckForEver | CONGA-Htsim/datasink.cpp:30-40 | a front entry that begins below the acknowledgement stays for ever, and with it everything stored behind it |
| DataSinkSpec.OverlapHidesBytes | CONGA-Htsim/datasink.cpp:30-40 | two overlapping packets after which 150 bytes are received and 100 acknowledged, and a third that moves the acknowledgement but not the stuck entry |
| DataSinkSpec.SegmentsAreClean | CONGA-Htsim/datasink.cpp:20-62 | whole segments are clean in every state they lead to |
| DataSinkSpec.ProcessAdds | CONGA-Htsim/datasink.cpp:20-62 | processing a segment adds exactly it to the set received and keeps the list canonical |
| DataSinkSpec.ReassemblyRefinesSet | CONGA-Htsim/datasink.cpp:20-62 | after any segments in any order with repeats, exactly those have been received |
| DataSinkSpec.AckIsLongestPrefix | CONGA-Htsim/datasink.cpp:26-40 | the acknowledgement is the longest received prefix, the list exactly the rest, strictly sorted |
| DataSinkSpec.SameSetSameState | CONGA-Htsim/datasink.cpp:20-62 | equal sets of segments give equal states |
| DataSinkSpec.OrderIrrelevant | CONGA-Htsim/datasink.cpp:20-62 | two sequences with the same segments end in the same state |
| DataSink.DataSink.ProcessDataPacket | CONGA-Htsim/datasink.cpp:20-62 | exact new state for any packet; the list stays strictly sorted and the acknowledgement never falls |
| DataSink.DataSink.AbsorbReceived | CONGA-Htsim/datasink.cpp:30-40 | the pop loop acknowledges every stored packet that is contiguous |
| DataSink.DataSink.InsertReceived | CONGA-Htsim/datasink.cpp:44-60 | the three insertion paths are one sorted insertion without duplicates |
| DataSink.DataSink.ReceivePacket | CONGA-Htsim/tcp.cpp:464-492 | exact new state for any packet; the acknowledgement carries the new cumulative number and echoes the time stamp and the congestion mark |
| TcpSpec.RttSmoothing | CONGA-Htsim/tcp.cpp:179-201 | the estimate is at most the larger of old estimate and sample and at least the smaller less one picosecond of rounding, and less than two picoseconds below their 7:1 mean; the timer covers it plus four deviations and the minimum |
| TcpSpec.DeviationSmoothing | CONGA-Htsim/tcp.cpp:179-196 | the deviation is within two picoseconds below the 3:1 mean of itself and the error; a first sample counts as it is, with half of it as deviation |
| TcpSpec.SendOne | CONGA-Htsim/tcp.cpp:378-425 | one turn of the send loop leaves exactly one packet less to send |
| TcpSpec.SendsAll | CONGA-Htsim/tcp.cpp:369-425 | sending fills the window or exhausts the flow, and never goes past either |
| TcpSrc.TcpSrc.constructor | CONGA-Htsim/tcp.cpp:18-41 | initial sender state |
| TcpSrc.TcpSrc.DoNextEvent | CONGA-Htsim/tcp.cpp:66-131 | exact new state and packets sent; when and how soon it runs again |
| TcpSrc.TcpSrc.DeflateWindow | CONGA-Htsim/tcp.cpp:105-108 | exact window on leaving fast recovery by a timeout, 32-bit flight size included |
| TcpSrc.TcpSrc.StartOver | CONGA-Htsim/tcp.cpp:110-120 | exact new state: halved threshold, one-packet window, rewound `_highest_sent`, doubled timer |
| TcpSrc.TcpSrc.RetransmissionTimeout | CONGA-Htsim/tcp.cpp:92-123 | exact new state after deflating, starting over and retransmitting the first unacknowledged packet |
| TcpSrc.TcpSrc.SendPackets | CONGA-Htsim/tcp.cpp:365-426 | the loop sends exactly the closed-form number of packets |
| TcpSrc.TcpSrc.RetransmitPacket | CONGA-Htsim/tcp.cpp:429-455 | sends the first unacknowledged packet and arms the timer if it is off |
| TcpSrc.TcpSrc.InflateWindow | CONGA-Htsim/tcp.cpp:337-361 | exact new window, 32-bit conversions included |
| TcpSrc.TcpSrc.UpdateRtt | CONGA-Htsim/tcp.cpp:179-201 | exact new round-trip estimate and timer value |
| TcpSrc.TcpSrc.ReceivePacket | CONGA-Htsim/tcp.cpp:134-334 | exact new state and packets sent for every acknowledgement |
| TcpSrc.TcpSrc.ReceiveNewAck | CONGA-Htsim/tcp.cpp:240-294 | exact new state for a new acknowledgement in and out of fast recovery |
| TcpSrc.TcpSrc.ReceivePartialAck | CONGA-Htsim/tcp.cpp:276-293 | exact new state for a partial acknowledgement |
| TcpSrc.TcpSrc.ReceiveDupAck | CONGA-Htsim/tcp.cpp:296-333 | exact new state for a duplicate, 16-bit counter included |
| TcpSrc.TcpSrc.EnterFastRecovery | CONGA-Htsim/tcp.cpp:322-333 | exact new state on entering fast recovery |
| TcpRuns.OnAckOk | CONGA-Htsim/tcp.cpp:134-334 | an acknowledgement keeps alignment and flow bounds, sends only bytes of the flow |
| TcpRuns.DeliverDataSafe | CONGA-Htsim/tcp.cpp:465-492 | the sink holds only what was sent and acknowledges no more than it holds |
| TcpRuns.RunSafe | CONGA-Htsim/tcp.cpp:65-492 | the safety invariant holds in every state of every run |
| TcpRuns.EndToEnd | CONGA-Htsim/tcp.cpp:92-154 | `_last_acked` <= `_cumulative_ack`, all of it sent; alignment; `_highest_sent` < flowsize + MSS; FINISH only when the sink holds the whole flow |
| TcpProgress.RunWords | CONGA-Htsim/tcp.cpp:337-361 | window and threshold stay within their 32 bits on every run |
| TcpProgress.SendCatchesUp | CONGA-Htsim/tcp.cpp:365-426 | sending restores `_last_acked` <= `_highest_sent` from any window |
| TcpProgress.RunBehind | CONGA-Htsim/tcp.cpp:66-455 | on every run `_last_acked` <= `_highest_sent` |
| TcpProgress.SendArms | CONGA-Htsim/tcp.cpp:418-420 | sending leaves the timer armed iff it was, or something is sent |
| TcpProgress.OnAckArms | CONGA-Htsim/tcp.cpp:134-455 | one acknowledgement leaves an armed timer armed iff it is not a disarming one |
| TcpProgress.RunArmedExactly | CONGA-Htsim/tcp.cpp:66-455 | on every run an active sender's timer is armed throughout iff no acknowledgement outside recovery covers everything sent while 2 * `_cwnd` is less than a packet |
| TcpProgress.InflateExactly | CONGA-Htsim/tcp.cpp:337-361 | inflation loses a usable window iff it stands at 2^32 - 1 and something counts as newly acknowledged |
| TcpProgress.OnAckUsable | CONGA-Htsim/tcp.cpp:240-333 | one acknowledgement leaves a usable window usable iff its branch does not overflow 32 bits |
| TcpProgress.RunUsableExactly | CONGA-Htsim/tcp.cpp:240-361 | on every run the window has room for a packet throughout iff no acknowledgement overflows, four cases in all |
| TcpProgress.TimeoutMakesProgress | CONGA-Htsim/tcp.cpp:92-123 | from any safe state with an armed timer, the expired timer's packet and its acknowledgement finish the flow or advance it with the timer armed again |
| TcpProgress.CanFinish | CONGA-Htsim/tcp.cpp:92-154 | every run of a sized flow that ends with an armed timer can be continued to the finish |
| TcpReno.SlowStartGrowth | CONGA-Htsim/tcp.cpp:337-360 | below the threshold an acknowledgement opens the window by what it freed, a packet at most, up to the threshold |
| TcpReno.AvoidanceGrowth | CONGA-Htsim/tcp.cpp:352-360 | from the threshold on it opens the window by its share of a packet, rounded down, but by a byte at least |
| TcpReno.FullWindowStays | CONGA-Htsim/tcp.cpp:342-346 | an overfull window is not inflated |
| TcpReno.AvoidanceAck | CONGA-Htsim/tcp.cpp:240-258 | in congestion avoidance an acknowledgement of one more packet adds g bytes with g * cwnd <= MSS^2 < (g + 1) * cwnd |
| TcpReno.OneWindowOfAcks | CONGA-Htsim/tcp.cpp:240-361 | as many such acknowledgements as the window holds packets open it by at most a packet, and by a packet up to rounding |
| TcpReno.TimeoutHalves | CONGA-Htsim/tcp.cpp:92-123 | a timeout halves the window it leaves recovery with, or two packets, into the threshold, starts over from one packet and doubles the timer |
| TcpReno.FinishesExactly | CONGA-Htsim/tcp.cpp:144-166 | an acknowledgement finishes the flow iff it covers the flow size or the duration is over |
| TcpReno.RecoveryEntry | CONGA-Htsim/tcp.cpp:306-333 | recovery begins iff the acknowledgement is the third duplicate, at or beyond the last recovery point: half of the window as threshold, that and three packets as window, the missing packet sent again |
| TcpReno.RecoveryDuplicate | CONGA-Htsim/tcp.cpp:296-304 | in recovery a duplicate opens the window by a packet |
| TcpReno.RecoveryPartial | CONGA-Htsim/tcp.cpp:276-293 | a partial acknowledgement takes what it acknowledges off the window, less a packet, and sends the next missing packet |
| TcpReno.RecoveryExit | CONGA-Htsim/tcp.cpp:263-274 | an acknowledgement of all that was sent before the loss ends recovery with the threshold as window, or a packet more than is in flight if that is less, and sends one packet at most |
| TcpReno.LossEpisode | CONGA-Htsim/tcp.cpp:92-333 | on every run a stay in recovery ends with an acknowledgement of everything sent before it or with a timeout, and with at most half of the window it began with, or two packets |
| TcpReno.RunCounts | CONGA-Htsim/tcp.cpp:412-452 | on every run `_packets_sent` is the number of packets sent, times their size |
| TcpBounds.SizedFlowsAreNear | CONGA-Htsim/tcp.cpp:148-149 | for every flow with a positive 32-bit size, an acknowledgement that does not finish it is less than 2^32 past `_highest_sent` |
| TcpBounds.RecoveryInflation | CONGA-Htsim/tcp.cpp:297-304 | inflating the recovery window keeps it usable iff the 32-bit sum does not wrap |
| TcpBounds.ExitWindow | CONGA-Htsim/tcp.cpp:263-267 | the 32-bit window of a recovery exit is 0 exactly one packet beyond `_highest_sent`, else at least a packet |
| TcpBounds.EmptiesIsCollapse | CONGA-Htsim/tcp.cpp:240-333 | without overflow the only emptying acknowledgement is that exit |
| TcpBounds.OnAckTight | CONGA-Htsim/tcp.cpp:240-455 | without overflow a window is usable, or 0 with nothing in flight, after every acknowledgement |
| TcpBounds.RunLive | CONGA-Htsim/tcp.cpp:92-455 | on runs whose earlier events meet `Roomy`, moreover, the timer is armed and the window usable, or 0 with nothing in flight |
| TcpBounds.WindowKeptExactly | CONGA-Htsim/tcp.cpp:263-274 | on runs whose events meet `Roomy`, the exact condition of `RunUsableExactly` is that there is no collapsing exit |
| TcpBounds.OnAckWithin | CONGA-Htsim/tcp.cpp:134-455 | one acknowledgement raises the bound on window, threshold and bytes in flight by at most a packet |
| TcpBounds.AckWithin | CONGA-Htsim/tcp.cpp:134-154 | no acknowledgement in the network is further ahead of `_last_acked` than that bound |
| TcpBounds.ShortRunsAreRoomy | CONGA-Htsim/tcp.cpp:134-455 | every run of up to 2,863,305 delivered acknowledgements meets `Roomy`, for any flow size, loss and delay |
| TcpBounds.NeverStalls | CONGA-Htsim/tcp.cpp:92-455 | on every such run no acknowledgement disarms the timer, which is armed whenever the sender is active |
| TcpBounds.WindowKeptIff | CONGA-Htsim/tcp.cpp:263-274 | on every such run the window holds a packet throughout iff there is no collapsing exit |
| TcpBounds.ShortRunsCanFinish | CONGA-Htsim/tcp.cpp:92-154 | every such run of a sized flow can be continued to the finish |
| TcpCollapse.WindowCanCollapse | CONGA-Htsim/tcp.cpp:263-274 | a run on the sender's own event schedule, over a network with 100 microseconds of delay that delivers no packet twice, in which the window becomes 0 |
| TcpStall.GrowingAck | CONGA-Htsim/tcp.cpp:240-258 | in slow start an acknowledgement opens the window by a packet and sends two |
| TcpStall.WrappingAck | CONGA-Htsim/tcp.cpp:352-360 | at `_cwnd` = `_ssthresh` = 2^32 - 1 the next acknowledgement wraps the window to 0 |
| TcpStall.StallingAck | CONGA-Htsim/tcp.cpp:243-258 | then an acknowledgement of everything sent turns the timer off and sends nothing |
| TcpStall.StallReachable | CONGA-Htsim/tcp.cpp:240-361 | a run timed as in `WindowCanCollapse`, without any loss, that gets there: active, timer off, nothing in flight, window 0 |
| TcpStall.StalledForever | CONGA-Htsim/tcp.cpp:66-131 | from there, on every run so timed, the sender never changes or sends again |
| TcpCollapse.IdleTicks | CONGA-Htsim/tcp.cpp:125-130 | until the timer expires the periodic event only reschedules itself one round-trip time later |
| SlidingWindow.LabServer.constructor | TCP-SW-DPDK/Server/lab1-server.c:280-298 | all rings empty, packet 1 expected |
| SlidingWindow.LabServer.RecordPacket | TCP-SW-DPDK/Server/lab1-server.c:331-337 | exact new state of one flow's ring; other flows untouched |
| SlidingWindow.LabServer.AdvanceFlow | TCP-SW-DPDK/Server/lab1-server.c:351-353 | the loop stops at the first number the ring does not hold |
| SlidingWindow.LabServer.RespondFlow | TCP-SW-DPDK/Server/lab1-server.c:351-364 | exact new state, skip on the tenth stalled round, and the acknowledgement number |
| SlidingWindow.LabServer.RecordBurst | TCP-SW-DPDK/Server/lab1-server.c:323-340 | every flow records exactly its own packets of the burst, in order |
| SlidingWindow.LabServer.RespondAll | TCP-SW-DPDK/Server/lab1-server.c:347-370 | exactly the flows that received something respond, each acknowledged once, in order |
| SlidingWindow.LabServer.ServeBurst | TCP-SW-DPDK/Server/lab1-server.c:304-370 | one pass of the receive loop: exact new state of every flow, one acknowledgement for each that received something |
| SlidingWindow.LabClient.Unfinished | TCP-SW-DPDK/Client/lab1-client.c:311-316 | the main loop repeats exactly while some flow lacks acknowledgements |
| SlidingWindow.LabClient.constructor | TCP-SW-DPDK/Client/lab1-client.c:282-301 | nothing sent, a full window, every time stamp 2^63 |
| SlidingWindow.LabClient.StampPackets | TCP-SW-DPDK/Client/lab1-client.c:354-357 | exact time stamps of one flow after the loop; other flows untouched |
| SlidingWindow.LabClient.CollectDue | TCP-SW-DPDK/Client/lab1-client.c:336-349 | the loop collects exactly the unacknowledged packets whose 64-bit elapsed time exceeds the timeout |
| SlidingWindow.LabClient.RetransmitFlow | TCP-SW-DPDK/Client/lab1-client.c:335-358 | retransmits exactly the overdue unacknowledged packets and restarts exactly their timers; they fit the send array |
| SlidingWindow.LabClient.PopulateAll | TCP-SW-DPDK/Client/lab1-client.c:361-364 | exact new send limit of every running flow |
| SlidingWindow.LabClient.SendNew | TCP-SW-DPDK/Client/lab1-client.c:371-376 | the loop sends exactly the closed-form run of new packets; they fit the send array |
| SlidingWindow.LabClient.SendFlow | TCP-SW-DPDK/Client/lab1-client.c:368-386 | sends those packets and starts exactly their timers; other flows untouched |
| SlidingWindow.LabClient.ReceiveAck | TCP-SW-DPDK/Client/lab1-client.c:401-417 | exact new window; other flows untouched |
| SlidingWindowSpec.SendFills | TCP-SW-DPDK/Client/lab1-client.c:371-376 | sending goes on until the advertised window or the written data is used up, and never past either |
| SlidingWindowSpec.PopulateFills | TCP-SW-DPDK/Client/lab1-client.c:361-364 | the send buffer is filled up to 128 packets past the acknowledged one, or to the end of the flow |
| SlidingWindowRuns.RecordExact | TCP-SW-DPDK/Server/lab1-server.c:333-337 | storing a packet of the window keeps the ring an exact picture of what arrived |
| SlidingWindowRuns.RespondSafe | TCP-SW-DPDK/Server/lab1-server.c:351-360 | a round keeps the ring exact, accounts for every packet passed over and every stalled round |
| SlidingWindowRuns.RunSafe | TCP-SW-DPDK/Server/lab1-server.c:304-370 | the protocol invariant holds in every state of every run |
| SlidingWindowRuns.RunCounted | TCP-SW-DPDK/Server/lab1-server.c:336-359 | on every run `last_pkt_sent` bounds everything on the network and never falls, and `last_pkt_recvd` is the largest packet received or skipped |
| SlidingWindowRuns.RingSafety | TCP-SW-DPDK/Server/lab1-server.c:333-353 | everything in the network fits the window, slots tell exactly what arrived, no live numbers collide |
| SlidingWindowRuns.AcknowledgedIsAccounted | TCP-SW-DPDK/Server/lab1-server.c:347-364 | acknowledged packets arrived or were skipped; 10 * skips + `same_ack` = stalled rounds |
| SlidingWindowRuns.Completion | TCP-SW-DPDK/Client/lab1-client.c:310-417 | when the client has all acknowledgements, every packet of the flow arrived or was skipped |
| SlidingWindowProgress.TransmitsExactly | TCP-SW-DPDK/Client/lab1-client.c:333-386 | a turn transmits the first unacknowledged packet iff its timer has expired or, with nothing in flight, the window is open; a stuck client transmits nothing |
| SlidingWindowProgress.TurnFillsWindow | TCP-SW-DPDK/Client/lab1-client.c:361-376 | a turn sends as far as the flow, the send buffer and the advertised window reach, and not further |
| SlidingWindowProgress.FlowControl | TCP-SW-DPDK/Client/lab1-client.c:368-386 | on every run the packets a sending phase puts on the network are exactly those beyond what was sent, within the advertised window and the written data |
| SlidingWindowProgress.IterationMakesProgress | TCP-SW-DPDK/Client/lab1-client.c:310-417 | unless the client is stuck, a turn with that timer expired, the packet's arrival and one acknowledgement move it forward, from any safe state |
| SlidingWindowProgress.CanComplete | TCP-SW-DPDK/Client/lab1-client.c:310-417 | every run that has not left the client stuck can be continued until the whole flow is acknowledged, with any one advertised window of at least 1 |
| SlidingWindowProgress.StuckStays | TCP-SW-DPDK/Client/lab1-client.c:333-386 | only an acknowledgement frees a stuck client |
| SlidingWindowProgress.StuckReachable | TCP-SW-DPDK/Client/lab1-client.c:401-417 | if the address difference that the server advertises is 0, a run gets there: a whole window acknowledged and the window closed |
| SlidingWindowProgress.NeverStuck | TCP-SW-DPDK/Server/lab1-server.c:363-364 | if it is not 0, no run does |
| SlidingWindowProgress.StuckIffClosed | TCP-SW-DPDK/Server/lab1-server.c:363-364 | with one advertised window, some client gets stuck before the end iff that window is 0 |
| SlidingWindowFlows.JointSafe | TCP-SW-DPDK/Server/lab1-server.c:304-370 | with all flows sharing bursts, every flow is safe in every state of every run |
| SlidingWindowFlows.FlowsAreIndependent | TCP-SW-DPDK/Server/lab1-server.c:304-370 | what a flow goes through in a joint run is a run of its own |
| SlidingWindowFlows.JointCompletion | TCP-SW-DPDK/Client/lab1-client.c:310-417 | when the main loop ends, every packet of every flow arrived or was skipped |
| SlidingWindowTimers.StampKeeps | TCP-SW-DPDK/Client/lab1-client.c:354-381 | stamping packets of a window disturbs no other packet's time stamp |
| SlidingWindowTimers.RunTimers | TCP-SW-DPDK/Client/lab1-client.c:333-417 | on every run each unacknowledged packet's slot holds the time it was last sent |
| SlidingWindowTimers.RetransmitsExactlyOverdue | TCP-SW-DPDK/Client/lab1-client.c:336-349 | on every run an unacknowledged packet is retransmitted iff its 64-bit elapsed time since it was last sent exceeds 50 microseconds |

## Left out

- Logging, statistics, traces and the real-time clock: output only.
- `FairQueue` PRECISE mode, `updateRoundNumber` and `_nActiveFlows`: never enabled, and the count is not maintained in LAZY mode.
- DCTCP, deadline slack, Timely and packet-pair rate control: floating-point estimates.
- CONGA tables, `CoreQueue`, `PriorityQueue`, `RandomQueue`, `ExoQueue`, workloads, flow generators and topologies: copies of easier versions, random choices or set-up code.
- `EventList` end time and the statistics of its `doNextEvent`: runs have no end time.
- Deletion of a finished flow's objects in `TcpSrc::doNextEvent`: only the decision is modelled, as the out-parameter `again`.
- DPDK packet construction and parsing, checksums, memory buffers, the stop packet and latency figures.
- SlidingWindow.LabClient.constructor: takes at most 8 flows, because with more the loops of the source run past their arrays; the command line does not check.
- AprxFairQueue.AprxFairQueue.ReadSketch: starts from the first row rather than from the largest 64-bit number, because byte counts are unbounded here.
