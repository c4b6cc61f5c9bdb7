# A verified model of the relayer's decision core

The relayer forwards IBC datagrams between two chains. This project models the part of it that decides
something, and leaves the chains themselves abstract: a chain is the answers it gives to queries
(`Ibc.ChainView`), and one relay step is whatever heights, blocks, answers and verdicts it is shown
(`Relay.Observed`). Every theorem holds for all of them.

| file | component |
|---|---|
| `Ibc.dfy`, `Lists.dfy` | heights, packets, events, messages, query answers; sublists in order |
| `ProofSearch.dfy` | linear and timed search for a usable consensus state |
| `Delay.dfy` | connection delay in time and blocks |
| `Undelivered.dfy` | undelivered packets and acknowledgements, the start height for timeout proofs |
| `Timeouts.dfy` | timeout proof height and timeout message |
| `Sorter.dfy`, `Segments.dfy`, `Readiness.dfy` | the packet sorter, and what its output means |
| `Wire.dfy`, `Weight.dfy`, `Queue.dfy` | transaction bytes, size estimate, batch splitting |
| `Events.dfy` | events to messages, running maximum of proof heights |
| `Handshake.dfy`, `ChannelHandshake.dfy` | the translations against ICS-03 and ICS-04 handlers |
| `Relay.dfy`, `Run.dfy` | one relay step, the relay loop |
| `Coverage.dfy`, `Delivery.dfy` | whole runs: what is scanned, and what the sinks receive |
| `Checking.dfy`, `Losses.dfy` | which submitted proofs a sink can check; two steps that lose something |
| `Attributes.dfy` | event attributes to typed fields |

`dafny verify dfyconfig.toml` checks everything.

## How the code is represented

- Loops and state changes are methods over the same variables, and each is proved equal to a function
  or to a stated property: the searches, the sorter's loops, `estimate_weight`, `flush_message_batch`,
  `parse_events`, the block scan, the relay step on two `Chain` objects, the relay loop.
- A query that can fail is a map lookup that can miss. `expect`, `unwrap` and a checked subtraction
  that aborts the process are the error `Panic`.
- The height of a client is computed from the messages its chain has accepted, so that a client
  advances only by what was submitted.
- The wait for a proof height is a finite list of polls. A step whose polls run out is still waiting,
  and keeps the loop from taking another turn.
- Branches that no input reaches are not repeated: an empty transaction body (the memo is always there) and
  a list of timeouts inside the relay step.
- Block delays use exact rationals with the saturating cast of the code. Heights, sequences and lengths
  are unbounded naturals; the 64-bit maximum matters only for the block delay.

## Where the code differs from what its names and comments say

- The timed search does not always return the first suitable height, as its comment promises
  (src/primitives/funcs.rs:133-134).
  - On any client in time order it does exactly when no missing midpoint makes it step over that height;
    if that height is the upper bound of the search, exactly when the search lands on it
    (`ProofSearch.FirstReachingFoundIff`).
  - Missing heights below the first suitable one do no harm (`ProofSearch.FoundWithoutHolesAbove`). A
    search that starts at a suitable height returns it exactly when the heights halfway, a quarter, an
    eighth of the way to the bound, and so on, are all stored (`ProofSearch.StartFoundIff`).
  - Without holes, only the upper bound itself can be missed, exactly when the number of heights in range
    is not one and its binary digits do not begin with two ones (`ProofSearch.TimedSearchGapFree`).
- The second query of a relay step fetches a newer header and drops the events it scanned. Heights
  between the first scan and that header are never scanned; `Coverage.RelayedStream` says exactly which
  events are relayed, and `Delivery.RunDelivers` what the sinks receive.
- When a batch is split and a later chunk is refused, the client has already moved past the window: the
  rest of the batch is not sent, and no later run scans its window again (`Delivery.RunWholeIff`,
  `Delivery.LossIsForGood`; the same holds of the gaps). A sink that weighs as Cosmos chains do never splits
  a batch (`Delivery.EstimatedRunIsNotCut`). `Losses.GapLosesEvent` and `Losses.CutRunLosesMessage` are
  concrete steps that lose an event and a message.
- A proof is checked against the consensus state at exactly its height. The client holds only its first
  height and the submitted headers (`Checking.ClientHoldsHeaders`). A Cosmos source proves an event of
  block h at height h + 1, so a batch can be checked exactly when all its messages come from the block right
  below the header (`Checking.CheckableIff`), although the wait makes sure that the header is high enough.
- Both kinds of header are optional updates, so a change of validators alone is never sent
  (`Coverage.SendsIffWorthIt`).
- The client is read under the sink's identifier and updated under the source's. With different
  identifiers the same window is scanned for ever (`Coverage.SplitIdentifiersRepeat`); the run theorems
  take them to be equal.
- Once a window gives 30 messages, or messages that exceed the size limit, the batch with its client update
  is refused by the estimator. The direction never sends anything again, restarts included, as long as
  the answers still give too much for the blocks of that window (`Coverage.OversizedIsStuck`).
- On channels that are not unordered, the sequence filter leaves out exactly the packet that the sink
  expects next (`Undelivered.UndeliveredSequencesMeaning`, `Readiness.OrderedNextNeverOffered`).
- A packet is timed out only if it has both a timeout height and a timestamp
  (`Readiness.TimeoutNeedsBothLimits`): without a height the search is not made, and without a timestamp it
  subtracts a larger number from zero (`Timeouts.TimeoutSearchAborts`).
- The start bound over all pending packets compares a number of blocks with heights, without the client's
  height that the search for a single packet adds (src/primitives/funcs.rs:268-276,
  src/core/packets/utils.rs:64-67), and so never exceeds the timeout height (`Readiness.StartBoundIsLower`).
- The value logged as the number of chunks is the size of each chunk (`Queue.ChunkCountAsAnnounced`).
- The sorter reads the height of the source's client on the sink for both directions
  (src/core/packets.rs:108-146), so a timeout search is bounded by the height of the other client. A bound
  that is too low loses the packets whose expiry shows above it, one that is too high can lose all of
  them (`Timeouts.ProofHeightUnderBound`, `Timeouts.LowBoundLoses`, `Timeouts.HighBoundLosesAll`; numbers
  in `Timeouts.BoundsThatLose`).
- OpenTry for a channel copies the source's hops, and is accepted exactly when the sink's connection of
  that identifier leads back to it (`ChannelHandshake.TryAcceptedIffSameHop`).

## Assumptions

- One relayer updates each client. Within one step the source's height does not fall, and one source has
  one revision number; `Coverage.MixedRevisionsEscape` is a step that goes wrong without the latter.
- A submission that is confirmed has been executed; a refused one has left nothing behind.
- Signatures of one account have one length, and the account data is the same for the estimate and the
  transaction. Accounts, encodings and limits may differ between chains and from turn to turn.
- The packet queries that the Cosmos provider does not implement follow the trait documentation: one
  record per known sequence, in the order asked.
- Whether a packet has timed out, the last representable time and the parsing of identifiers belong to
  libraries that are not part of this model; they are parameters.

## Model

| member | source | states |
|---|---|---|
| ProofSearch.LinearSearch | src/primitives/funcs.rs:145-164 | returns the first height in range that holds a consensus state, and nothing exactly when there is none, for any oracle |
| ProofSearch.FirstStoredMeaning | src/primitives/funcs.rs:145-164 | the same as an if-and-only-if about every height |
| ProofSearch.TimedSearch | src/primitives/funcs.rs:165-227 | sound for any oracle (in range, present, time reached); never subtracts below zero, ends, and asks at most once per height in range |
| ProofSearch.BisectSound | src/primitives/funcs.rs:173-226 | from any intermediate state, a returned height was seen to reach the target |
| ProofSearch.MalformedEndsSearch | src/primitives/funcs.rs:193-195 | a state that does not decode ends the search with nothing, whatever was found before; without one, a height that was found is not given up |
| ProofSearch.ProbeBound | src/primitives/funcs.rs:173-226 | at most one probe per height, holes included |
| ProofSearch.ProbeBoundGapFree | src/primitives/funcs.rs:173-226 | without holes, at most log2 of the distance plus one probes |
| ProofSearch.FirstReachingFoundIff | src/primitives/funcs.rs:165-227 | on any oracle in time order, holes included: the first suitable height is returned exactly when it is not stepped over, and, if it is the upper bound, exactly when the search lands on it |
| ProofSearch.LandingNeeds | src/primitives/funcs.rs:165-227 | no search lands on its upper bound when the height below is missing |
| ProofSearch.FoundWithoutHolesAbove | src/primitives/funcs.rs:165-227 | the first suitable height is returned when no height strictly between it and the bound is missing |
| ProofSearch.StartFoundIff | src/primitives/funcs.rs:165-227 | a suitable height at the start of the range is returned exactly when the heights halfway, a quarter of the way to the bound, and so on, are stored |
| ProofSearch.TimedSearchExact | src/primitives/funcs.rs:165-227 | on a client that holds every height up to its own and none above, with any upper bound: the first suitable height is returned exactly when one of the heights half, a quarter, an eighth of the range below the bound, and so on, lies between it and the client's own height; otherwise nothing |
| ProofSearch.TimedSearchGapFree | src/primitives/funcs.rs:165-227 | without holes, every first suitable height below the bound is returned, and the bound itself exactly for ranges whose size is one or begins with two binary ones |
| ProofSearch.LatestHeightOverlooked | src/primitives/funcs.rs:173-226 | a concrete oracle whose only suitable height, the latest, is not returned |
| ProofSearch.HoleHidesFirst | src/primitives/funcs.rs:188-191 | a concrete oracle with a hole that hides the first suitable height |
| ProofSearch.FindSuitableProofHeight | src/primitives/funcs.rs:135-229 | chooses the search by the presence of a timestamp; the result carries the start's revision number, lies in range, is present and reaches the time |
| Delay.BlockDelayIsLeast | src/core/packets/utils.rs:329-337 | up to saturation, k blocks cover the delay exactly when k is at least the block delay |
| Delay.DelayPassedMeaning | src/core/packets/utils.rs:91-150 | the delay check succeeds exactly when the client update is known, the clock has advanced by the delay, and the blocks since the update cover the delay too |
| Delay.DelayStaysPassed | src/core/packets/connection_delay.rs:21-40 | once elapsed, the delay stays elapsed for later times and lexicographically later heights |
| Undelivered.UndeliveredSequencesMeaning | src/primitives/funcs.rs:21-68 | the result is the list of committed and unreceived sequences, in commitment order, without the one expected next on a channel that is not unordered; complete exactly when that one is not committed |
| Undelivered.ListedMeaning | src/primitives/funcs.rs:21-110 | both lists are given exactly when the queries they need are answered, and hold exactly the sequences the answers say |
| Undelivered.RecordedInOrder | src/primitives/traits.rs:203-220 | one record per known sequence, in the order asked, repetitions included |
| Undelivered.TimeoutStartMeaning | src/primitives/funcs.rs:253-281 | the bound is the timeout height, or one block past the least number of blocks covering the remaining time, whichever is lower |
| Undelivered.PendingMeaning | src/primitives/funcs.rs:239-252 | the pending packets are exactly those sent on a listed channel whose sequence is undelivered; they are known exactly when every listed channel can be read |
| Undelivered.MaximumTimeoutHeight | src/primitives/funcs.rs:231-285 | the greatest bound over all pending packets of all channels; nothing exactly when there is none or a query fails |
| Undelivered.RaiseStart | src/primitives/funcs.rs:253-282 | the inner loop keeps the greatest bound seen |
| Readiness.StartBoundIsLower | src/primitives/funcs.rs:268-276 | a packet's start bound is at most its timeout height, and the search for it starts at that height or above |
| Timeouts.TimeoutProofWitnessesExpiry | src/core/packets/utils.rs:33-84 | a returned height is at least the timeout height and the search start, at most the latest client height, and holds a state that has reached the timeout timestamp |
| Timeouts.ProofHeightUnderBound | src/core/packets/utils.rs:67-84 | which proof height is found under any upper bound, by the client's own height, the first height that shows the expiry and the size of the range |
| Timeouts.LowBoundLoses | src/core/packets.rs:127-145 | a bound at or below the client's own height loses exactly the packets whose expiry shows first above it, or at it when the halving does not end there |
| Timeouts.HighBoundLosesAll | src/core/packets.rs:127-145 | a bound whose first midpoint lies above the client's own height loses every packet |
| Timeouts.BoundsThatLose | src/core/packets.rs:127-145 | a client at height 10 that shows an expiry at 7: found with bound 10, not with 4 or 40 |
| Timeouts.TimeoutSearchAborts | src/core/packets/utils.rs:60-65 | when its queries succeed, the search aborts exactly when the timeout timestamp lies before the creation time |
| Timeouts.SearchStartMeaning | src/core/packets/utils.rs:43-75 | the search starts, in the revision of the timeout height, at that height or at the estimate if it is later: the sink's height at creation and as many whole block times of the sink as fit before the timeout |
| Timeouts.SearchStartFails | src/core/packets/utils.rs:43-65 | exactly when no search is made, and exactly when the relayer aborts |
| Timeouts.EstimateIsLastBefore | src/core/packets/utils.rs:64-67 | the estimated start is the last height whose expected time is before the timeout |
| Sorter.SortPacketLoop | src/core/packets.rs:162-282 | the packet loop computes the channel's packet decisions, the first error included |
| Sorter.SortAckLoop | src/core/packets.rs:299-361 | the acknowledgement loop, likewise |
| Sorter.SortOneChannel | src/core/packets.rs:53-362 | one whitelisted channel, with its gates and error order |
| Sorter.QueryReadyAndTimedOutPackets | src/core/packets.rs:43-365 | the loop visits every whitelisted channel in order and stops at the first error; what the result holds is `Readiness.OutputSplits` |
| Readiness.OutputSplits | src/core/packets.rs:43-365 | cuts split the output, in order and without rest, into one segment per whitelisted channel: nothing for one that is neither open nor closed, else one message for each packet that can be received, then one for each acknowledgement unless the source's end is closed, and one for each packet that can be timed out |
| Readiness.SorterFails | src/core/packets.rs:43-365 | the poll succeeds exactly when every whitelisted channel is neither open nor closed, or has all its queries answered and no failing decision |
| Readiness.DecisionFails | src/core/packets.rs:162-361 | a decision fails exactly on a zero recording height, an aborting timeout search, or a delay whose end is not representable |
| Readiness.ProvableMeaning | src/core/packets.rs:234-278 | a proof height is chosen exactly when it is the first usable one from the recording height on and its delay has passed |
| Readiness.DecisionMeaning | src/core/packets.rs:162-361 | a packet is relayed, timed out or acknowledged with a height exactly when the height passes every gate of its side |
| Readiness.ExpiredPacketDecision | src/core/packets.rs:164-213 | an expired packet is timed out exactly when the search, bounded by the other client's height, looks between the first height that shows the expiry and the client's own height, and the delay has passed; otherwise it is skipped or the delay check fails |
| Readiness.TimeoutNeedsBothLimits | src/core/packets/utils.rs:43-65 | only a packet with a timeout height and a timestamp not before its creation is timed out; an expired one without a height is skipped |
| Readiness.SortedPacketsMeaning | src/core/packets.rs:162-282 | certificate, completeness and partition: one message per qualifying position, in order, at disjoint positions for the two sides |
| Readiness.SortedPacketsOrder | src/core/packets.rs:213-281 | the messages of each side correspond one to one, in order, to its positions |
| Readiness.SortedAcksMeaning | src/core/packets.rs:299-361 | the same for acknowledgements |
| Readiness.EveryMessageCertified | src/core/packets.rs:43-365 | every message to the sink is certified for a whitelisted channel |
| Readiness.ChannelMessageCertified | src/core/packets.rs:53-362 | the same for one channel |
| Readiness.EveryTimeoutCertified | src/core/packets.rs:43-365 | every message to the source times out an undelivered packet of a whitelisted channel whose proof height passes every gate |
| Readiness.ReadyPacketIsOffered | src/core/packets.rs:149-282 | an undelivered packet that is ready is in the output, whatever the other channels hold |
| Readiness.ExpiredPacketIsOffered | src/core/packets.rs:149-282 | an undelivered packet that can be timed out is in the output, whatever the other channels hold |
| Readiness.ReadyAckIsOffered | src/core/packets.rs:285-361 | the same for an acknowledgement on a channel that is not closed |
| Readiness.ReceiveStaysReady | src/core/packets.rs:162-282 | while both chains grow, a ready packet is offered again with the same proof height until it is delivered, expires, the sink's end closes, or it becomes the next one on an ordered channel |
| Readiness.AckStaysReady | src/core/packets.rs:299-361 | a ready acknowledgement is offered again until it is seen or the source's end closes |
| Readiness.ProvableStable | src/primitives/funcs.rs:145-164 | the chosen proof height does not change when the client gains later states |
| Readiness.OrderedNextNeverOffered | src/core/packets.rs:148-162 | on a channel that is not unordered, the packet the sink expects next is never among the packets sorted |
| Wire.BodyRoundTrip | src/cosmos/encode.rs:77-89 | reading the encoded body gives every message, in order, and the memo; reading a message gives its type and value |
| Wire.TxRawRoundTrip | src/cosmos/encode.rs:91-106 | reading the encoded transaction gives body, auth info and signature |
| Wire.BodyDeterminesMessages | src/cosmos/encode.rs:77-89 | different message lists have different bodies |
| Weight.MeasureEnvelope | src/cosmos/chain.rs:41-55 | the envelope computed from an empty transaction is the length of everything but the body field |
| Weight.SignedLength | src/cosmos/chain.rs:56-63 | the predicted length is the length of the signed transaction |
| Weight.EstimateWeight | src/cosmos/chain.rs:30-83 | the estimate is the exact body length; accepted exactly for at most 30 messages whose signed transaction fits, or for no message |
| Weight.AcceptedIsLight | src/cosmos/chain.rs:65-82 | an accepted batch that is not empty weighs less than the limit |
| Weight.AcceptedPrefix | src/cosmos/chain.rs:68-81 | every prefix of an accepted batch is accepted |
| Queue.Sink.Submit | src/cosmos/chain.rs:118-121 | a submission is appended when accepted and leaves nothing when refused |
| Queue.FlushMessageBatch | src/core/queue.rs:19-52 | the sink receives exactly the planned batches up to the first refusal, and the result says whether that was all |
| Queue.PlanMeaning | src/core/queue.rs:19-44 | one transaction below the limit; chunks of two for less than twice the limit, of k + 2 for k times the limit; nothing without a weight or with a limit of zero |
| Queue.FlushOutcome | src/core/queue.rs:19-52 | success exactly when every planned transaction is accepted, and the exact cause of each error |
| Queue.FlushConserves | src/core/queue.rs:19-52 | what is delivered is a prefix of the batch in order, all of it on success, and ends at the refused transaction otherwise |
| Queue.CutShortIff | src/core/queue.rs:19-52 | a flush succeeds exactly when the whole batch is delivered; a part of it is delivered exactly when the batch is split, the first chunk is accepted and a later one refused |
| Queue.ChunksFlatten | src/core/queue.rs:44-49 | the chunks concatenate to the batch |
| Queue.ChunkSizes | src/core/queue.rs:44-49 | all chunks but the last are full, and the last is not empty |
| Queue.FirstMessageFirst | src/core/queue.rs:23-49 | nothing is delivered without the first message, where the client update is |
| Queue.ChunkCountAsAnnounced | src/core/queue.rs:30-44 | the announced number of chunks is right exactly for these batch lengths |
| Queue.EstimatedBatchIsOneTransaction | src/core/queue.rs:20-29 | with the Cosmos estimate a batch is one transaction or nothing, exactly by fit and verdict |
| Events.SentPacketMeaning | src/core/events.rs:539-611 | a sent packet gives nothing exactly when its connection has a delay, and is relayed, with the proof recorded for it, exactly when there is none and the proof is there |
| Events.WrittenAckMeaning | src/core/events.rs:612-692 | the same for an acknowledgement, looked up under the packet's source identifiers |
| Events.ConnectionEventMeaning | src/core/events.rs:57-308 | exactly which message each connection event gives, over the source's answers about the end and the client |
| Events.ChannelEventMeaning | src/core/events.rs:309-538 | exactly which message each channel event gives, over the source's answer about the end |
| Events.HandshakeEventMeaning | src/core/events.rs:57-538 | apart from packet events, exactly the events without an identifier, and other kinds, give nothing |
| Events.ParseEvents | src/core/events.rs:43-702 | the fold over the events, or the first error; never a timeout message |
| Events.ProofHeightIsGreatest | src/core/events.rs:88-93 | the returned height is at or above every proof and is attained, or is the start value |
| Events.ProofHeightIsFirstGreatest | src/core/events.rs:88-93 | of several greatest proof heights the first one is returned |
| Events.MessagesFollowEvents | src/core/events.rs:51-695 | messages correspond one to one, in order, to the events that give one |
| Events.ParseFailsAtFirst | src/core/events.rs:51-695 | the error is that of the first event that cannot be translated |
| Events.ParsePrefix | src/core/events.rs:51-695 | a longer event list only appends messages, and keeps an error |
| Handshake.ArrivalAcceptedIff | src/core/events.rs:57-308 | in every reachable state, a message translated at any earlier time is accepted exactly when it was made from an Init end for a fresh identifier and an offered version, from a TryOpen end that names an end still Init, or from an open end that names an end still TryOpen |
| Handshake.AnnouncedEndAcceptedIff | src/core/events.rs:57-308 | in every reachable state, the announcement of any end is translated when the source answers, and accepted exactly under the condition for the end's state |
| Handshake.OpenEndsAgree | src/core/events.rs:57-308 | in every state of every run, each message in flight repeats the end it was translated from, addressed to the end that it names; and, by the handlers' checks alone, an open end is named back by its counterparty with matching clients, version and delay |
| Handshake.StepKeepsAgreement | src/core/events.rs:57-308 | every action keeps the ends in agreement, the messages in flight true to what they were made from, and an offered version in each end being opened |
| Handshake.ThreeTranslationsOpen | src/core/events.rs:57-308 | from an Init end, three translations are accepted in turn and open both ends towards each other |
| ChannelHandshake.TryAcceptedIffSameHop | src/core/events.rs:309-374 | OpenTry is accepted exactly when the sink's connection of the copied identifier leads back to it |
| ChannelHandshake.ThreeTranslationsOpen | src/core/events.rs:309-485 | with one connection identifier, three translations are accepted in turn and the ends name each other |
| Relay.QueryLatestIbcEvents | src/cosmos/provider.rs:99-172 | succeeds exactly when the reading does and every block of the window is served; the events then stand one to one, in order, at the places of blocks, transactions and events in the window that hold an IBC event |
| Relay.EventsLocated | src/cosmos/provider.rs:120-150 | the events of a window correspond, in lexicographic order, to block, transaction and event index, with the block's height; no IBC event is left out |
| Relay.AppendTx | src/cosmos/provider.rs:136-149 | the IBC events of one transaction, in order |
| Relay.WaitForProofHeight | src/core/macros.rs:40-42 | reached exactly when some poll is at the target and all before it are below; failed exactly with the first failing poll before that; pending exactly when all polls are below |
| Relay.SendWithUpdate | src/core/macros.rs:78-86 | the batch is the client update followed by the messages, and the sink and its record change as the flush says |
| Relay.ProcessFinalityEvent | src/core/macros.rs:9-87 | one step on two chains changes the sink and ends as the step relation says |
| Coverage.StepEndsAs | src/core/macros.rs:9-87 | for each way a step can end, the exact condition on its queries, polls, translation and verdicts |
| Relay.ClientIsGreatest | src/core/macros.rs:78-86 | a client is at its first height or at an update it was given, and below none of them |
| Run.RelayLoop | src/core/relay.rs:18-29 | the loop goes on after a retry, a skipped notification or a submission, moving one direction at a time, and stops exactly at a closed stream, a failing step or a wait without end |
| Run.RunMeaning | src/core/relay.rs:18-29 | every run goes through a sequence of states, one per turn taken, and ends for one of these reasons |
| Run.RunUnique | src/core/relay.rs:18-29 | such a sequence determines the final state and the status |
| Run.StepShape | src/core/macros.rs:9-87 | a step changes nothing, or adds one flush whose window starts right above the client, whose batch starts with the update, and whose header covers every proof |
| Run.ProofsCovered | src/core/macros.rs:40-56 | the submitted header is at or above every proof height of the batch |
| Run.ClientAfterBatch | src/core/macros.rs:78-86 | any delivered part of a batch moves the client as its leading update does |
| Coverage.StepKeepsInv | src/core/macros.rs:57-86 | a submitted header moves the client strictly, to exactly that header |
| Coverage.RunKeepsInv | src/core/relay.rs:18-29 | in every run of both directions, flushes stay linked and in order and clients never fall |
| Coverage.FlushesIncrease | src/core/macros.rs:9-86 | windows and gaps of different flushes are disjoint and increasing |
| Coverage.ExactlyOnce | src/cosmos/provider.rs:117-150 | each height above the initial client height up to the present one lies in exactly one flush, in its window or in its gap |
| Coverage.RelayedStream | src/cosmos/provider.rs:120-150 | the events of the flushed windows are exactly the source's events in order without those in gaps: none twice, none missing outside a gap |
| Coverage.LinkRelaysStream | src/cosmos/provider.rs:120-150 | the same for a direction in any state that keeps the invariant |
| Coverage.SplitIdentifiersRepeat | src/cosmos/provider.rs:107-158 | with different client identifiers no step moves the client that is read |
| Coverage.MixedRevisionsEscape | src/core/macros.rs:40-86 | a concrete step that submits a header at height 6 with a proof at height 9, since the proof has another revision number |
| Coverage.OversizedIsStuck | src/cosmos/chain.rs:65-82 | once a window gives 30 messages, or messages that do not fit without the update, for the answers, account and limit of every turn, no run sends anything in that direction again |
| Coverage.OversizedStepSendsNothing | src/core/macros.rs:79-86 | the same for one step, whichever later window it scans |
| Delivery.RunDelivers | src/core/macros.rs:57-86 | after any run: the windows' events are the source's, in order, without those in gaps; and each sink holds, flush by flush, the client update followed by the translations of the window's events, in order, exactly when no step was cut short |
| Delivery.RunWholeIff | src/core/macros.rs:78-86 | a run loses a part of a batch exactly when a step is cut short; at most one batch loses its end |
| Delivery.CutEndsRun | src/core/macros.rs:78-86 | a step that is cut short ends the run with an error |
| Delivery.LossIsForGood | src/core/macros.rs:57-86 | whatever reaches a sink later comes from flushes that start above every earlier header, so from events above every earlier window and gap |
| Delivery.StepWholeIff | src/core/queue.rs:19-52 | a step changes the sink and fails exactly when it sends, its batch is split, and a later chunk than the first is refused |
| Delivery.EstimatedRunIsNotCut | src/cosmos/chain.rs:65-82 | when each turn's sink weighs by the Cosmos estimate of some account of fixed signature length, against its own limit, no run is cut short |
| Delivery.EstimatedStepMovesIff | src/cosmos/chain.rs:65-82 | a step changes a Cosmos sink exactly when it gets to sending, the whole batch fits and the transaction goes through; it then ends well |
| Delivery.DeliversIffWhole | src/core/macros.rs:78-86 | in any state that keeps the invariant, the sink holds all updates and translations exactly when no recorded flush was cut |
| Checking.ClientHoldsHeaders | src/core/macros.rs:78-86 | in any state that keeps the invariant, the sink's client holds its first height and the headers of the flushes, and nothing else |
| Checking.HeldIffHeader | src/core/macros.rs:40-86 | a proof from above the client's previous height can be checked with its batch exactly when it is at the submitted header's height |
| Checking.CheckableIff | src/cosmos/utils.rs:3-11 | with proofs one height above their events, a whole batch can be checked exactly when every event that gives a message lies in the block right below the header |
| Losses.GapLosesEvent | src/core/macros.rs:43-56 | a concrete step that scans block 2, submits the header of block 3, and leaves out the event of block 3 |
| Losses.CutRunLosesMessage | src/core/queue.rs:30-50 | a concrete run that delivers the update and one of two messages, fails, and has moved the client past both |
| Attributes.ExtractPacket | src/cosmos/events.rs:423-467 | each field is what the parsers make of the text of its own key's last attribute, or the default; fails exactly when a recognised attribute cannot be read, with the reason of the first one |
| Attributes.LastTextMeaning | src/cosmos/events.rs:428-464 | the text that decides a field is that of the last attribute with its key |
| Attributes.ExtractConnection | src/cosmos/events.rs:363-390 | the same for connection attributes: only a client identifier that cannot be read fails, a connection identifier leaves its field empty |
| Attributes.OrderDoesNotMatter | src/cosmos/events.rs:428-464 | with distinct keys, the order of attributes does not change the fields or whether they parse |

## Single steps spelled out

These state what one function does, in terms that the main results use.

| member | source | states |
|---|---|---|
| Undelivered.NothingListedIsReceivable | src/primitives/funcs.rs:57-65 | an ordered sink accepts none of the listed sequences |
| Undelivered.UndeliveredAcksMeaning | src/primitives/funcs.rs:72-110 | acknowledgements written on the source, in order, whose packets are still committed on the sink |
| Timeouts.TimeoutProvesWhatSenderChecks | src/core/packets/utils.rs:152-211 | on-close exactly for a closed sink end; the absence proof is the one the sender checks exactly when both ends agree on being ordered |
| Readiness.OpenContextMeaning | src/core/packets.rs:54-146 | a channel is sorted exactly when it is open or closed and every query succeeds, with the delay, ends, sequence and client height it is sorted by |
| Handshake.InitTranslates | src/core/events.rs:57-148 | OpenInit gives OpenTry with the ends' clients, versions and delay the right way round |
| Handshake.TryTranslates | src/core/events.rs:149-245 | OpenTry gives OpenAck for the counterparty's connection with the chosen version |
| Handshake.AckTranslates | src/core/events.rs:246-308 | OpenAck gives OpenConfirm for the counterparty's connection |
| ChannelHandshake.CloseIsConfirmed | src/core/events.rs:486-538 | closing one end is confirmed at the end it names |
| Coverage.SendsIffWorthIt | src/core/macros.rs:57-77 | a batch is sent exactly when the window has a packet event or gives a message |
| Delay.DelayCheckFails | src/core/packets/connection_delay.rs:29-31 | the check fails exactly when the end of the delay is not representable |
| Undelivered.TimeoutStartFails | src/primitives/funcs.rs:253-267 | a start bound is missing exactly when the client or the block time at its height cannot be read |
| Undelivered.TimeoutStartWithoutBlocks | src/core/packets/utils.rs:329-337 | without a block time the bound is the timeout height or one, whichever is lower |
| Readiness.ExpiredAboveBoundIsSkipped | src/core/packets.rs:164-213 | an expired packet whose search would start above the bound is skipped |
| Events.Translate | src/core/events.rs:56-694 | a translated event is never a client update, so it carries a proof height |
| Coverage.FreshWorldInOrder | src/core/relay.rs:7-17 | before anything is relayed, the invariant of runs holds |
| Coverage.EmptyWindowSkips | src/core/macros.rs:57-69 | an empty window leaves everything unchanged and is skipped |
| Coverage.CoveredIff | src/core/macros.rs:40-86 | a header covers every proof of a batch exactly when it is at or above the returned proof height |

## Left out

- RPC, gRPC and websocket calls, subscriptions, logging, sleeping, polling for confirmation: their answers are parameters.
- Signing, keys, Merkle proofs and commitment bytes: a proof is its height, and fetching one for a message is taken to succeed.
- Bytes of individual messages other than their wrapped type and value.
- The light-client verifier and the construction of headers beyond height, trusted height and update type.
- The flush of timeouts inside the relay step: `parse_events` never returns any, since its call to the sorter is commented out.
- The switch that pauses packet relaying in test builds.
- `channel_extract_attributes_from_tx` and `client_extract_attributes_from_tx`: the same fold as the two extractors modelled.
- Floating-point rounding in `calculate_block_delay`.
- Timeouts.TimeoutProofWitnessesExpiry: says nothing about releases built without overflow checks, where the subtraction wraps instead of aborting.
- Coverage.RelayedStream: speaks of the events that were scanned and translated; `Delivery.RunDelivers` says what the sinks received of them.
- Timeouts.ProofHeightUnderBound: describes a client that holds every height up to its own; for a client with holes, only `ProofSearch.FirstReachingFoundIff` and its readable conditions apply.
- Readiness.ReceiveStaysReady: takes the later poll to succeed as a whole, because an error in any whitelisted channel discards the whole output.
