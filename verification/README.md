# Nostr Plus in Dafny

Nostr Plus is a Nostr relay with the services around it: an *assigner* that hands jobs to workers, an
*aggregator* that collects their results, the client library that connects both to the relay, and the
cryptographic helpers they share. This project models the parts with state, branching or arithmetic worth
proving and proves what they are for. `dafny verify dfyconfig.toml` checks everything.

Where the program changes state in place, the model is a class whose methods follow the source statement by
statement; each is proved equal to a step function on an immutable `State`. Whole-run theorems are lemmas
about those step functions over every sequence of events. Databases, sockets, clocks and hash maps appear as
outcomes, clock readings and iteration orders that may be anything; hash functions are parameters. A Dafny
`string` stands for the UTF-8 bytes of a Rust string, one `char` a byte.

| Files | What they model |
|---|---|
| `WorkersBook`, `Scheduler`, `SchedulerState`, `SchedulerJobs`, `SchedulerHistory`, `SchedulerEffects`, `Assigner` | The assigner. The book of workers is an insertion-ordered map scanned from the back; a stale entry empties it and puts the fresh workers back with an approximated time. `Assigner.Context` is the program; the `Scheduler` files prove the ordering invariant, exact metrics, first-come-first-served, job conservation, that only live, rested workers are given jobs, and, in plain terms, what one heartbeat and one job do. |
| `CoolDown` | The map of assigned senders among concurrent tasks, lock by lock: which admissions come too soon after an assignment. |
| `JobProtocol`, `Senders` | Tags, job types, sender identities: what the assigner and the aggregator must agree on. |
| `SubscriptionTable`, `ReconnectingClient`, `RelaySubscriptions`, `ClientAndRelay` | The client's subscription table, its command queue, a connection that may fail at any send or read, and the relay's table that starts empty on each connection; convergence of the two. |
| `Aggregator`, `AggregatorCollections`, `AggregatorListener` | Assignment store, validation, two keyed collections, metrics: what can reach the finished jobs, when the collections part, when the listener stops. |
| `AssignerAndAggregator` | Both services over whole runs: finished jobs were done by the live workers they were given to. |
| `Wire`, `Ordering`, `Filters`, `Forwarding` | Filters and events: indexing, normal forms, matching, and which subscription an event is forwarded under. |
| `SqlGrammar`, `SqlQuery`, `SqlMeaning`, `Query`, `FilterReasons`, `QueryExactness` | The query builder prints a WHERE text. The text is lexed, parsed with the usual precedence and evaluated; with the post-filter it is compared with direct matching. |
| `TimeBounds` | What becomes of a filter's time bounds when events are forwarded and when they are queried. |
| `Liveness` | The relay's ping, pong and activity timers. |
| `Decimal`, `Bits`, `IssueTime`, `RsaPadding`, `NameHash`, `Common` | Decimal, bit, byte and hexadecimal encodings, the token's issue time, the RSA signature check, hierarchical name hashing. |

Some of what one might expect is false of the code. Each case has a concrete run or input, and the exact
condition where there is one:

- A closed subscription can come back after a reconnection, whether its Close was waiting or being sent
  (`ClosedSubscriptionReturns`, two runs from the start). The commands a user gave keep their outcome through
  a reconnection exactly under the condition of `PendingSurvivesIff`. The tables converge all the same.
- A classification is written in two steps, and two things part the collections: a second write that fails
  (`SecondWriteFails`), and an id that another kind of job already finished (`AnotherJobWasFinished`).
  `OrphanIff` and `CollectionsPartIff` say that nothing else does, `OrphansStayUnclassified` that such an id
  never recovers.
- The aggregator's listener panics on an assignee that is cut off (`EmptyAssigneeStopsListener`).
  `ListenerStopsIff` says exactly when it has stopped, and `EveryResultIsAccountedFor` that results are lost
  in that case only.
- A query with several filters can return an event that no filter fully matches
  (`SeveralFiltersCanReturnTooMuch`). `QueriesAreExactIff` gives the exact condition for any number of filters,
  field by field; `Leaks` is a direct test on two filters, sufficient for any number
  (`WithoutLeaksQueriesAreExact`) and exact for two (`TwoFiltersAreExactIff`).
- Forwarding ignores a filter's time bounds: `ForwardedTooLate` is an event forwarded under a filter whose
  `until` is long past. `ForwardingRespectsTimeIff` says exactly when a subscription is forwarded only what it
  asks for, bounds included; with one filter, exactly when its bounds shut out nothing
  (`OneFilterForwardsAsAskedIff`).
- Queries read the bounds strictly (`StrictTimeDiffersAtBounds`, `EventAtSinceIsMissed`). With one filter a
  query returns all it asks for, on every database, exactly when its bounds exclude every time
  (`QueriesAsAskedIff`).
- The cool-down after an assignment can be broken when tasks overlap (`PublishedAfterCheck`,
  `RecordedAfterCheck`, `RecordedOverALaterOne`, three runs from the start). `CoolDownKeptIff` says that only
  assignments the heartbeat's check missed can break it, `OrderlyRunsKeepCoolDown` that nothing does when the
  steps do not overlap.
- Validating a job panics when a whitelisted sender is a contract or a name, for which no signature check
  exists (`ValidJobsNeedOneWorker`).
- The name hash differs from ERC-137 for the empty name (`MizuNameHash`), and `get_iat` overflows from 2^32
  on although the preimage does not (`ReadBack`).

The comment on `get_workers` says that all workers put back after a stale scan share an approximated instant.
The proofs make precise why this is safe: the instant is the oldest of theirs, so it never makes a worker look
fresher than it is. The relay declares a length limit of 255 for subscription ids in `local/mod.rs`; the limit
in force, and modelled, is the 256 of `local/subscriptions.rs`.

## Model

| member | source | states |
|---|---|---|
| WorkersBook.FreshIsSuffix | nostr-client-plus/src/bin/assigner.rs:408-425 | In a book sorted by time the fresh entries are exactly its tail, so a scan from the back may stop at the first stale one. |
| WorkersBook.InsertKeeps | nostr-client-plus/src/bin/assigner.rs:291-293 | Re-inserting a worker at the current time keeps the book sorted and free of repetition, and grows it only for a new worker. |
| WorkersBook.ScanSucceedsIff | nostr-client-plus/src/bin/assigner.rs:408-427 | With at least n entries a scan succeeds if and only if the n-th newest, and with it every newer one, is less than the stale time old; it sweeps if and only if one of the n newest is stale. |
| WorkersBook.ScanPicks | nostr-client-plus/src/bin/assigner.rs:408-427 | Success takes exactly the n newest workers, newest first, all fresh, and leaves the others as they were. |
| WorkersBook.PickedAreDistinct | nostr-client-plus/src/bin/assigner.rs:408-427 | The picked workers are distinct and none of them stays in the book, which remains sorted. |
| WorkersBook.ScanSweeps | nostr-client-plus/src/bin/assigner.rs:411-421 | Failure leaves exactly the workers that were fresh, in their old order, all with the time of the oldest of them. |
| WorkersBook.SweptIsBook | nostr-client-plus/src/bin/assigner.rs:411-421 | What a failed scan leaves is again a sorted book without repetition, although its times were rewritten. |
| WorkersBook.BookBounds | nostr-client-plus/src/bin/assigner.rs:39-42 | The bounds in figures: fresh for 300 seconds, at rest for 30, ten thousand workers. |
| SchedulerState.EveryRunKeepsInv | nostr-client-plus/src/bin/assigner.rs:276-351 | After every event of every run, for any worker counts: the book is sorted, within its bound and without repetition; both metrics are exact; the queue is empty or its front needs more workers than the book holds. |
| SchedulerState.StepKeeps | nostr-client-plus/src/bin/assigner.rs:158-213 | Each kind of event, publications and retries included, keeps that invariant. |
| SchedulerState.HeartbeatKeeps | nostr-client-plus/src/bin/assigner.rs:284-324 | A heartbeat starts at most one job, and when it starts one the book is used up. |
| SchedulerState.DrainKeeps | nostr-client-plus/src/bin/assigner.rs:296-314 | Draining re-establishes that no waiting job could be served, with exact metrics. |
| SchedulerState.NewJobKeeps | nostr-client-plus/src/bin/assigner.rs:325-348 | A new job keeps the invariant and its scan never reaches the early exit on an empty book. |
| SchedulerEffects.NewWorkerJoins | nostr-client-plus/src/bin/assigner.rs:284-324 | With no job waiting, a heartbeat of a rested worker that is not in the book puts it at the back with the time of its admission; of ten thousand entries the oldest goes. |
| SchedulerEffects.KnownWorkerMoves | nostr-client-plus/src/bin/assigner.rs:284-324 | One that is in the book moves to the back, and nothing else changes. |
| SchedulerEffects.HeartbeatEntersBook | nostr-client-plus/src/bin/assigner.rs:291-293 | Either way the last entry of the book is that worker, with that time. |
| SchedulerEffects.TiredWorkerIsIgnored | nostr-client-plus/src/bin/assigner.rs:287-290 | A heartbeat within 30 seconds of an assignment changes nothing. |
| SchedulerEffects.LastWorkerStartsFront | nostr-client-plus/src/bin/assigner.rs:296-314 | When the front job lacks one worker and the book is young, the rested worker that comes completes them: all are given that job, newest first. |
| SchedulerEffects.OneWorkerStartsFront | nostr-client-plus/src/bin/assigner.rs:296-314 | A waiting job for one worker starts with the first rested worker that sends a heartbeat. |
| SchedulerEffects.RestedWorkersServe | nostr-client-plus/src/bin/assigner.rs:284-314 | After every run, a worker with no assignment recorded in the last 30 seconds enters the book by its heartbeat, or starts the front job when that needs one worker. |
| SchedulerEffects.RecordsAreKept | nostr-client-plus/src/bin/assigner.rs:193-212 | Over every run the map of assigned senders holds the last recorded assignment of each sender and nothing else. |
| SchedulerEffects.JobStarts | nostr-client-plus/src/bin/assigner.rs:333-346 | A valid job starts at once with the newest n workers when these are less than 300 seconds old. |
| SchedulerEffects.JobWaits | nostr-client-plus/src/bin/assigner.rs:328-341 | Otherwise it joins the end of the queue. |
| SchedulerEffects.YoungWorkersStay | nostr-client-plus/src/bin/assigner.rs:411-421 | And of a book that was large enough exactly the workers less than 300 seconds old stay. |
| SchedulerEffects.RefusedJobIsIgnored | nostr-client-plus/src/bin/assigner.rs:327-327 | A job that validation refuses changes nothing. |
| SchedulerJobs.JobsAreConserved | nostr-client-plus/src/bin/assigner.rs:158-213 | Over every run the accepted jobs are, as a multiset, those queued, on the channel, being retried, published or given up; the metric counts the published; the failed publications are exactly six for each job given up, those of the jobs being retried, and those that retries made good. |
| SchedulerJobs.FirstComeFirstServed | nostr-client-plus/src/bin/assigner.rs:296-348 | When all jobs need n workers, the jobs started followed by the queue are the accepted jobs in arrival order, each started with n workers, whatever sweeps happen in between. |
| SchedulerJobs.ChannelIsInOrder | nostr-client-plus/src/bin/assigner.rs:158-158 | Over every run jobs leave the channel in the order in which they were started. |
| SchedulerJobs.StepConserves | nostr-client-plus/src/bin/assigner.rs:158-214 | No single event loses or duplicates a job. |
| SchedulerJobs.StepAccounts | nostr-client-plus/src/bin/assigner.rs:177-213 | Each event keeps the metric of assigned jobs and the exact count of failures, six to a job given up. |
| SchedulerHistory.OnlyLiveRestedWorkersAreGivenJobs | nostr-client-plus/src/bin/assigner.rs:284-294 | Over every run each worker given a job had an admitted heartbeat less than the stale time before and was given nothing since; with check and admission, and reading and recording, as one step each, nobody is admitted within the cool-down after a recorded assignment. |
| CoolDown.CoolDownKeptIff | nostr-client-plus/src/bin/assigner.rs:287-291 | With every lock its own step, over every run no admission comes within the cool-down after an assignment if and only if none does after an assignment that the admission's check missed. |
| CoolDown.TooSoonMeansMissed | nostr-client-plus/src/bin/assigner.rs:463-475 | A worker admitted too soon after an assignment was checked while the map held nothing for it or an older reading. |
| CoolDown.OrderlyRunsKeepCoolDown | nostr-client-plus/src/bin/assigner.rs:193-212 | The cool-down is always kept in runs where a publication records all its workers before the next publication or check, and none starts between a check and its admission. |
| CoolDown.PublishedAfterCheck | nostr-client-plus/src/bin/assigner.rs:284-291 | A run in which a retry publishes between check and admission, and the cool-down is broken. |
| CoolDown.RecordedAfterCheck | nostr-client-plus/src/bin/assigner.rs:195-199 | A run in which a publication has read the clock before the check and locks the map after it. |
| CoolDown.RecordedOverALaterOne | nostr-client-plus/src/bin/assigner.rs:195-199 | A run in which a slow publication records its older reading over a later one. |
| SchedulerHistory.BookTimesAreConservative | nostr-client-plus/src/bin/assigner.rs:399-425 | A time in the book is never later than that worker's true last admitted heartbeat, although sweeps rewrite times. |
| Assigner.Context.IsTooEarly | nostr-client-plus/src/bin/assigner.rs:463-475 | True exactly for a sender recorded as assigned less than the cool-down ago. |
| Assigner.Context.CheckAvailWorkers | nostr-client-plus/src/bin/assigner.rs:479-488 | The front job's worker count when the book is large enough for it. |
| Assigner.Context.PopFresh | nostr-client-plus/src/bin/assigner.rs:407-425 | The popping loop ends in one of three ways, each saying which workers were taken and what the book still holds. |
| Assigner.Context.GetWorkers | nostr-client-plus/src/bin/assigner.rs:392-428 | For every sorted book and every n, success, sweep or early exit: result, book and metric are those of the declarative scan; with at least n entries it succeeds if and only if n of them are fresh. |
| Assigner.Context.Sweep | nostr-client-plus/src/bin/assigner.rs:411-421 | Clearing the book and re-inserting the popped workers leaves the fresh entries in their old order. |
| Assigner.Context.PutBack | nostr-client-plus/src/bin/assigner.rs:416-418 | Re-inserting in reverse order restores the order of the book. |
| Assigner.Context.OfferToFront | nostr-client-plus/src/bin/assigner.rs:298-313 | One round of draining; when it starts a job the book is empty afterwards. |
| Assigner.Context.EmptyQueue | nostr-client-plus/src/bin/assigner.rs:296-314 | The whole drain loop amounts to one look at the front of the queue. |
| Assigner.Context.Register | nostr-client-plus/src/bin/assigner.rs:291-293 | Admission of a worker, counted only when new. |
| Assigner.Context.TrimBook | nostr-client-plus/src/bin/assigner.rs:315-322 | A book over its bound loses its oldest worker. |
| Assigner.Context.HandleHeartbeat | nostr-client-plus/src/bin/assigner.rs:284-324 | A heartbeat does what the specification says at three successive clock readings and keeps the invariant. |
| Assigner.Context.HandleNewJob | nostr-client-plus/src/bin/assigner.rs:325-348 | A job is refused, queued or started exactly as specified, or its validation panics and nothing changes; the invariant is kept. |
| Assigner.Context.HandleEvent | nostr-client-plus/src/bin/assigner.rs:276-351 | Every relay event is one step of the specification or none; only an invalid job is an error, and only its validation panics. |
| Assigner.Context.RecordAssignment | nostr-client-plus/src/bin/assigner.rs:206-212 | All the workers of a job, and nobody else, are recorded at the current time. |
| Assigner.Context.PublishNext | nostr-client-plus/src/bin/assigner.rs:158-214 | The next job of the channel is published or handed to a retry task. |
| Assigner.Context.RetryOnce | nostr-client-plus/src/bin/assigner.rs:181-203 | One round of a retry task: success, another round, or giving up after the fifth failure. |
| Assigner.ValidJobsNeedOneWorker | nostr-client-plus/src/bin/assigner.rs:430-442 | Validation returns one worker exactly for a whitelisted job with the right id, a signature that can be and is verified, and a single known type tag; it panics exactly for a whitelisted contract or name with the right id; otherwise it is an error. |
| Assigner.ValidatedJobsAreServedInOrder | nostr-client-plus/src/bin/assigner.rs:296-348 | First come, first served for every run whose verdicts come from validation; each ASSIGN event then passes the assignee check for exactly the one worker it was given to. |
| JobProtocol.GetSingleTagEntry | nostr-client-plus/src/bin/utils.rs:33-51 | The value of the only tag of that name; an error when any tag is short or two match, even after a match. |
| JobProtocol.SingleTagIff | nostr-client-plus/src/bin/utils.rs:33-51 | A value is found if and only if no tag is short and exactly one has that name, and none if and only if no tag is short and none has it. |
| JobProtocol.AssignTags | nostr-client-plus/src/bin/assigner.rs:160-172 | The tags of an ASSIGN event: the job, then every worker in order. |
| JobProtocol.AssignmentTagAt | nostr-client-plus/src/bin/assigner.rs:160-164 | First the job's id under e, then each worker under p, all in hexadecimal. |
| JobProtocol.AssignmentNamesItsJob | nostr-client-plus/src/bin/assigner.rs:160-164 | The job's id is read back from the tags of an ASSIGN event, whatever its workers. |
| JobProtocol.AssignmentNamesItsOnlyWorker | nostr-client-plus/src/bin/aggregator.rs:505-524 | An ASSIGN event passes the aggregator's assignee check for a sender if and only if it was built for that sender alone; it never panics. |
| JobProtocol.AssigneeCheckPanicsIff | nostr-client-plus/src/bin/aggregator.rs:505-524 | The check panics, whoever the sender, if and only if the only p tag is the hexadecimal form of an identity cut off. |
| Senders.DecodeEncoded | nostr-plus-common/src/sender.rs:20-59 | Decoding an encoded sender followed by any bytes gives back the sender. |
| Senders.EncodedKinds | nostr-plus-common/src/sender.rs:20-43 | Each kind of sender, byte by byte. |
| Common.LeBytesAt | nostr-plus-common/src/sender.rs:24-33 | Each byte of a little-endian number. |
| Common.HexEncodeAt | nostr-client-plus/src/bin/assigner.rs:161-163 | Each byte is two lower-case digits, the high one first. |
| Common.HexDecodesIff | nostr-plus-common/src/wire.rs:93-95 | Exactly the texts of an even number of digits, of either case, are hexadecimal. |
| Senders.DecodeExact | nostr-plus-common/src/sender.rs:45-59 | Bytes decode to a sender exactly when they begin with its encoding. |
| Senders.DecodePanicsIff | nostr-plus-common/src/sender.rs:45-59 | Decoding panics exactly on fewer than four bytes, or fewer than a known prefix announces. |
| Senders.PrefixFree | nostr-plus-common/src/sender.rs:20-43 | No encoding is a prefix of another sender's. |
| SubscriptionTable.FoldAt | nostr-client-plus/src/client.rs:109-133 | After any stream of commands the last command on an id alone decides it. |
| SubscriptionTable.FoldsAgree | nostr-client-plus/src/client.rs:109-133 | Two tables become equal under a stream of commands if and only if they agree on every id it does not touch. |
| ReconnectingClient.ConnectionConverges | nostr-client-plus/src/client.rs:68-186 | In every reachable state, for any commands, failures and iteration orders: what was written on the connection is part of the client's table, draining the queue makes them equal, and with an empty queue they are equal. |
| ReconnectingClient.UndisturbedRunsAreInOrder | nostr-client-plus/src/client.rs:105-148 | While nothing fails, what was sent followed by what is waiting is what was submitted, in order, and table and connection hold what was sent. |
| ReconnectingClient.StepConverges | nostr-client-plus/src/client.rs:105-184 | Each single happening keeps that convergence. |
| ReconnectingClient.ReconnectConverges | nostr-client-plus/src/client.rs:151-184 | A reconnection re-establishes convergence from any table and any pending commands, with any commands of others between the entries sent again. |
| ReconnectingClient.ReconnectionAsksAgain | nostr-client-plus/src/client.rs:170-183 | After a reconnection every filter of a subscription with an offset asks from that long before the time of reconnection, wrapping beyond it; ids, number of filters and subscriptions without an offset stay; each is queued at its slot behind the pending commands. |
| ReconnectingClient.PendingSurvivesIff | nostr-client-plus/src/client.rs:105-184 | Through any step that reconnects, all commands, the one whose send failed and those submitted meanwhile included, keep their outcome if and only if, for each subscription of the table, the last of them leaves it as it is or comes after it was sent again. |
| ReconnectingClient.ClosedSubscriptionReturns | nostr-client-plus/src/client.rs:125-133 | Two runs from the start: a subscription comes back whose Close was waiting, or was being sent, when the connection broke. |
| ReconnectingClient.Listener.SubmitCommand | nostr-client-plus/src/client.rs:58-61 | A command goes to the back of the queue. |
| ReconnectingClient.Listener.TakeCommand | nostr-client-plus/src/client.rs:105-148 | Each command's effect on table and connection, sent or not; a failed send asks for a reconnection. |
| ReconnectingClient.Listener.TryReconnect | nostr-client-plus/src/client.rs:152-164 | Reconnecting succeeds exactly when one of the first sixty attempts does. |
| ReconnectingClient.Listener.SendAgain | nostr-client-plus/src/client.rs:171-182 | One entry is refreshed in place and queued, behind what others have submitted. |
| ReconnectingClient.Listener.Resubscribe | nostr-client-plus/src/client.rs:170-183 | In whatever order, and with commands of others in between, every entry is refreshed in place and queued exactly once, behind the pending commands. |
| ReconnectingClient.Listener.Recover | nostr-client-plus/src/client.rs:151-185 | The loop stops or continues with an empty connection and the resent table. |
| ReconnectingClient.Listener.ServeCommand | nostr-client-plus/src/client.rs:105-185 | One whole iteration on a command is one step of the protocol. |
| ReconnectingClient.Listener.ServeRead | nostr-client-plus/src/client.rs:76-104 | One whole iteration on a read is one step of the protocol. |
| RelaySubscriptions.SubscribeIsUpdate | nostr-relay/src/local/subscriptions.rs:39-75 | Subscribing succeeds exactly for an id of at most 256 bytes that is known or finds room, and is then a plain update. |
| RelaySubscriptions.RelayTableStaysWellFormed | nostr-relay/src/local/subscriptions.rs:39-90 | Over every stream of messages the table holds at most 32 subscriptions, each under its own id. |
| RelaySubscriptions.LocalState.SubscribeTo | nostr-relay/src/local/subscriptions.rs:39-75 | The new table and the verdict for every request. |
| RelaySubscriptions.LocalState.Unsubscribe | nostr-relay/src/local/subscriptions.rs:78-90 | Removes that id and nothing else. |
| RelaySubscriptions.LocalState.HandleBinary | nostr-relay/src/local/serve.rs:132-140 | Answers a size query, refuses everything else. |
| RelaySubscriptions.BinaryDecodesIff | nostr-plus-common/src/binary_protocol.rs:16-43 | Exactly which byte strings decode to which message. |
| RelaySubscriptions.AnswersExactlyIff | nostr-relay/src/local/serve.rs:135-137 | The one-byte answer is the true size exactly below 256. |
| RelaySubscriptions.QueriesAreAnsweredExactly | nostr-relay/src/local/serve.rs:132-140 | Over every run the client decodes the relay's answer to the true number of subscriptions. |
| ClientAndRelay.SystemAgrees | nostr-client-plus/src/client.rs:68-186 | In every reachable state the relay's table, once it has read what is under way, is what the client wrote on this connection, and every table on the way is one the relay accepts. |
| ClientAndRelay.RelayEndsUpWithTheClientsTable | nostr-relay/src/local/subscriptions.rs:39-90 | For every run in which the client's table fits a relay, once queue and wire are empty the relay's table is the client's. |
| ClientAndRelay.SystemComesToRest | nostr-client-plus/src/client.rs:68-186 | From every state of a running client some more steps without failures empty queue and wire, and then the relay's table is the client's. |
| Aggregator.AssigneeIsNamed | nostr-client-plus/src/bin/aggregator.rs:505-524 | The assignee check passes if and only if the assignment's only p tag is the hexadecimal form of the sender. |
| Aggregator.AcceptedIsLegitimate | nostr-client-plus/src/bin/aggregator.rs:168-213 | An accepted result was sent by the only worker of the assignment it names, with the proof of work it needs. |
| Aggregator.JudgementIs | nostr-client-plus/src/bin/aggregator.rs:168-222 | Exactly which results are accepted, invalid, unclassified, refused or the end of the listener. |
| Aggregator.JudgementIsCounted | nostr-client-plus/src/bin/aggregator.rs:168-222 | And which metric counts each. |
| Aggregator.MessageIsFinished | nostr-client-plus/src/bin/aggregator.rs:260-328 | A message is finished, with exactly its own row, if and only if its version is right, its id new, its writes work and, for a classification, a tag is listed. |
| Aggregator.MessageIsCounted | nostr-client-plus/src/bin/aggregator.rs:260-328 | A wrong version or unknown type is an unclassified error, every other message that is not finished has failed. |
| Aggregator.ClassificationIsFiled | nostr-client-plus/src/bin/aggregator.rs:389-422 | A classification is filed under the first tag listed, on a new id; without any tag neither collection is written. |
| Aggregator.FinishedJobsAreLegitimate | nostr-client-plus/src/bin/aggregator.rs:260-328 | Over every run the metric equals the number of rows, and each row is under its own id, in the supported version, legitimate, and for a classification has a classifier row with the same key and the first tag its output lists. |
| AggregatorCollections.OrphanIff | nostr-client-plus/src/bin/aggregator.rs:379-438 | From paired collections, a step leaves a classifier row without its finished classification exactly when its first write succeeds on a new id and the second fails, because the write does or because another kind of job with that id is finished. |
| AggregatorCollections.CollectionsPartIff | nostr-client-plus/src/bin/aggregator.rs:260-328 | Over every run the collections have parted if and only if some message did that. |
| AggregatorCollections.SecondWriteFails | nostr-client-plus/src/bin/aggregator.rs:404-437 | A run from the start in which the second write fails: a classifier row without any finished job. |
| AggregatorCollections.AnotherJobWasFinished | nostr-client-plus/src/bin/aggregator.rs:404-437 | A run from the start in which every write works and a proof of work already holds the id: a classifier row beside a finished job of another kind. |
| AggregatorCollections.OrphansStayUnclassified | nostr-client-plus/src/bin/aggregator.rs:379-438 | An id with a classifier row and no finished classification never gets one, whatever arrives later. |
| AggregatorListener.ListenerStopsIff | nostr-client-plus/src/bin/aggregator.rs:168-213 | Over every run the listener has stopped if and only if some parsed result named an assignment, last stored under that id, whose assignee is cut off. |
| AggregatorListener.EmptyAssigneeStopsListener | nostr-client-plus/src/bin/aggregator.rs:505-508 | A run from the start that stops the listener: an assignment to the empty text, then any result that names it. |
| AggregatorListener.SoundAssignmentsKeepListening | nostr-client-plus/src/bin/aggregator.rs:497-524 | When no assignment seen has such an assignee the listener never stops. |
| AggregatorListener.EveryResultIsAccountedFor | nostr-client-plus/src/bin/aggregator.rs:168-328 | The results seen are as many as those finished, failed, in error or on their way if and only if no result ever crashed the listener. |
| AggregatorListener.ResultsAreHandledInOrder | nostr-client-plus/src/bin/aggregator.rs:208-260 | Over every run the second task takes the accepted results in the order in which they came. |
| AggregatorListener.StoreHoldsLastAssignment | nostr-client-plus/src/bin/aggregator.rs:485-495 | While the listener runs the store holds, for every id, the last assignment stored under it and nothing else. |
| AssignerAndAggregator.FinishedJobsWereDispatched | nostr-client-plus/src/bin/aggregator.rs:168-328 | For any dispatches, with any numbers of workers: an aggregator that sees their assignments never stops, accounts for every result, and each finished job was dispatched to its one worker alone. |
| AssignerAndAggregator.FinishedJobsAreEarned | nostr-client-plus/src/bin/assigner.rs:276-351 | For every run of the assigner and every run of the aggregator on its assignments, each finished job is that of one dispatch of one accepted job to its only worker, who had sent a heartbeat less than the stale time before being given that very job, and had been given nothing in between. |
| Aggregator.Service.SaveAssignment | nostr-client-plus/src/bin/aggregator.rs:485-495 | An assignment is stored under its hexadecimal id. |
| Aggregator.Service.HandleResult | nostr-client-plus/src/bin/aggregator.rs:168-222 | One result is an error of one of four kinds, a failed hand-over included, or a message to the second task, as specified. |
| Aggregator.Service.FinalizeClassification | nostr-client-plus/src/bin/aggregator.rs:379-438 | Both writes of a classification, for every outcome of each. |
| Aggregator.Service.AggregateNext | nostr-client-plus/src/bin/aggregator.rs:260-329 | One message through the version check and its job type. |
| Ordering.NormalFormIsCanonical | nostr-surreal-db/src/message/filter.rs:40-46 | Sorted and de-duplicated lists are equal if and only if the lists have the same elements; normalising again changes nothing. |
| Ordering.NormalElements | nostr-plus-common/src/wire.rs:99-103 | Sorting and de-duplicating keeps exactly the elements. |
| Ordering.LessIsLexicographic | nostr-surreal-db/src/message/filter.rs:40-46 | The order of sorting: the first difference decides, a proper prefix comes first. |
| Filters.NormalFiltersAreCanonical | nostr-surreal-db/src/message/filter.rs:29-53 | Id, author and kind lists of parsed filters depend on the listed elements alone, and normalising them is idempotent. |
| Filters.FilterParsesIff | nostr-plus-common/src/wire.rs:81-98 | A filter parses if and only if every key of # and one byte has a list of strings, hexadecimal ones under e and p. |
| Filters.ParsedFilterKeeps | nostr-surreal-db/src/message/filter.rs:29-53 | It keeps bounds and limit, and has exactly one tag for each such key with a non-empty list, with the elements of that list. |
| Filters.KindsAscend | nostr-surreal-db/src/message/filter.rs:45-46 | Kinds are in strictly ascending order. |
| Filters.IndexingPreservesMeaning | nostr-surreal-db/src/message/events.rs:97-107 | For every wire event and wire filter that parse, matching after indexing and normalising is the direct reading of the raw data. |
| Filters.OneTagMeansRawTag | nostr-surreal-db/src/message/filter.rs:88-96 | An indexed tag matches a normalised list exactly when a raw tag of at least two elements does. |
| Filters.ParseFilterTags | nostr-plus-common/src/wire.rs:81-107 | In whatever order the map is walked, the result is the same map of normalised lists, or an error exactly when an indexed key is malformed. |
| Filters.NormaliseFilter | nostr-surreal-db/src/message/filter.rs:29-53 | The whole conversion of a wire filter, error cases included. |
| Filters.IndexEventTags | nostr-surreal-db/src/message/events.rs:53-77 | The loop indexes the short named tags in order, keeps the last expiration, and fails exactly on a faulty tag. |
| Filters.IndexEvent | nostr-surreal-db/src/message/events.rs:32-93 | The whole conversion of a wire event: id, time and tag errors, and the indexed event. |
| Filters.EventIsIndexedIff | nostr-surreal-db/src/message/events.rs:32-93 | An event is accepted if and only if its id is its hash, it is not from the future and its expiration, e and p tags are well formed; all its fields are kept. |
| Filters.TagsAreIndexedInOrder | nostr-surreal-db/src/message/events.rs:56-77 | Tags are indexed one by one, in order: those with a value and a name of at most one byte. |
| Filters.LastExpirationCounts | nostr-surreal-db/src/message/events.rs:58-65 | The last expiration with a value counts. |
| Decimal.ParseOfPrint | nostr-surreal-db/src/message/events.rs:59-62 | Exactly the numbers below 2^64 are read back from their digits, with or without a plus. |
| Decimal.OthersAreRefused | nostr-surreal-db/src/message/events.rs:59-62 | Anything but digits is refused. |
| Decimal.EmptyIsRefused | nostr-surreal-db/src/message/events.rs:59-62 | So is a text without any digit. |
| Filters.MatchTag | nostr-surreal-db/src/message/filter.rs:77-106 | With its shortcuts and in any map order: true exactly when every wanted tag has a match. |
| Filters.MatchAnyFilter | nostr-surreal-db/src/message/events.rs:97-117 | True exactly when one of the filters matches. |
| Forwarding.ParseFilters | nostr-surreal-db/src/message/subscription.rs:15-25 | All filters parsed in order, or an error when one is malformed. |
| Forwarding.FindInterested | nostr-relay/src/local/subscriptions.rs:19-26 | In any map order: some interested subscription if there is one, an error exactly when there is none. |
| Forwarding.InterestedMeansWants | nostr-relay/src/local/serve.rs:119-130 | The relay's decision on indexed data is exactly the subscriber's request read on the raw event. |
| SqlGrammar.LexSpelled | nostr-surreal-db/src/sql_builder/query.rs:134-215 | Lexing the spelling of well-spaced tokens gives back the tokens. |
| SqlQuery.SpellWhere | nostr-surreal-db/src/sql_builder/query.rs:190-215 | The printed WHERE text is the spelling of a token list built from the filters. |
| SqlQuery.ListTexts | nostr-surreal-db/src/sql_builder/query.rs:138-163 | The text of a condition on one id, author or kind, letter by letter. |
| SqlQuery.TimeTexts | nostr-surreal-db/src/sql_builder/query.rs:166-183 | The text of each condition on time. |
| SqlQuery.TextOfTwoFilters | nostr-surreal-db/src/sql_builder/query.rs:196-213 | The whole WHERE text of two filters. |
| SqlQuery.WhereReadsBack | nostr-surreal-db/src/sql_builder/query.rs:190-215 | For any non-empty filter list, the WHERE text lexes back to exactly those tokens. |
| SqlMeaning.WhereTextParses | nostr-surreal-db/src/sql_builder/query.rs:134-215 | The WHERE text parses, with AND binding tighter than OR, to the disjunction of the filters' conjunctions. |
| SqlMeaning.WhereTextMeansPrefilters | nostr-surreal-db/src/sql_builder/query.rs:134-215 | The parsed text holds of an event exactly when one filter's id, author, kind and strict time tests do. |
| Query.SqlBuilder.BuildOneFilter | nostr-surreal-db/src/sql_builder/query.rs:134-188 | The conditions of one filter, in order, lists only when non-empty. |
| Query.SqlBuilder.TimeText | nostr-surreal-db/src/sql_builder/query.rs:166-183 | The time condition in all four cases. |
| Query.SqlBuilder.GetEventsByFilters | nostr-surreal-db/src/sql_builder/query.rs:190-215 | One statement is appended to the builder: the SELECT with the WHERE text of the filters; built on a fresh builder, that is the whole query. |
| Query.QuerySelects | nostr-surreal-db/src/db.rs:28-44 | A query never fails, and returns in stored order exactly the events one filter picks and one filter, possibly another, matches. |
| Query.SelectConcat | nostr-surreal-db/src/db.rs:35-41 | Selecting works event by event: it keeps order and number, and exactly the events that pass. |
| Query.OneFilterIsExact | nostr-surreal-db/src/db.rs:28-44 | With one filter the query returns exactly the events that match it and its time test. |
| Query.QueryMeansRawRequest | nostr-surreal-db/src/db.rs:28-44 | On raw data: a stored event is returned for a wire filter exactly when the filter asks for it and the time test passes. |
| Query.ManyFiltersAreCloseToExact | nostr-surreal-db/src/db.rs:28-44 | With several filters every event fully matching one is returned, and none that fails the post-filter. |
| QueryExactness.SeveralFiltersCanReturnTooMuch | nostr-surreal-db/src/db.rs:28-44 | Two wire filters, parsed, and any late event without tags, indexed: the query returns it though neither filter fully matches it. |
| QueryExactness.QueriesAreExactIff | nostr-surreal-db/src/db.rs:28-44 | For any number of filters, the query is exact on every database if and only if nothing leaks through them: no choice of one reason of rejection per filter passes the tests on id, author, kind, time and tags. |
| QueryExactness.LeakThroughShows | nostr-surreal-db/src/db.rs:28-44 | Every such leak gives an event that the query picks and keeps though no filter fully matches it. |
| QueryExactness.WithoutLeaksQueriesAreExact | nostr-surreal-db/src/db.rs:28-44 | For any number of filters and any database, the query is exact when no filter leaks into another. |
| QueryExactness.TwoFiltersAreExactIff | nostr-surreal-db/src/db.rs:28-44 | For two filters the condition comes down to a direct test: neither leaks into the other. |
| QueryExactness.LeakShows | nostr-surreal-db/src/db.rs:28-44 | For every leak of one filter into another there is an event the query returns though neither fully matches it. |
| FilterReasons.NormalFiltersAreWellTagged | nostr-plus-common/src/wire.rs:99-103 | Parsed filters have no empty tag list, which is all that the equivalences for one and two filters ask of them. |
| TimeBounds.StrictTimeDiffersAtBounds | nostr-surreal-db/src/message/filter.rs:57-62 | The query's time test differs from the filter's own exactly at the bounds and, without bounds, at time 0. |
| TimeBounds.TimeIsRespectedIff | nostr-surreal-db/src/message/events.rs:97-117 | For any filters, everything that matches is asked for, bounds included, if and only if nothing strays: no choice of one reason of rejection per filter passes the tests on id, author, kind, tags and time. |
| TimeBounds.OneFilterRespectsTimeIff | nostr-surreal-db/src/message/events.rs:97-107 | For one filter, if and only if its bounds shut out no time. |
| TimeBounds.ForwardingRespectsTimeIff | nostr-surreal-db/src/message/subscription.rs:27-34 | A subscription whose filters parse is forwarded only what it asks for, bounds included, if and only if nothing strays from its filters. |
| TimeBounds.OneFilterForwardsAsAskedIff | nostr-surreal-db/src/message/subscription.rs:27-34 | With a single wire filter, if and only if its bounds shut out no time. |
| TimeBounds.ForwardedTooLate | nostr-relay/src/local/subscriptions.rs:19-26 | Every indexed event after time 10 is forwarded under a wire filter that asks for nothing after time 10. |
| TimeBounds.QueriesAsAskedIff | nostr-surreal-db/src/db.rs:28-44 | A query with one filter returns all it asks for, inclusive bounds and all, on every database if and only if both bounds are given and exclude every time. |
| TimeBounds.EventAtSinceIsMissed | nostr-surreal-db/src/sql_builder/query.rs:169-171 | An event created exactly at `since` is asked for and not returned. |
| Liveness.SilentPeersAreDisconnected | nostr-relay/src/ws/server.rs:36-130 | Whatever happened before, a peer silent from time a on is disconnected before a plus two ping intervals and a pong timeout. |
| Liveness.TheBoundIsTight | nostr-relay/src/ws/server.rs:110-130 | Some silent peer keeps its connection until the last nanosecond before that bound. |
| Liveness.TimersCanFire | nostr-relay/src/ws/server.rs:110-130 | On every open connection that a run reaches the next timer can fire, so no run gets stuck. |
| Liveness.SilentRunsCanEnd | nostr-relay/src/ws/server.rs:36-130 | Every silent run of an open connection can go on, by its timers alone, until the connection is closed. |
| Liveness.NoPingWhileWaiting | nostr-relay/src/ws/server.rs:115-130 | No ping is ever sent while a pong is awaited. |
| Liveness.TimeoutsAreDeserved | nostr-relay/src/ws/server.rs:110-113 | A timeout closes a connection only when the last ping was sent exactly the timeout ago and no pong came since. |
| Liveness.UnansweredMeansWaiting | nostr-relay/src/ws/server.rs:77-113 | Conversely, while a ping is unanswered the timeout is due 20 seconds after it, whatever other frames come. |
| Liveness.EventsThatPingOrClose | nostr-relay/src/ws/server.rs:65-130 | A ping is sent exactly at a tick 300 seconds after the last frame or ping, and the connection closes exactly at its end, a timeout or a ping that cannot be sent. |
| Liveness.TicksAreRegular | nostr-relay/src/ws/server.rs:36-36 | The interval ticks at the start and every 300 seconds. |
| Liveness.Connection.OnFrame | nostr-relay/src/ws/server.rs:77-91 | Every frame is activity; only a pong ends the waiting. |
| Liveness.Connection.OnTick | nostr-relay/src/ws/server.rs:115-130 | A ping after a whole interval without activity; a failed one closes the connection. |
| Liveness.Connection.OnPongTimeout | nostr-relay/src/ws/server.rs:110-113 | The pong timer closes the connection. |
| Liveness.Connection.OnEnd | nostr-relay/src/ws/server.rs:65-76 | A close frame ends the connection. |
| Bits.FromBits | nostr-crypto/src/utils.rs:1-44 | The three loops compute the value of the bits, ignoring those beyond the width, without overflow. |
| Bits.ToBits | nostr-crypto/src/utils.rs:46-74 | The three loops list the bits, least significant first. |
| Bits.BitsRoundTrip | nostr-crypto/src/utils.rs:1-74 | A number that fits the width comes back from its bits. |
| Bits.BitsOfAt | nostr-crypto/src/utils.rs:46-74 | Each bit of a number, by its weight. |
| Bits.BytesToBitsAt | nostr-crypto/src/utils.rs:88-97 | Each bit of each byte, in both orders. |
| Bits.ShortChunk | nostr-crypto/src/utils.rs:76-80 | A last chunk of fewer than eight bits is a byte of its own. |
| Bits.ValueRoundTrip | nostr-crypto/src/utils.rs:1-74 | Bits come back from their value, which fits their number. |
| Bits.BytesRoundTrip | nostr-crypto/src/utils.rs:76-97 | Bytes come back from their bits. |
| Bits.WholeBytesRoundTrip | nostr-crypto/src/utils.rs:76-97 | Bits in whole bytes come back from their bytes. |
| Bits.BitsGiveLittleEndian | nostr-crypto/src/utils.rs:46-80 | The bits of a number, packed into bytes, are its little-endian form. |
| Decimal.ValueOfPrint | nostr-crypto/src/jwt.rs:88-95 | A number comes back from its decimal digits. |
| Decimal.ValueMore | nostr-crypto/src/jwt.rs:88-95 | A digit at the end counts one, and ten times what stands before it. |
| IssueTime.GetIat | nostr-crypto/src/jwt.rs:88-95 | With checked arithmetic the loop returns the value of ten digits, without overflow at any partial sum, exactly when it is below 2^32. |
| IssueTime.GetIatWrapping | nostr-crypto/src/jwt.rs:88-95 | With wrapping arithmetic it returns that value modulo 2^32. |
| IssueTime.OutputHashPreimage | nostr-crypto/src/jwt.rs:113-130 | The 104 bytes end in the issue time's little-endian form; any other lengths panic. |
| IssueTime.IssueTimeRoundTrip | nostr-crypto/src/jwt.rs:119-128 | Every ten-digit time prints to ten digits and comes back from them and from its eight bytes. |
| IssueTime.ReadBack | nostr-crypto/src/jwt.rs:88-130 | On a printed ten-digit time all three readings together: checked, wrapping, and the last eight bytes of the preimage. |
| RsaPadding.RsaVerify | nostr-crypto/src/rsa.rs:6-41 | For every signature and modulus: it panics exactly for a zero modulus or a power beyond 256 bytes, never for moduli up to 2^2048, and otherwise accepts if and only if the power, as an integer, is the value of the encoding of section 9.2 of RFC 8017. |
| RsaPadding.CheckPadding | nostr-crypto/src/rsa.rs:24-40 | The three loops and three tests decide exactly their six regions of the buffer. |
| RsaPadding.RegionsAreTheEncoding | nostr-crypto/src/rsa.rs:18-40 | The regions cover all 256 bytes: they hold exactly of the encoded message. |
| RsaPadding.EncodedBytes | nostr-crypto/src/rsa.rs:17-40 | The encoded message, byte by byte. |
| RsaPadding.ToBytesBeRoundTrip | nostr-crypto/src/rsa.rs:12-12 | The minimal big-endian bytes of a number have its value. |
| RsaPadding.BeValueMore | nostr-crypto/src/rsa.rs:12-12 | The last byte counts one, and 256 times what stands before it. |
| RsaPadding.FitsIff | nostr-crypto/src/rsa.rs:14-15 | They fit a buffer exactly when the number is below the buffer's power of 256. |
| RsaPadding.PaddedMatches | nostr-crypto/src/rsa.rs:12-40 | Right-aligned bytes pass all the tests exactly when they have the value of the encoded hash. |
| RsaPadding.LeadingZeros | nostr-crypto/src/rsa.rs:14-15 | Right-aligning in a zeroed buffer keeps the value. |
| RsaPadding.SameValueSameBytes | nostr-crypto/src/rsa.rs:14-40 | Buffers of one length are equal exactly when their values are. |
| NameHash.MizuNameHash | nostr-crypto/src/hash.rs:30-44 | For every name and hash function the downward loop computes the recursive hash over the labels, without index underflow; it is ERC-137's except, up to a hash fixed point, for the empty name. |
| NameHash.HashIsHierarchical | nostr-crypto/src/hash.rs:30-44 | For every label without a dot and every rest, the hash of the name is built from the hash of the rest and the label. |
| NameHash.BytesOfAt | nostr-crypto/src/hash.rs:36-36 | A label is hashed byte by byte. |

## Left out

- Assigner.Context.RecordAssignment: reads the clock and records all the workers in one atomic step; `CoolDown` has the reading and each lock as steps of their own.
- SchedulerHistory.OnlyLiveRestedWorkersAreGivenJobs: its cool-down half takes the check of a heartbeat and its admission as one step; `CoolDown` says exactly what happens otherwise.
- Assigner.Context.RetryOnce: the two-second pause between attempts is not modelled; attempts of all tasks interleave freely.
- Aggregator.Service.HandleResult: the channel between the two tasks has no bound here; waiting for room in it is one of the orders the model allows anyway.
- Aggregator.Service.AggregateNext: the timestamp of a row, and a database that stores a row but reports an error.
- Aggregator.FinishedJobsAreLegitimate: takes event ids to determine an assignment's tags, since a later event under the same id would replace it in the store.
- Liveness.SilentPeersAreDisconnected: timers fire when due and handlers take no time.
- ClientAndRelay.RelayEndsUpWithTheClientsTable: assumes what the relay demands, a table of at most 32 ids of at most 256 bytes; other requests are refused.
- IssueTime.GetIat: only decimal digits; other bytes in the field have no meaning as a time.
- RsaPadding.RsaVerify: the modular power is the mathematical one.
- Query.SqlBuilder.GetEventsByFilters: the filters' `limit` is ignored, as in the code.
- QueryExactness.QueriesAreExactIff: a database may hold any indexed events; that an event's id is the hash of its content is not asked of those that show a leak.
- AssignerAndAggregator.FinishedJobsAreEarned: takes the assignments the aggregator sees to be the assigner's; the relay's whitelist filter on their authors is not modelled.
- The order in which a task serves its channels is arbitrary in the model, which covers every order the runtime may choose.
- Losing the relay connection for good ends the assigner's and the aggregator's event loops; it is not an event of theirs here.
- `current_time - offset` on a reconnection wraps as in a release build; a debug build would panic.
- Sockets, TLS, MongoDB, Redis, SurrealDB, metrics servers, configuration and logging: outcomes that may be anything, or nothing.
- Signatures, Keccak and SHA-256: parameters or verdicts.
- JSON parsing: messages start as parsed structures. SQL is parsed only as far as the WHERE texts need.
- Error messages: only whether an error occurs.
- The metric of pending jobs, which is decremented for classifications only and is the size of nothing.
- Sending events again after a failed send, and deliveries under more than one subscription: the program does neither.
- The periodic subscription query of the assigner and the aggregator, publishers, demo and dummy worker binaries, relay authentication and domain lists.
- `bits_to_u32` and `find_subsequence_u8`, which would add only easy members.
