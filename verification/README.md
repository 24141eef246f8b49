# Verified models

Dafny models of the parts of this repository whose behaviour is a protocol, a state machine or a text
transformation, with proofs of what they promise. `dafny verify dfyconfig.toml` checks everything.

- **Remote app-server client** (`RemoteProtocol`, `RemoteMeaning`, `RemoteWorker`, `RemoteSession`). The
  worker's select loop is run over sequences of turns: a turn is a command or a frame together with the outcome of every write, close and
  delivery it causes, so a sequence of turns is any interleaving under any environment. What each command is owed,
  which events are due and what goes on the wire are defined from the turns alone, without the worker's state, and
  the worker is proved to deliver exactly that, on every exit path. A whole session runs the handshake, the worker
  and the consumer's `next_event` one after another. `RemoteMeaning` says once more of the messages themselves what
  becomes an event, a reply, a refusal or an end.
- **Release publication** (`ReleaseStore`, `ReleasePublisher`). Publisher runs interleave at every put and every
  verification, and any of them can fail before or after it has written. The script's `main` is proved to be one run
  of that step machine.
- **Evidence collector** (`ModelEvents`, `ModelCollector`, `ModelRollouts`, `ModelRecovery`, `FactoryAttempts`,
  `FactoryCollector`, `Metrics*`). Cursor-paged events with replays, usage recovered from cumulative counters,
  attempts and retries, and the table merged from observations and read back.
- **MODULE.bazel checksums** (`BazelLines` to `BazelTool`, `BazelManifest`). Text is a list of lines, each line read
  character by character; the rewriter and the checker are related through a re-parse of the new text.
- **Diff counter** (`Words`, `UnifiedDiff`), proved against a printer.
- **Analytics client** (`AnalyticsQueue`, `AnalyticsWorker`, `AnalyticsBatches`, `AnalyticsDedupe`). Callers and
  worker as one step machine, plus the loops themselves, related to it both ways.
- **Version tags, lint wrapper arguments, canvas and PNG** (`VersionTag`, `WrapperArgs`, `Canvas`, `Png`).

Imperative code is modelled by classes and loops, each proved against functions about which the promises are then
proved. Lemmas named `...Mean`, `...Means` and `...Spelled` say what such a function comes to without it: by positions
in the input, by counts and sums over it, or letter by letter.

Input from outside (frames, write outcomes, failures of the object store, sign-in, characters' classes, digests,
checksums, compression, printed decimals, the server's answers) enters as parameters.

Four promises do not hold of the code as one would first state them. Each has a lemma with an input that shows it and
a lemma with the exact condition.

- Updating MODULE.bazel does not always satisfy the checker: `StaleChecksumStays`, `UpdateThenCheck`.
- Updating it twice is not always the same as once, even when all checksums are hexadecimal or absent:
  `BlankLineGoesSecond`, `SecondUpdate`. The pattern that replaces a checksum line also swallows the blank lines
  behind it, and an inserted line can have blank lines behind it.
- Building the lint wrapper's arguments twice is not the same as once when the manifest path is `--`:
  `SeparatorPathGrows`, `StableExactly`.
- Streams with the same facts need not start the same threads, since a replayed turn may name another thread:
  `ReplayMayAddThread`, `AgreeExactly`.

## Model

| member | source | states |
|---|---|---|
| `RemoteWorker.Worker.Run` | factory-harness/codex-rs/app-server-client/src/remote.rs:214-473 | For every sequence of turns (commands and frames in any interleaving, with every write, close and consumer outcome): when the loop exits nothing is pending and each command has had exactly one reply, said of the turns themselves: a duplicate-id error, its own write error, the first later answer with its id, or why the worker left. The events attempted pass on exactly the known notifications and requests among the frames received, each under its own kind, in order, and then announce the end; the wire is exactly what the turns got onto it, in order; all attempted events are delivered but a last one nobody was there for |
| `RemoteWorker.Worker.Loop` | factory-harness/codex-rs/app-server-client/src/remote.rs:218-463 | The loop stops at the first turn that leaves it and at no other, and what it keeps (ledger, output, pending requests) holds at every turn |
| `RemoteWorker.Worker.Step` | factory-harness/codex-rs/app-server-client/src/remote.rs:219-462 | One turn of the select moves the worker as the transition function says and keeps the invariant over all turns so far |
| `RemoteWorker.Worker.Command` | factory-harness/codex-rs/app-server-client/src/remote.rs:220-317 | A command's branch, including the duplicate id, the failed write and shutdown |
| `RemoteWorker.Worker.Frame` | factory-harness/codex-rs/app-server-client/src/remote.rs:318-461 | A frame's branch, including known and unknown requests, bad text, close, transport failure and end of stream |
| `RemoteWorker.Worker.Drain` | factory-harness/codex-rs/app-server-client/src/remote.rs:465-473 | After the loop every pending request gets the exit cause, or the default broken-pipe error, whatever order the map yields; then all commands are answered once |
| `RemoteWorker.LedgerKept` | factory-harness/codex-rs/app-server-client/src/remote.rs:226-331 | Every turn keeps: replies sent are exactly those owed, each to the turn that asked, and pending is exactly the unresolved requests |
| `RemoteWorker.OutputKept` | factory-harness/codex-rs/app-server-client/src/remote.rs:332-459 | Every turn keeps: events attempted, events delivered, the wire and the exit error are exactly those the turns call for; an event is missed exactly when the turn calls for one and the consumer is gone |
| `RemoteWorker.AnswerSettles` | factory-harness/codex-rs/app-server-client/src/remote.rs:322-331 | A response or error settles the one request in flight with its id and no other |
| `RemoteWorker.RequestOpens` | factory-harness/codex-rs/app-server-client/src/remote.rs:235-242 | A request whose write succeeds becomes the one in flight with its id |
| `RemoteWorker.ReplyAtOnce` | factory-harness/codex-rs/app-server-client/src/remote.rs:228-258 | A duplicate id, a failed write or a command without a pending entry is replied to in its own turn |
| `RemoteProtocol.InFlightMeans` | factory-harness/codex-rs/app-server-client/src/remote.rs:228-235 | An id is in flight exactly when some earlier request took it and no later answer carried it |
| `RemoteProtocol.FirstAnswerMeans` | factory-harness/codex-rs/app-server-client/src/remote.rs:322-331 | The answer a request gets is the first later response or error with its id |
| `RemoteMeaning.EventsTell` | factory-harness/codex-rs/app-server-client/src/remote.rs:332-352 | The events of a stream are, at strictly increasing positions, exactly the known notifications and the known requests, each as the event of its own kind |
| `RemoteMeaning.WireSays` | factory-harness/codex-rs/app-server-client/src/remote.rs:235-392 | The messages on the wire are, at strictly increasing turns, exactly those that could be written: each command's own message, and a -32601 error with the request's id and method for each unknown request |
| `RemoteMeaning.FinalReplyIsDeserved` | factory-harness/codex-rs/app-server-client/src/remote.rs:226-331 | The one reply of a command, case by case and without the pending map |
| `RemoteMeaning.CauseMeans` | factory-harness/codex-rs/app-server-client/src/remote.rs:243-459 | Why a connection is given up and with which error, case by case, and that nothing else gives it up |
| `RemoteMeaning.LeavesMeans` | factory-harness/codex-rs/app-server-client/src/remote.rs:218-463 | When the loop is left: commands ended, shutdown, the connection given up, or an event nobody takes |
| `RemoteWorker.MissedMeans` | factory-harness/codex-rs/app-server-client/src/remote.rs:332-352 | Which event a consumer that is gone misses, and that it misses no other |
| `RemoteSession.Session` | factory-harness/codex-rs/app-server-client/src/remote.rs:204-599 | A whole session, from the handshake through the worker to `next_event`, for every inbound stream and a consumer that asks at any moments. The handshake reads to the first arrival it does not pass, and the worker takes turns to the first that leaves its loop, or all of them. A consumer that is there throughout sees exactly the recognised notifications and requests of that whole stream, across both phases, in order, each once, and then the one announcement of its end; one that leaves misses at most the last. Every command taken has its one reply, and each unrecognised request is refused once, in order, on the wire of its phase |
| `RemoteSession.AnnouncedOnce` | factory-harness/codex-rs/app-server-client/src/remote.rs:243-256 | A disconnection is attempted at most once, as the last event, and exactly when the exit error is set |
| `RemoteSession.EveryUnknownRefused` | factory-harness/codex-rs/app-server-client/src/remote.rs:350-392 | In every run, exited or not, each unrecognised server request has had one -32601 reply with its own id, in order, except a last one whose reply could not be written and which ends the run; the wire is those replies shuffled with what the commands wrote and nothing else |
| `RemoteSession.ReadGreeting` | factory-harness/codex-rs/app-server-client/src/remote.rs:822-921 | The handshake loop reads up to the first arrival that answers or breaks it, keeping the events and refusing the unknown requests of all before it, each as its own message says, in order |
| `RemoteSession.HandshakeMeans` | factory-harness/codex-rs/app-server-client/src/remote.rs:822-921 | What the handshake makes of an arrival, case by case: read past, accepted, or failed with which error |
| `RemoteSession.Initialize` | factory-harness/codex-rs/app-server-client/src/remote.rs:797-940 | Success exactly when the first arrival not read past is the initialize response and both own writes succeed; the events and the wire handed over, and the error in every other case |
| `RemoteSession.EventQueue.NextEvent` | factory-harness/codex-rs/app-server-client/src/remote.rs:594-599 | The consumer gets the next event fed and not yet seen, handshake events first; it waits exactly when all have been seen and the worker lives, and gets the end exactly when all have been seen and the worker is gone |
| `RemoteSession.EventQueue.Send` | factory-harness/codex-rs/app-server-client/src/remote.rs:949-959 | An event sent is fed behind all earlier ones |
| `ReleaseStore.EveryInterleavingSound` | factory-harness/.github/scripts/publish_r2_release.py:276-383 | In every interleaving of any number of runs, each able to fail before or after any write: channels and installer aliases only hold what versioned objects back, every run's verified assets are there, and no versioned object ever changes |
| `ReleaseStore.ActKeeps` | factory-harness/.github/scripts/publish_r2_release.py:276-383 | A new run or one step of any run keeps the whole store and every other run sound |
| `ReleaseStore.StepKeepsVersioned` | factory-harness/.github/scripts/publish_r2_release.py:299-350 | No step changes or removes a versioned object |
| `ReleaseStore.StepKeepsChannels` | factory-harness/.github/scripts/publish_r2_release.py:359-378 | A channel key only ever holds a document whose assets are all there with the listed digests and whose `release.json` is there with its digest |
| `ReleaseStore.StepKeepsInstallers` | factory-harness/.github/scripts/publish_r2_release.py:240-251 | An installer alias always has the digest of the file of its name under some version |
| `ReleaseStore.StepKeepsRun` | factory-harness/.github/scripts/publish_r2_release.py:294-356 | A run past an asset's verification has it in the store for good; past the metadata it has the whole release |
| `ReleaseStore.StepKeepsHonest` | factory-harness/.github/scripts/publish_r2_release.py:161-189 | Every object records the digest of its own content |
| `ReleaseStore.ChannelIsRelease` | factory-harness/.github/scripts/publish_r2_release.py:338-378 | A channel's document is the one at its version's `release.json`, when digests tell contents apart |
| `ReleaseStore.KeyTextIsUnique` | factory-harness/.github/scripts/publish_r2_release.py:298-365 | Keys of publishable releases, channels and installers have different spellings |
| `ReleaseStore.KeySpelling` | factory-harness/.github/scripts/publish_r2_release.py:298-365 | How the three kinds of key are spelled |
| `ReleaseStore.VersionsAreSpellable` | factory-harness/.github/scripts/publish_r2_release.py:276-278 | A publishable release's version and asset names spell keys that read back |
| `ReleasePublisher.Bucket.Publish` | factory-harness/.github/scripts/publish_r2_release.py:267-383 | `main` ends, and the store it leaves is that of its step sequence, finished if and only if it reports success. On success `latest` (if asked for), `prerelease` (for a prerelease) and both installer aliases (otherwise) hold the release, and every asset and `release.json` are stored. Whatever the outcome, no other key is touched. When no step is made to fail, it succeeds exactly when the release is publishable, has its installers, and nothing else stands under its versioned keys |
| `ReleasePublisher.Bucket.PublishAssets` | factory-harness/.github/scripts/publish_r2_release.py:294-322 | The asset loop puts and verifies each asset in turn and stops at the first failure; undisturbed, it succeeds exactly when nothing different stands under an asset's key |
| `ReleasePublisher.Bucket.PublishMetadata` | factory-harness/.github/scripts/publish_r2_release.py:324-356 | The metadata document is put without overwriting and verified; undisturbed, it succeeds exactly when nothing different stands there |
| `ReleasePublisher.Bucket.PublishInstallers` | factory-harness/.github/scripts/publish_r2_release.py:240-256 | Both installer aliases are overwritten and verified, or nothing is written when one is missing; undisturbed, it succeeds exactly when the release has both |
| `ReleasePublisher.Bucket.PublishChannels` | factory-harness/.github/scripts/publish_r2_release.py:359-383 | Each channel of the release is overwritten with the document and verified |
| `ReleasePublisher.Bucket.PutVerified` | factory-harness/.github/scripts/publish_r2_release.py:161-237 | A put followed by its verification is the two steps of the protocol |
| `ReleasePublisher.SoloIsAnInterleaving` | factory-harness/.github/scripts/publish_r2_release.py:267-383 | A run alone is one of the interleavings |
| `ReleasePublisher.PublishedReleaseIsBacked` | factory-harness/.github/scripts/publish_r2_release.py:294-383 | A publication that reports success in a sound store leaves the whole release there and the store sound |
| `ReleasePublisher.PublishedReleaseIsAnnounced` | factory-harness/.github/scripts/publish_r2_release.py:357-383 | A lone publication that reports success has moved what it was to move: `latest` and `prerelease`, as asked for, hold a document with its version and its assets and digests in order, and, unless it is a prerelease, `install.sh` and `install.ps1` hold its assets of these names |
| `ReleasePublisher.PublishedReleaseIsStored` | factory-harness/.github/scripts/publish_r2_release.py:294-356 | Whatever the store held before, success means every asset and the metadata document are there with their digests |
| `ReleasePublisher.SoloTouches` | factory-harness/.github/scripts/publish_r2_release.py:267-383 | Whatever the outcome, only the release's own versioned keys, the channels it is asked to move and, for a stable release, the two aliases can change |
| `ModelCollector.CollectPages` | benchmarks/cleanrl-gpu/scripts/collect.py:1060-1156 | The page loop accepts exactly the complete streams. Its totals are the counts and the field-wise sums over the events on the pages, one event for each sequence number; its threads are those some event on the pages starts |
| `ModelCollector.ReadEvents` | benchmarks/cleanrl-gpu/scripts/collect.py:1082-1151 | One page's events are accepted exactly when they fit what came before; fresh ones are tallied once, replays change nothing |
| `ModelEvents.CursorIsLargest` | benchmarks/cleanrl-gpu/scripts/collect.py:1153-1155 | At every page boundary the cursor bounds every sequence seen, and the log is strictly increasing, so none is counted twice |
| `ModelEvents.LogIsWhatPagesCarry` | benchmarks/cleanrl-gpu/scripts/collect.py:1133-1151 | The log of accepted pages holds exactly the facts the pages carry |
| `ModelEvents.SplitAndReplayIndependent` | benchmarks/cleanrl-gpu/scripts/collect.py:1080-1155 | Two accepted streams carrying the same facts give the same log and totals, however split or replayed |
| `ModelEvents.CountIsTotals` | benchmarks/cleanrl-gpu/scripts/collect.py:1142-1151 | Counting a log is counting and adding up its events, field by field |
| `ModelEvents.PagesCounted` | benchmarks/cleanrl-gpu/scripts/collect.py:1133-1151 | Of each sequence number on accepted pages exactly one event is counted, and every event on the pages agrees with it |
| `ModelEvents.ThreadsMeans` | benchmarks/cleanrl-gpu/scripts/collect.py:1112-1117 | The threads of a stream are those some event on its pages starts, replays included |
| `ModelEvents.SameFactsSameLog` | benchmarks/cleanrl-gpu/scripts/collect.py:1133-1151 | Two increasing logs of the same facts are the same log |
| `ModelCollector.FetchReplies` | benchmarks/cleanrl-gpu/scripts/collect.py:1219-1237 | Whatever the server answers, the loop asks from strictly growing cursors, ends at the first reply without events, refuses the first it cannot go on from, and makes at most one request more than the largest cursor it asks from |
| `ModelCollector.FetchPages` | benchmarks/cleanrl-gpu/scripts/collect.py:1193-1237 | For every server log and every limit from 1 to 1000 the fetch loop ends with a complete stream carrying exactly that log and its threads; other limits are refused |
| `ModelCollector.CollectJob` | benchmarks/cleanrl-gpu/scripts/collect.py:1170-1237 | Whatever the limit from 1 to 1000: tools, compactions and responses are the numbers of such events in the server's log, each part of the usage is the sum over its usage events, and the threads are those its events start |
| `ModelRecovery.ReadRecords` | benchmarks/cleanrl-gpu/scripts/collect.py:993-1016 | A rollout is read exactly when all its records fit one thread that some record names |
| `ModelRecovery.CountResponses` | benchmarks/cleanrl-gpu/scripts/collect.py:1027-1044 | The counter loop accepts exactly the ledgers, and its result is the number and the sum of the responses |
| `ModelRecovery.Recover` | benchmarks/cleanrl-gpu/scripts/collect.py:982-1050 | Recovery succeeds exactly when every rollout is usable and each expected thread is in exactly one; it reports how many records moved a counter, and the sums of the counters the rollouts end on |
| `ModelRollouts.CounterIsSumOfResponses` | benchmarks/cleanrl-gpu/scripts/collect.py:1027-1048 | The counter reached equals the field-wise sum of the `last` usage over the snapshots that changed it |
| `ModelRollouts.RecoveryMeans` | benchmarks/cleanrl-gpu/scripts/collect.py:1023-1050 | What is recovered, said of the records: the moves of all counters, and the counters they end on, added up field by field |
| `ModelRollouts.RepeatsAddNothing` | benchmarks/cleanrl-gpu/scripts/collect.py:1031-1034 | A repeated snapshot adds no response |
| `ModelRollouts.OrderIrrelevant` | benchmarks/cleanrl-gpu/scripts/collect.py:992-1050 | Reordering the rollouts changes neither acceptance nor what is recovered |
| `ModelRecovery.RecoveryCoherent` | benchmarks/cleanrl-gpu/scripts/collect.py:971-979 | The aggregate keeps total = input + output, with no field negative |
| `ModelRecovery.CollectModel` | benchmarks/cleanrl-gpu/scripts/collect.py:1053-1167 | The observation is produced exactly when the stream is complete, the rollouts agree with it and the totals pass the final checks. Tools and compactions are those of the events; so are responses and usage, unless there are rollouts: then they are the rollouts' |
| `ModelRecovery.ObservationIndependent` | benchmarks/cleanrl-gpu/scripts/collect.py:1060-1167 | Splits, replays and rollout order change nothing, for streams that start the same threads |
| `ModelRecovery.ThreadsDecide` | benchmarks/cleanrl-gpu/scripts/collect.py:1112-1117 | That condition is needed: no rollouts agree with two streams that start different threads |
| `ModelRecovery.AgreeExactly` | benchmarks/cleanrl-gpu/scripts/collect.py:1112-1117 | Of two streams with the same facts, rollouts that agree with the one agree with the other exactly when both start the same threads |
| `ModelRecovery.ReplayMayAddThread` | benchmarks/cleanrl-gpu/scripts/collect.py:1112-1137 | The same facts do not fix the threads: a replayed turn naming another thread is taken in |
| `FactoryCollector.CollectFactory` | benchmarks/cleanrl-gpu/scripts/collect.py:272-388 | Evidence is accepted exactly when, record by record, there are the four operations in order, each with attempts numbered 1..n of which only the last succeeded, and a checkpoint of its own naming that attempt; retries are attempts less operations |
| `FactoryCollector.CheckOperations` | benchmarks/cleanrl-gpu/scripts/collect.py:272-293 | Exactly the four kinds in order, with distinct names, all succeeded |
| `FactoryCollector.GroupAttempts` | benchmarks/cleanrl-gpu/scripts/collect.py:295-329 | Attempts are taken exactly when each fits a known operation and no operation has a number twice; grouped by operation in order |
| `FactoryCollector.FinalAttempts` | benchmarks/cleanrl-gpu/scripts/collect.py:331-348 | Accepted exactly when every operation's attempts form a chain; yields the retries and, for each operation, the one attempt that succeeded |
| `FactoryCollector.CheckCheckpoints` | benchmarks/cleanrl-gpu/scripts/collect.py:344-392 | One checkpoint for each operation in order, each naming the attempt that succeeded and closing its stage in the job's own workspace and revision |
| `FactoryAttempts.TestIsChain` | benchmarks/cleanrl-gpu/scripts/collect.py:334-345 | The test on the sorted attempts holds exactly when they are numbered 1..n with success only at n, and then n is their number |
| `FactoryAttempts.SortedPermutes` | benchmarks/cleanrl-gpu/scripts/collect.py:334-334 | Sorting permutes the attempts |
| `FactoryAttempts.SortedAscends` | benchmarks/cleanrl-gpu/scripts/collect.py:334-334 | Sorting puts the numbers in order |
| `FactoryAttempts.TogetherIsAll` | benchmarks/cleanrl-gpu/scripts/collect.py:346-347 | The attempts at the four operations together are all attempts |
| `FactoryAttempts.OrderIrrelevant` | benchmarks/cleanrl-gpu/scripts/collect.py:298-348 | Acceptance does not depend on the order attempts are listed in |
| `FactoryAttempts.AcceptedMeans` | benchmarks/cleanrl-gpu/scripts/collect.py:272-392 | What is accepted, said of the operations, attempts and checkpoints themselves |
| `MetricsMerge.Merge` | benchmarks/cleanrl-gpu/scripts/collect.py:1257-1300 | The merge succeeds exactly on a manifest that lists each run once and observations that are valid, one for each expected source of each run; there is a row a run in the manifest's order. It shows every metric of the run's observations under the metric's own name, only a GPU sample count under the table's name for it, and nothing else |
| `MetricsMerge.Group` | benchmarks/cleanrl-gpu/scripts/collect.py:1263-1275 | Grouping succeeds exactly on valid observations with no source of a run twice |
| `MetricsMerge.BuildRow` | benchmarks/cleanrl-gpu/scripts/collect.py:1287-1299 | A row's cells are what the run's sources say; no source overwrites another's column |
| `MetricsMerge.SourceAdded` | benchmarks/cleanrl-gpu/scripts/collect.py:1290-1298 | Adding a source's cells changes none already there |
| `MetricsFields.MetricsAreOwned` | benchmarks/cleanrl-gpu/scripts/contracts.py:166-257 | A source's metrics and their columns belong to no other source |
| `MetricsFields.MetricsListed` | benchmarks/cleanrl-gpu/scripts/contracts.py:161-274 | A source's metrics are exactly the fields it owns |
| `MetricsFields.WholeMeans` | benchmarks/cleanrl-gpu/scripts/contracts.py:276-309 | Which columns are counts |
| `MetricsMerge.OrderIrrelevant` | benchmarks/cleanrl-gpu/scripts/collect.py:1257-1300 | The order of the observations changes neither acceptance nor the table |
| `MetricsTable.OneRow` | benchmarks/cleanrl-gpu/scripts/collect.py:1285-1299 | What observations say of a run is one row, in whatever order they come |
| `MetricsReader.ReadTable` | benchmarks/cleanrl-gpu/scripts/contracts.py:836-907 | The reader takes exactly the tables whose rows all fit, with no run twice and none missing |
| `MetricsReader.IssueValuesMean` | benchmarks/cleanrl-gpu/scripts/contracts.py:917-938 | The checks on an issue run's row, number by number |
| `MetricsReader.TrainingValuesMean` | benchmarks/cleanrl-gpu/scripts/contracts.py:939-969 | The checks on a training run's row, number by number |
| `MetricsTable.SourceFitsMeans` | benchmarks/cleanrl-gpu/scripts/contracts.py:715-809 | The checks on an observation, source by source |
| `MetricsRoundTrip.MergedRowFits` | benchmarks/cleanrl-gpu/scripts/contracts.py:836-970 | Every merged row passes all the reader's checks |
| `MetricsRoundTrip.MergedValues` | benchmarks/cleanrl-gpu/scripts/contracts.py:868-899 | The reader gets back every observed metric in its column, with an equal value, and no other |
| `MetricsRoundTrip.MergeAndRead` | benchmarks/cleanrl-gpu/scripts/collect.py:1257-1300 | Merging then reading succeeds exactly on mergeable observations and gives back their values, each under its own name, with the run's sources in order, for numbers the formatter prints exactly |
| `MetricsNumbers.CellReads` | benchmarks/cleanrl-gpu/scripts/contracts.py:814-833 | A value valid for its metric is read back from the text of its cell |
| `MetricsNumbers.WholeReads` | benchmarks/cleanrl-gpu/scripts/contracts.py:817-820 | A count is read back from its decimal digits |
| `BazelRewrite.UpdateThenCheck` | factory-harness/.github/scripts/rusty_v8_module_bazel.py:166-217 | After a successful update the checker, on the text parsed again, reports nothing exactly when in every block of the version the checksum read first is one the rewriter replaces or writes before |
| `BazelRewrite.StaleChecksumStays` | factory-harness/.github/scripts/rusty_v8_module_bazel.py:179-196 | A text where it does report: a checksum that is not hexadecimal before the path |
| `BazelRewrite.SecondUpdate` | factory-harness/.github/scripts/rusty_v8_module_bazel.py:179-217 | A second update succeeds; it changes nothing exactly when every block has a hexadecimal checksum or no blank line behind its path line; after it the text stays |
| `BazelRewrite.BlankLineGoesSecond` | factory-harness/.github/scripts/rusty_v8_module_bazel.py:180-196 | A text the second update does change: a blank line behind the path line |
| `BazelRewrite.OutsideUnchanged` | factory-harness/.github/scripts/rusty_v8_module_bazel.py:179-217 | Outside the version's blocks the text is unchanged; inside them the name, the path and the closing line are, and every line that is not blank stays, in order, but for one checksum line put in or replaced |
| `BazelRewrite.ReadAgain` | factory-harness/.github/scripts/rusty_v8_module_bazel.py:72-96 | The rewritten text is cut into blocks at the same places |
| `BazelModule.ParsedIsWellCut` | factory-harness/.github/scripts/rusty_v8_module_bazel.py:11-11 | Cutting a text into blocks and outside lines loses nothing |
| `BazelModule.WellCutIsParsed` | factory-harness/.github/scripts/rusty_v8_module_bazel.py:11-11 | Blocks and lines put together are cut again into the same |
| `BazelTool.UpdateText` | factory-harness/.github/scripts/rusty_v8_module_bazel.py:199-217 | The update succeeds exactly when every block of the version has a path and a place for the checksum and the entry set matches the manifest; the text is that with every such block rewritten. Otherwise it says which of the three is wrong, and for the entry set exactly which files are duplicate, unlisted or missing |
| `BazelTool.CheckText` | factory-harness/.github/scripts/rusty_v8_module_bazel.py:166-176 | The checker passes exactly the current texts. It reports a missing path exactly when there is one, and else the drift: exactly the duplicate, unlisted and missing files, and one error for each stale block, in order, with its name, its checksum and the one expected |
| `BazelTool.HttpFiles` | factory-harness/.github/scripts/rusty_v8_module_bazel.py:72-96 | The scan fails exactly when a block of the version has no path, and else finds exactly the blocks whose name begins with the prefix, in order, with their places and fields |
| `BazelTool.EntrySetErrors` | factory-harness/.github/scripts/rusty_v8_module_bazel.py:111-138 | The collector's loop gathers the duplicate, unlisted and missing files |
| `BazelTool.EntryErrorsMean` | factory-harness/.github/scripts/rusty_v8_module_bazel.py:121-136 | No entry-set errors exactly when blocks and manifest name the same files, each once |
| `BazelTool.EntryErrorsReport` | factory-harness/.github/scripts/rusty_v8_module_bazel.py:111-138 | Which entry-set errors there are, each as an if-and-only-if over the entries; an unlisted file is reported under its last entry's name |
| `BazelTool.ChecksumErrors` | factory-harness/.github/scripts/rusty_v8_module_bazel.py:141-157 | The loop gathers missing and differing checksums in order |
| `BazelTool.ShaErrorsReport` | factory-harness/.github/scripts/rusty_v8_module_bazel.py:141-157 | One error for each entry whose listed checksum differs or is missing, in order, and no other |
| `BazelTool.CleanIsRight` | factory-harness/.github/scripts/rusty_v8_module_bazel.py:141-157 | When the files agree, no checksum errors exactly when every block has the manifest's checksum |
| `BazelBlocks.ChecksumRead` | factory-harness/.github/scripts/rusty_v8_module_bazel.py:179-196 | In a rewritten block the new checksum is the one read exactly when the block was refreshable |
| `BazelBlocks.OtherFieldsKept` | factory-harness/.github/scripts/rusty_v8_module_bazel.py:179-196 | Rewriting a block keeps the name and the path read from it |
| `BazelBlocks.SecondRewriting` | factory-harness/.github/scripts/rusty_v8_module_bazel.py:179-196 | Rewriting a block again changes nothing exactly when it was settled |
| `BazelBlocks.ThirdRewriting` | factory-harness/.github/scripts/rusty_v8_module_bazel.py:179-196 | A block rewritten twice stays |
| `BazelBlocks.ShaPlaced` | factory-harness/.github/scripts/rusty_v8_module_bazel.py:179-196 | Where the checksum line goes and in which indent, and that besides it only blank lines come or go |
| `BazelLines.FieldReadsBack` | factory-harness/.github/scripts/rusty_v8_module_bazel.py:64-69 | A field line is read back with the indent and value it was given |
| `BazelLines.FieldMeans` | factory-harness/.github/scripts/rusty_v8_module_bazel.py:64-69 | Reading a field is matching its pattern: indent, name, equals sign, a quoted value without quotes, a comma, and space |
| `BazelManifest.ParseManifest` | factory-harness/.github/scripts/rusty_v8_module_bazel.py:29-61 | A manifest is read exactly when every line is blank or a checksum of 64 hexadecimal digits and a bare file name, no file twice, and there is an entry; the result records exactly the entries |
| `UnifiedDiff.PrintedIsCounted` | factory-harness/codex-rs/analytics/src/accepted_lines.rs:30-83 | Counting a printed git-style diff gives exactly its added and deleted lines and its effective added lines with their paths, in order, whatever the contents look like |
| `UnifiedDiff.CountLines` | factory-harness/codex-rs/analytics/src/accepted_lines.rs:30-83 | The parser's loop counts exactly the added and deleted lines, a line that looks like a file's name counting inside a hunk and not before one, and gathers in order the effective ones with the path they stand under |
| `UnifiedDiff.SummariesAdd` | factory-harness/codex-rs/analytics/src/accepted_lines.rs:39-44 | Results add up over concatenation at a `diff --git ` line |
| `UnifiedDiff.StartsAfresh` | factory-harness/codex-rs/analytics/src/accepted_lines.rs:40-44 | A `diff --git ` line makes the parser forget what came before |
| `UnifiedDiff.PathReadsBack` | factory-harness/codex-rs/analytics/src/accepted_lines.rs:143-155 | A path printed behind `b/` is read back, less whitespace at its end |
| `UnifiedDiff.PathMeans` | factory-harness/codex-rs/analytics/src/accepted_lines.rs:143-155 | What any text is read as: what stands between its whitespace, less one `b/` or `a/`, and nothing for `/dev/null` |
| `UnifiedDiff.NormalizedIsStable` | factory-harness/codex-rs/analytics/src/accepted_lines.rs:157-169 | Normalising a line is idempotent and depends only on its words |
| `UnifiedDiff.NormalizeMeans` | factory-harness/codex-rs/analytics/src/accepted_lines.rs:157-169 | A line's normal form is the one text with its words and only single spaces between them, and there is one exactly when it has more than three bytes and a letter, digit or underscore |
| `Words.JoinedSplits` | factory-harness/codex-rs/analytics/src/accepted_lines.rs:158-158 | Words joined by single spaces are split back into the same words |
| `AnalyticsQueue.IngestedInOrder` | factory-harness/codex-rs/analytics/src/client.rs:133-167 | In every run facts are ingested in the order the channel took them, none twice and none skipped; all of them once the worker is idle at an empty channel |
| `AnalyticsQueue.FlushIsBarrier` | factory-harness/codex-rs/analytics/src/client.rs:138-149 | The worker has answered exactly the flushes it is past, and an answered flush implies that every fact taken before it was ingested and every request they call for was made |
| `AnalyticsQueue.SentIsWhatFactsGive` | factory-harness/codex-rs/analytics/src/client.rs:603-650 | The requests made, put together, are the events of the ingested facts in order; none is empty and isolated events go alone |
| `AnalyticsQueue.EveryRunSound` | factory-harness/codex-rs/analytics/src/client.rs:133-167 | Every state of every run: first in, first out, at most 256 waiting, what was sent and is to be sent is what the ingested facts call for |
| `AnalyticsQueue.StepKeeps` | factory-harness/codex-rs/analytics/src/client.rs:135-167 | Every step of a caller or of the worker keeps that |
| `AnalyticsQueue.SendMeans` | factory-harness/codex-rs/analytics/src/client.rs:157-167 | A fact is taken exactly when fewer than 256 messages wait and no slot is kept, else dropped; a flush waits for room |
| `AnalyticsWorker.Worker.Run` | factory-harness/codex-rs/analytics/src/client.rs:138-149 | The worker's loop over received messages: all facts ingested in order, each flush answered after exactly the requests of the facts before it, and what the loop does is one run of the queue's step machine |
| `AnalyticsWorker.LoopIsAnInterleaving` | factory-harness/codex-rs/analytics/src/client.rs:133-167 | For every sequence of messages and sign-ins, some interleaving of the queue's steps ends exactly where the loop does |
| `AnalyticsWorker.EveryInterleavingIsTheLoop` | factory-harness/codex-rs/analytics/src/client.rs:133-167 | Conversely, in every interleaving a worker between messages has ingested, sent and answered exactly what the loop makes of the messages it has received |
| `AnalyticsWorker.Worker.Handle` | factory-harness/codex-rs/analytics/src/client.rs:146-148 | A fact is reduced and all its requests are made before the next message |
| `AnalyticsWorker.TrackEvents` | factory-harness/codex-rs/analytics/src/client.rs:603-627 | The requests for a fact's events, put together, are exactly the events that may go out under the sign-in, in order, batched |
| `AnalyticsBatches.BatchEvents` | factory-harness/codex-rs/analytics/src/client.rs:629-650 | The batches concatenate to the events in order, isolated events alone, none empty, no run split |
| `AnalyticsBatches.BatchingIsUnique` | factory-harness/codex-rs/analytics/src/client.rs:629-650 | Only one batching has these properties |
| `AnalyticsDedupe.SuppressedMeans` | factory-harness/codex-rs/analytics/src/client.rs:169-208 | A call is suppressed exactly when an earlier call with the same turn and id was admitted and nothing cleared the set since; so each key is admitted once between clearings and a call without an id always |
| `AnalyticsDedupe.NeverAboveLimit` | factory-harness/codex-rs/analytics/src/client.rs:181-184 | The set never exceeds 4096 keys |
| `AnalyticsDedupe.ResetMeans` | factory-harness/codex-rs/analytics/src/client.rs:177-196 | A set is cleared exactly when it holds 4096 keys, by the next plugin call or the next app call with an id |
| `AnalyticsDedupe.FirstCallsMean` | factory-harness/codex-rs/analytics/src/client.rs:169-208 | Among the first 4096 calls one is suppressed exactly when an earlier one had the same turn and id |
| `AnalyticsDedupe.EmittedKeys.ShouldEnqueue` | factory-harness/codex-rs/analytics/src/client.rs:169-208 | Both variants answer as the history of calls determines, differing in whether a call without an id clears a full set |
| `VersionTag.NormalFormIsStable` | factory-harness/sdk/python/release_version.py:45-82 | For every accepted version text, normalising the normal form or the release tag gives the normal form |
| `VersionTag.SameTagSameNormalForm` | factory-harness/sdk/python/release_version.py:45-82 | Two accepted versions share a tag exactly when they normalise alike |
| `VersionTag.ReleaseReads` | factory-harness/sdk/python/release_version.py:49-78 | The substitutions bring every release version back to the normal form it was printed from |
| `VersionTag.NormalIsLeft` | factory-harness/sdk/python/release_version.py:75-78 | The substitutions leave a normal form alone |
| `VersionTag.PrintReads` | factory-harness/sdk/python/release_version.py:10-12 | A normal form is read as the version it spells |
| `VersionTag.ReadIsPrinted` | factory-harness/sdk/python/release_version.py:80-82 | A text is read only if it is a version's normal form |
| `VersionTag.StageSpelled` | factory-harness/sdk/python/release_version.py:49-78 | A pre-release spelled by letters, by name with a dot, or by name without: one normal form and one tag, letter by letter |
| `VersionTag.HotfixSpelled` | factory-harness/sdk/python/release_version.py:49-75 | An alpha's second number is its post-release, and back in the tag |
| `VersionTag.PostSpelled` | factory-harness/sdk/python/release_version.py:49-82 | Other post-releases are spelled alike in the normal form and the tag |
| `VersionTag.NumbersSpelled` | factory-harness/sdk/python/release_version.py:45-82 | Dotted numbers are their own normal form, and their tag is `rust-v` and they |
| `VersionTag.PrefixIrrelevant` | factory-harness/sdk/python/release_version.py:69-73 | A `rust-v` or `v` prefix and whitespace in front change nothing |
| `WrapperArgs.StableExactly` | factory-harness/tools/argument-comment-lint/wrapper_common.py:55-122 | For every argv and manifest path, reading and building is idempotent exactly when the path is not `--` or the user gave one |
| `WrapperArgs.FinalIsStable` | factory-harness/tools/argument-comment-lint/wrapper_common.py:55-122 | Idempotence, including dangling value flags and repeated separators |
| `WrapperArgs.FinalIsComplete` | factory-harness/tools/argument-comment-lint/wrapper_common.py:107-122 | What is handed on names a manifest, skips dependencies and selects targets unless it fixes, and the user's own choices are kept |
| `WrapperArgs.SeparatorPathGrows` | factory-harness/tools/argument-comment-lint/wrapper_common.py:107-122 | With `--` as the path the arguments grow every time |
| `WrapperArgs.ParseArgs` | factory-harness/tools/argument-comment-lint/wrapper_common.py:55-104 | The loop splits at the first `--`; each flag is set exactly when some argument before it, not itself a value, chooses it, or takes the next one as a value that does; targets are selected exactly when some argument behind it selects them |
| `WrapperArgs.EffectMeans` | factory-harness/tools/argument-comment-lint/wrapper_common.py:84-102 | What each argument does, spelled out |
| `WrapperArgs.BuildSpelled` | factory-harness/tools/argument-comment-lint/wrapper_common.py:107-122 | What is handed on, argument by argument |
| `WrapperArgs.WrapArgs` | factory-harness/tools/argument-comment-lint/run.py:21-24 | What the wrapper hands on is what reading and building give; it is stable exactly when the path is not `--` or the user gave one; then it names a manifest, skips dependencies and selects targets unless it fixes. The user's lint arguments stay contiguous and the cargo arguments in order, always |
| `WrapperArgs.BuiltReads` | factory-harness/tools/argument-comment-lint/wrapper_common.py:55-122 | Built arguments are read as the added and the user's lint arguments, and the cargo arguments |
| `Canvas.Canvas.Rectangle` | benchmarks/cleanrl-gpu/scripts/render_charts.py:180-186 | Any rectangle, also negative or off the canvas: exactly the bytes of pixels inside it change, to the color |
| `Canvas.PixelDrawn` | benchmarks/cleanrl-gpu/scripts/render_charts.py:180-186 | A pixel's three bytes change exactly when the pixel lies inside the rectangle |
| `Canvas.Canvas.Text` | benchmarks/cleanrl-gpu/scripts/render_charts.py:188-196 | A text changes exactly the bytes of the lit cells of its upper-case form, to the color |
| `Canvas.InText` | benchmarks/cleanrl-gpu/scripts/render_charts.py:188-196 | The cells touched are the union over the characters of the lit bits of their glyphs |
| `Canvas.BitsMean` | benchmarks/cleanrl-gpu/scripts/render_charts.py:192-195 | The lit columns of a glyph's row, from the left, are the binary digits of its number |
| `Canvas.Canvas.constructor` | benchmarks/cleanrl-gpu/scripts/render_charts.py:177-178 | A new canvas is the background everywhere |
| `Png.FileReads` | benchmarks/cleanrl-gpu/scripts/render_charts.py:199-211 | Reading the encoded file gives the pixels back, for any checksum and any compression that is undone |
| `Png.FramedReads` | benchmarks/cleanrl-gpu/scripts/render_charts.py:204-205 | Removing the filter byte from each scanline restores the pixels |
| `Png.FrameScanlines` | benchmarks/cleanrl-gpu/scripts/render_charts.py:204-205 | The encoder's loop gives 540 lines of 2881 bytes, each a zero byte and then its pixels |
| `Png.ChunkReads` | benchmarks/cleanrl-gpu/scripts/render_charts.py:199-200 | A chunk is read back with its kind and payload, whatever follows it |
| `Png.EncodePng` | benchmarks/cleanrl-gpu/scripts/render_charts.py:203-211 | Whatever undoes the compression, a reader of the file gets the canvas's pixels back; and byte by byte the file is the signature and the chunks IHDR, IDAT and IEND with lengths and checksums |

## Left out

- Sockets, TLS, WebSocket framing, timeouts and aborting of the remote client: they are outcomes a turn or an arrival carries.
- RemoteSession.Initialize: the server version and home directory it takes from the initialize response are not modelled; the client only shows them.
- Texts of errors are kept as their wording and what they quote, not as formatted strings; payloads and results are opaque strings.
- The remote client's typed request wrappers, and a caller that stops waiting for its reply.
- Downloading assets, and the file system of the publisher: a release is its assets with their contents; what `--no-overwrite` and a read of an object's metadata do in the store is taken as documented, and nothing is deleted from it.
- The checks the collector makes on the job before it fetches, optional ids and JSON shapes: one flag of an event or record stands for them.
- ModelCollector.FetchPages: the server is one that returns the next events after the cursor; against any other it is `ModelCollector.FetchReplies` that says what the loop does.
- FactoryCollector.CollectFactory: the checks on the job record, its workspace receipt and its two timestamps, each a comparison of one field, are left out.
- Event fingerprints: kind and usage are compared directly.
- GPU samples, Kubernetes snapshots, issue and training logs, checkpoint archives, and manifest validation beyond the list of runs; of the manifest only that list and the numbers the table's checks read are kept.
- MetricsRoundTrip.MergeAndRead: numbers are exact decimals; rounding by the formatter and by floating point is not modelled, and CSV quoting is not, a row being its cells.
- BazelTool.UpdateText: a field is read only from one line, as the source's own remark on it says; a field broken across lines, which the patterns would also match, is not modelled. The version enters as the prefix made from it.
- BazelTool.HttpFiles: a field broken across lines is not read, as for `BazelTool.UpdateText`.
- BazelTool.EntrySetErrors: the errors are a set, the source sorts each kind by file; error texts are values.
- MetricsReader.ReadTable: the header and the number of cells in a row, which the CSV layer checks, are not modelled: a row is its cells by column.
- UnifiedDiff.PrintedIsCounted: paths that git quotes are printed by no file of the model; a diff arrives as its lines, and hashing of paths and lines is left off.
- The analytics reducer is an arbitrary function; HTTP, sign-in lookup and the flush timeout are not modelled, a flush that gave up being one whose answer nobody reads.
- AnalyticsDedupe.EmittedKeys.ShouldEnqueue: a plugin's id is already chosen between its local and its remote one; the lock is the atomicity of the call.
- VersionTag.NormalFormIsStable: the command line around the version functions and its narrower pattern are left out.
- WrapperArgs.StableExactly: the environment variables the wrapper sets are left out.
- Canvas.Canvas.Text: upper-casing and the font are parameters.
- The SVG chart, the layout of the charts, agent-graph-store, agent-identity, packaging and build scripts: they would add only easy members or depend on code that is not here.
