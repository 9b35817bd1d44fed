# Asynchronous protocols of the agent relay's browser clients, verified

The relay's local page and its remote (broker) page are made of small protocols: plain state,
numbered requests, and replies that come back in any order. This project models ten of them in
Dafny and proves what they keep over every run. Each `await` is split into the step that issues a
request and the step that resumes with the answer; a run is an arbitrary sequence of such steps.
Where the source mutates variables, a class with the same variables is proved, method by method,
to perform the steps the run theorems are about and to keep their invariant (`Valid`). `dafny verify dfyconfig.toml` checks everything.

| file | what it is about |
|---|---|
| `Options.dfy`, `Text.dfy` | missing values; concatenating, splitting and joining text |
| `SessionStream.dfy` | the incremental event-stream parser |
| `PinMerge.dfy` | merging tail pages and older pages into a window of a growing log |
| `ViewOnlyOps.dfy` | the read-only transcript pin: generations, older pages, live deltas |
| `Orchestrator.dfy` | the Orchestrator pane: load generations, repair latch, tail gaps |
| `WorkspaceDiff.dfy` | the workspace diff store: four counters, a count cache, two writers |
| `WatchedThreads.dfy` | the single-flight declaration of watched threads |
| `RemoteActions.dfy` | pending actions, chunk reassembly, deadlines |
| `ReplayRelay.dfy` | retry and resend against the relay's claim check and replay cache |
| `ReconnectBackoff.dfy` | jittered exponential backoff |
| `Pairing.dfy` | pairing attempts, their sockets and what they may save |

## What turned out false of the code

- An action can leave the pending table without anybody being told. `settlePendingAction` deletes
  the entry before it reads `result.ok` (frontend/remote/actions.js:928-931), so a reply that is
  the JSON value null throws with nothing left to reject, and the caller waits forever.
  `RemoteActions.SettledAtMostOnce` says exactly which removals settle, `RemoteActions.NullStrands`
  that nothing later does.
- A claim-checked action can run twice. The relay checks the session claim before it looks the
  action id up, and does not store that refusal; `ReplayRelay.AtMostOnceExactly` gives the exact
  condition and `ReplayRelay.RelayAsWrittenExactly` applies it to the relay as written.
- A streamed entry can vanish from the Orchestrator pane. Its loader merges the page into the
  entries captured before the fetch, against the comment at
  frontend/local/render-session.js:2445-2448; `Orchestrator.StreamedEntryKeptExactly` says exactly
  when the entry survives.
- A tail gap is not always clear after the second winning load past the last refused delta: applied
  deltas count as traffic too. `Orchestrator.BusyStreamKeepsGap` is the family of runs,
  `Orchestrator.RepairClearsExactly` the exact condition. The read-only pin errs the other way: a
  new load forgets what reached the pin before it (`ViewOnlyOps.GapSurvivesExactly`), and a load that
  joins a request already out clears the gap with a page asked for before the refusal
  (`ViewOnlyOps.JoinedLoadForgetsGap` is the input, `ViewOnlyOps.StaleRepairExactly` the condition).
- A merge equals its specification only if the page can be located (`PinMerge.MergeRefines`). The
  entries of the relay's pages carry no sequence number
  (crates/relay-server/src/protocol.rs:1954-1967), only streamed entries do, so a page that shares
  no entry with the pin replaces all of it: paged-in history, and entries streamed in after the
  page was built (`PinMerge.NewerKeptExactly`, `ViewOnlyOps.StreamedEntrySurvivesExactly`). With
  numbered pages it would leave a hole that nothing fetches instead
  (`PinMerge.RefreshHoleExactly`). Log order and the older cursor are safe in both cases
  (`ViewOnlyOps.PinRun`).
- Paging up does not end. For the first page of a history the relay sends no prev_cursor but a
  next_cursor, and the client takes the second for the first
  (frontend/shared/transcript-page.js:14): the cursor goes back to the end of that page and asking
  again changes nothing (`PinMerge.OldestPageRepeats`). Only a page that is the whole log would end
  it (`PinMerge.OlderCursorExactly`), and no older page ever is (`ViewOnlyOps.PagingNeverEnds`).
- Switching watched threads A, B and back to A while B is being posted leaves the relay on B until
  one more render (`WatchedThreads.SwitchBackStrandsUntilRender`; exactly when, in
  `WatchedThreads.MidFlightRenderExactly`), a render of an unchanged set mid-flight posts it twice
  (`WatchedThreads.RenderMidFlightPostsTwice`; exactly when, in `WatchedThreads.PostsTwiceExactly`
  and `WatchedThreads.RepeatedPostExactly`), and a reset during a POST is undone by its
  acknowledgement (`WatchedThreads.ResetRedeclaresExactly`).
- The longest reconnect delay can be passed by one millisecond, because the source computes in
  doubles: the draw 1 − 2^-53 waits 1501 ms after no failure (`ReconnectBackoff.LargestDrawOvershoots`).
  `ReconnectBackoff.DelayExactly` says for every failure count which draws do: that one, and up to
  five failures also 1 − 2^-52.
- The event-stream parser differs from sections 9.2.5 and 9.2.6 of the WHATWG HTML Living
  Standard in three ways, each with its exact condition. It strips all leading white space of a data
  line (`SessionStream.RoundTripExactly`). It flushes an unterminated last block, which adds an event
  exactly when that block has a data line (`SessionStream.FlushAddsExactly`). And it reads a CR LF
  pair cut by a chunk boundary as two line breaks (`SessionStream.SplitPairChangesEvents` is the
  family of inputs, `SessionStream.ChunkingExactly` the condition).
- An answer from the live session keeps the Orchestrator pane's older cursor, so the next older page
  leaves a hole unless the live transcript reaches back to that cursor
  (`Orchestrator.LiveAnswerHoleExactly`).
- Expiry alone does not stop a pairing result that is already being processed: only retirement
  does. `Pairing.ApprovalCompletes` holds whatever the clock says.

## Model

| member | source | states |
|---|---|---|
| `SessionStream.DispatchEvent` | frontend/session-stream.js:128-159 | one block's lines yield exactly the event of the block: last event field, data lines joined in order, nothing for a blank block or one without data |
| `SessionStream.DispatchBufferedEvents` | frontend/session-stream.js:113-126 | a buffer is cut at its blank lines: the events of the complete blocks in order, and the unfinished rest |
| `SessionStream.ReadStream` | frontend/session-stream.js:75-91 | the read loop dispatches, for any chunks, the events of the normalized text; for chunks that keep CR LF pairs whole, those of the text in one piece |
| `SessionStream.NormalizeAppend` | frontend/session-stream.js:114 | normalizing line breaks distributes over concatenation when no CR LF pair is cut |
| `SessionStream.BlocksAppend` | frontend/session-stream.js:113-126 | cutting what is left over together with new text gives the blocks of the whole text |
| `SessionStream.ChunkingIndependence` | frontend/session-stream.js:75-91 | two chunkings of one text that keep its CR LF pairs dispatch the same events |
| `SessionStream.SplitPairChangesEvents` | frontend/session-stream.js:75-114 | for every two data lines, cutting inside their CR LF turns one event into two |
| `SessionStream.ChunkingExactly` | frontend/session-stream.js:75-114 | the reader sees the text's own lines if and only if no chunk boundary cuts a CR LF pair |
| `SessionStream.CutPairsCounted` | frontend/session-stream.js:75-114 | every cut pair adds exactly one line break to what is read |
| `SessionStream.BlockHasEvent` | frontend/session-stream.js:128-159 | a block yields an event if and only if it has a data line |
| `SessionStream.KindIsLast` | frontend/session-stream.js:128-159 | the block's kind is what its last event line says, "message" if that is blank, wherever the line stands |
| `SessionStream.FlushAddsExactly` | frontend/session-stream.js:86-91 | the end of the stream adds the event of what is left over, and adds none if and only if that has no data line |
| `SessionStream.ReadBack` | frontend/session-stream.js:75-159 | printed messages come back in order, once each, through any chunking, without the leading white space of their lines |
| `SessionStream.RoundTripExactly` | frontend/session-stream.js:128-159 | a message comes back unchanged if and only if no data line starts with white space |
| `SessionStream.RoundTrip` | frontend/session-stream.js:75-159 | whole streams of such messages round-trip through any chunking |
| `PinMerge.ScanOverlap` | frontend/local/view-only-thread.js:331-340 | the single pass finds the first and the last held entry the page replaces |
| `PinMerge.RefreshPin` | frontend/local/view-only-thread.js:300-378 | the refresh, scan included, computes the merge the theorems are about |
| `PinMerge.MergeRefines` | frontend/local/view-only-thread.js:300-378 | on a log window the merged entries are the page, what is held beyond it, and what is held before it iff history was extended, if and only if the page can be located; the cursor and the flag follow |
| `PinMerge.MergeByIds` | frontend/local/view-only-thread.js:331-378 | with a shared entry the merge is the specification unconditionally |
| `PinMerge.MergeBySeq` | frontend/local/view-only-thread.js:342-378 | without one it is, exactly when the sequence numbers place every surviving entry |
| `PinMerge.SpecPlaces` | frontend/local/view-only-thread.js:300-378 | the specified entries are in log order, each position at most once |
| `PinMerge.PlacedAreOrdered` | frontend/local/view-only-thread.js:300-378 | entries in log order have distinct ids and strictly increasing sequence numbers |
| `PinMerge.OlderPlaces` | frontend/local/view-only-thread.js:273-292 | when the log is held from the first entry up to the end of the older page, paging up adds exactly the missing positions, in order |
| `PinMerge.MergePagesUp` | frontend/local/view-only-thread.js:273-292 | paging up keeps every held entry in place at the end, puts in front exactly the page's entries whose ids are not held, in the page's order, and takes the page's cursor |
| `PinMerge.OlderOrderExactly` | frontend/local/view-only-thread.js:273-292 | paging up keeps log order if and only if every position the page covers above the first held entry is already held |
| `PinMerge.RefreshKeeps` | frontend/local/view-only-thread.js:300-378 | a tail page that does not end before the cursor keeps the pin in log order and held up to its cursor, and loses nothing newer if it can be placed |
| `PinMerge.RefreshIsSpec` | frontend/local/view-only-thread.js:300-378 | a page that shares an entry with the pin, or is numbered like it, is merged as specified, flag and cursor included |
| `PinMerge.PageAlone` | frontend/local/view-only-thread.js:344-355 | a page without numbers that shares nothing with the pin replaces all of it |
| `PinMerge.NewerKeptExactly` | frontend/local/view-only-thread.js:328-378 | a held entry newer than a page without numbers survives it if and only if the page shares an entry with the pin |
| `PinMerge.MergeMembers` | frontend/local/view-only-thread.js:300-378 | whatever the numbering, the merged entries hold the whole page and nothing that is in neither |
| `PinMerge.OldestPageRepeats` | frontend/shared/transcript-page.js:10-19 | the first page of a history leaves the cursor at its own end, and merging it again changes nothing |
| `PinMerge.OlderCursorExactly` | frontend/shared/transcript-page.js:10-19 | an older page lowers or ends the cursor if and only if it starts above the first entry or is the whole log, and ends it only in the latter case |
| `PinMerge.OlderKeeps` | frontend/local/view-only-thread.js:273-292 | an older page requested at the cursor keeps the pin's invariant and never moves the cursor up |
| `PinMerge.RefreshHoleExactly` | frontend/local/view-only-thread.js:300-378 | one stretch of the log stays one stretch if and only if history was never paged in, the page reaches back to it, or the page carries no numbers |
| `ViewOnlyOps.GenerationSafety` | frontend/local/view-only-refresh-ops.js:40-185 | in every reachable state a loading pin has the current generation's fetch out, only that fetch writes a settled pin, and however it settles loading ends and the failure shows |
| `ViewOnlyOps.OlderOwnGeneration` | frontend/local/view-only-refresh-ops.js:241-278 | an older page merges only into the generation, thread and cursor it was requested against |
| `ViewOnlyOps.OlderReplyMeans` | frontend/local/view-only-refresh-ops.js:241-278 | over every honest run, if and only if the pin still has the generation and thread it was asked with, an older page over [x, cursor) leaves the pin at the log positions held before together with all of [x, cursor), with the page's cursor and the history mark; otherwise the pin is untouched |
| `ViewOnlyOps.OlderLoadIssuesExactly` | frontend/local/view-only-refresh-ops.js:241-256 | an older page is asked for exactly when the viewed pin has a cursor and neither a tail load nor another older page is out, at that cursor and generation |
| `ViewOnlyOps.LoadIssues` | frontend/local/view-only-refresh-ops.js:40-91 | a load of a thread that cannot be viewed drops the pin and asks nothing; any other leaves a loading pin of a new generation with the entries held of that same thread, and a tail request out |
| `ViewOnlyOps.DeltaReaches` | frontend/local/view-only-thread.js:79-134 | an applied delta is in the entries and no other entry changes; a refused one changes no entry and raises the gap |
| `ViewOnlyOps.WorkingSettlement` | frontend/local/view-only-thread.js:46-66 | after a load an idle thread loses its working mark if and only if the load was the turn's last and no delta came meanwhile; a working one keeps it |
| `ViewOnlyOps.FailureKeepsEntries` | frontend/local/view-only-refresh-ops.js:144-185 | a failed or mismatched load keeps every entry |
| `ViewOnlyOps.GapSurvivesExactly` | frontend/local/view-only-refresh-ops.js:60-143 | a raised gap survives the next load to settle if and only if a delta reached the pin after that load was issued, over every run in between |
| `ViewOnlyOps.JoinedLoadForgetsGap` | frontend/shared/thread-queries.js:104-130 | a load that joins a request already out clears the gap although its page was asked for before the refusal |
| `ViewOnlyOps.JoinsEarlierExactly` | frontend/shared/thread-queries.js:104-130 | after any run a load joins a request sent before it if and only if one of its thread was out and nothing answered or evicted it |
| `ViewOnlyOps.StaleRepairExactly` | frontend/local/view-only-refresh-ops.js:40-143 | over any events between refusal, load and reply: the page was asked for before the refusal if and only if the thread's request was out and stayed out until the load, and it clears the gap if and only if no delta came after the load |
| `ViewOnlyOps.RunDisciplined` | frontend/local/view-only-refresh-ops.js:40-278 | every run of loads, replies, releases, older pages and deltas keeps the generation discipline |
| `ViewOnlyOps.PinRun` | frontend/local/view-only-refresh-ops.js:40-278 | over every run against a growing log, with tail requests shared between loads and other readers, answered late or evicted, the entries stay strictly ordered and distinct, the log is held from the first entry up to the older cursor, and the cursor stays below the log's length |
| `ViewOnlyOps.PagingNeverEnds` | frontend/local/view-only-refresh-ops.js:241-278 | over every run an older page leaves a cursor behind, the one it was asked with or a lower one |
| `ViewOnlyOps.StreamedEntrySurvivesExactly` | frontend/local/view-only-refresh-ops.js:17-23 | an entry streamed in during a tail load and newer than its page survives if and only if the page shares an entry with the live pin or pages are numbered |
| `ViewOnlyOps.RefreshOps.LoadViewOnlyTranscript` | frontend/local/view-only-refresh-ops.js:40-91 | the issuing half bumps the generation and marks the pin loading with its entries kept |
| `ViewOnlyOps.RefreshOps.TailLoadSettled` | frontend/local/view-only-refresh-ops.js:91-185 | the resuming half is the reply step, and keeps the discipline |
| `ViewOnlyOps.RefreshOps.Settle` | frontend/local/pin-page.js:27-61 | the settled pin: page normalized, merged into the live pin, or the failure with the entries kept |
| `ViewOnlyOps.RefreshOps.LoadOlder` | frontend/local/view-only-refresh-ops.js:241-256 | at most one older page is asked for, at the pin's own cursor and generation |
| `ViewOnlyOps.RefreshOps.OlderLoadSettled` | frontend/local/view-only-refresh-ops.js:256-278 | if and only if the pin still has the generation and thread the page was asked with, its entries become the page's missing ones followed by what was held, with the page's cursor and the history mark; otherwise the pin stays; the flag is released and the discipline kept |
| `Orchestrator.LatchNeverStranded` | frontend/local/orchestrator-transcript-refresh.js:112-146 | in every reachable state loading or repairing has the newest load's fetch behind it; the newest load's end releases both on every path; a superseded end changes nothing |
| `Orchestrator.GapNotForgotten` | frontend/local/orchestrator-transcript-refresh.js:134-146 | the gap flag a refused delta raises stays raised until a load begun after it wins |
| `Orchestrator.RepairClearsExactly` | frontend/local/orchestrator-transcript-refresh.js:134-146 | a repair, begun idle or over another load and superseded any number of times, clears the gap if and only if no delta of either kind arrived since the pane began loading |
| `Orchestrator.GapCleared` | frontend/local/orchestrator-transcript-refresh.js:112-146 | once deltas stop, the gap is clear by the second winning load and stays clear |
| `Orchestrator.BusyStreamKeepsGap` | frontend/local/session/stream.js:338-374 | with one applied delta per load the gap outlives any number of winning loads |
| `Orchestrator.GapIsActedOn` | frontend/local/orchestrator-transcript-refresh.js:20-64 | in every reachable state a raised gap is repaired, deferred behind the history request, or already being repaired |
| `Orchestrator.DecisionExactly` | frontend/local/orchestrator-transcript-refresh.js:20-64 | a pane refreshes or defers if and only if it has an unrepaired gap or a turn has ended on it idle; it defers exactly while history loads, repairs exactly for a gap, and is terminal exactly for a turn's end; an active or absent Orchestrator does nothing |
| `Orchestrator.TurnEndIsRefetched` | frontend/local/orchestrator-transcript-refresh.js:20-64 | in every reachable state an observed working-to-idle edge on an idle pane is refetched as terminal, or deferred while history loads; a working or loading pane without a gap is left alone |
| `Orchestrator.DeltaMarkWaitsOneRender` | frontend/local/orchestrator-transcript-refresh.js:37-85 | a working mark raised only by a delta does not refresh on the first idle render and does on the second |
| `Orchestrator.RepairsNeverOverlap` | frontend/local/orchestrator-transcript-refresh.js:20-64 | from the start of a repair until a load wins, over every run in between, no render starts another |
| `Orchestrator.EventsMark` | frontend/local/orchestrator-transcript-refresh.js:112-118 | a fetching load is out under a new generation and marks a repair; either kind of delta is remembered against a load that is out |
| `Orchestrator.WorkingMarkSettles` | frontend/local/orchestrator-transcript-refresh.js:87-146 | the newest load takes the working mark off an idle thread if and only if it was the turn's last and no delta came since loading began |
| `Orchestrator.AnswerIsShown` | frontend/local/orchestrator-transcript-refresh.js:148-178 | a placeable winning page shows the specified entries of the log, cursor and history mark included; a failed or mismatched one gives the thread up and leaves the entries |
| `Orchestrator.StreamedEntryKeptExactly` | frontend/local/render-session.js:2417-2472 | an entry streamed in during a load is on screen afterwards if and only if the page's window contains it, wherever the window lies and however entries are numbered |
| `Orchestrator.LiveAnswerHoleExactly` | frontend/local/render-session.js:2429-2438 | after a live-session answer the next older page leaves one stretch of the log if and only if the live transcript reaches back to the kept cursor |
| `Orchestrator.PaneState.BeginOrchestratorLoad` | frontend/local/orchestrator-transcript-refresh.js:112-118 | the token handed out is newer than every load still out, and beginning forgets no gap |
| `Orchestrator.PaneState.ApplyLoadFinally` | frontend/local/orchestrator-transcript-refresh.js:134-146 | a superseded load changes nothing, and the newest one, its fetch no longer out, restores the latch invariant |
| `Orchestrator.PaneState.LoadOrchestratorTranscript` | frontend/local/render-session.js:2417-2441 | each way out of the loader's first half, fetching or not, is the load step and keeps the latch invariant |
| `Orchestrator.PaneState.ShowAnswer` | frontend/local/orchestrator-transcript-refresh.js:148-178 | the winning page replaces or merges the entries; a failure or mismatch gives the thread up |
| `Orchestrator.PaneState.LoadSettled` | frontend/local/render-session.js:2441-2472 | the loader's second half settles exactly its own load and shows only the newest answer |
| `Orchestrator.PaneState.ApplyDelta` | frontend/local/session/stream.js:338-374 | a taken delta replaces the entries, a refused one raises the gap, both mark a fetch in flight |
| `WorkspaceDiff.AnswersRespectIssueOrder` | frontend/local/workspace-diff.js:193-282 | in every interleaving a reply changes the workspace only if nothing was issued after it or the panel was blank; a read failure never captions a newer answer; status is not loading once the newest refresh's fetch settled |
| `WorkspaceDiff.AnswerShows` | frontend/local/workspace-diff.js:244-282 | in every reachable state the newest refresh's answer that is also the newest request shows the reply: its directory, its paths in order, each count exactly as cached, or nothing for a null; overtaken, it fills a blank only; a standing measurement shows its reply; every other answer leaves the panel |
| `WorkspaceDiff.FailureShows` | frontend/local/workspace-diff.js:244-282 | in every reachable state a failed fetch shows its message if and only if it is the newest refresh's and nothing later has answered, and never touches workspace or cache |
| `WorkspaceDiff.MeasuredCountsShow` | frontend/local/workspace-diff.js:65-127 | in every reachable state the newest measurement's reply shows its own count, or its absence, on each tree |
| `WorkspaceDiff.TreesForgottenExactly` | frontend/local/workspace-diff.js:93-104 | a tree the newest measurement does not list loses its cached count if and only if the panel listed it |
| `WorkspaceDiff.IssuesFetches` | frontend/local/workspace-diff.js:193-309 | a refresh issues one diff fetch and, with a thread, one workspace fetch that is then the newest of both kinds, claiming counts if and only if somebody measures; a measurement issued is a standing one |
| `WorkspaceDiff.DiffFollowsNewestRefresh` | frontend/local/workspace-diff.js:284-321 | a diff on screen belongs to the newest refresh's key, and after that refresh settled it is its own answer or its own error |
| `WorkspaceDiff.CountsAgree` | frontend/local/workspace-diff.js:65-127 | every count shown is the cached count of its path, asked for after the last clear |
| `WorkspaceDiff.OnlyNewestMeasurementWrites` | frontend/local/workspace-diff.js:394-432 | whatever the step, the cache changes only by a clear or by the newest-issued measurement |
| `WorkspaceDiff.PinAgreesExactly` | frontend/local/workspace-diff.js:367-391 | a pin's answer leaves counts and cache in agreement if and only if its own counts are the cached ones |
| `WorkspaceDiff.RememberStamps` | frontend/local/workspace-diff.js:71-91 | remembering touches an entry only to stamp it with the accepted number |
| `WorkspaceDiff.RememberLast` | frontend/local/workspace-diff.js:71-91 | the cache says of every measured path what its last root said |
| `WorkspaceDiff.RunInv` | frontend/local/workspace-diff.js:183-449 | every run of refreshes, root changes, switches, pins, grants, measurements, clears and replies keeps the store's invariant |
| `WorkspaceDiff.DiffStore.RememberRootCounts` | frontend/local/workspace-diff.js:71-91 | counts are accepted exactly from the newest measurement, root by root |
| `WorkspaceDiff.DiffStore.ForgetRootsMissingFrom` | frontend/local/workspace-diff.js:93-104 | exactly the listed trees the measurement lacks lose their cached count |
| `WorkspaceDiff.DiffStore.RefreshNow` | frontend/local/workspace-diff.js:284-309 | every diff fetch already out is overtaken, a diff of another key leaves the screen at once, and the invariant is kept |
| `WorkspaceDiff.DiffStore.DiffAnswered` | frontend/local/workspace-diff.js:307-321 | a reply to an older refresh changes nothing on screen, the newest refresh's ends the loading and shows, and the invariant is kept |
| `WorkspaceDiff.DiffStore.WorkspaceAnswered` | frontend/local/workspace-diff.js:244-282 | the newest refresh's answer replaces the workspace by the reply, its directory, its paths in order and the cached counts, or by none; overtaken it fills only a blank; a standing measurement's reply shows too; a failure shows its message unless a later request answered; everything else leaves the panel; the invariant is kept |
| `WorkspaceDiff.DiffStore.MeasureRoots` | frontend/local/workspace-diff.js:394-432 | issuing a measurement changes nothing on screen and overtakes every request out, in both queues; the invariant is kept |
| `WorkspaceDiff.DiffStore.ClearRootCounts` | frontend/local/workspace-diff.js:440-449 | after a clear no count is shown or cached, no count on its way will be accepted, and the invariant is kept |
| `WorkspaceDiff.DiffStore.SetViewRoot` | frontend/local/workspace-diff.js:354-365 | this thread's preview becomes the path or none, no other thread's changes, and the invariant is kept |
| `WorkspaceDiff.DiffStore.PinAnswered` | frontend/local/workspace-diff.js:367-391 | another thread's answer changes nothing, a refusal only the error, an accepted pin ends the preview and refetches; the invariant is kept |
| `WorkspaceDiff.DiffStore.TrustAnswered` | frontend/local/workspace-diff.js:335-346 | a refusal changes only the error, a grant refetches, and the invariant is kept |
| `WatchedThreads.WatchedThreadIds` | frontend/local/watched-threads.js:31-46 | the ids declared are exactly the wanted set, sorted and distinct |
| `WatchedThreads.CanonicalUnique` | frontend/local/watched-threads.js:31-46 | a sorted list is determined by its set |
| `WatchedThreads.KeyNamesSet` | frontend/local/watched-threads.js:97-101 | keys of space-free ids are equal exactly when the sets are |
| `WatchedThreads.SpacedIdCollides` | frontend/local/watched-threads.js:97-101 | an id with a space collides with two ids |
| `WatchedThreads.RunKeepsInv` | frontend/local/watched-threads.js:61-134 | every run keeps: one POST in flight at most, and a cached key that names the acknowledged set |
| `WatchedThreads.FailureRetries` | frontend/local/watched-threads.js:123-133 | after a failed POST key, queue and flight are forgotten, and the very next render of any set posts it |
| `WatchedThreads.CachedKeyIsAcknowledged` | frontend/local/watched-threads.js:88-134 | in every reachable state a render is suppressed exactly when what it wants is what the relay acknowledged last |
| `WatchedThreads.Converges` | frontend/local/watched-threads.js:88-134 | once targets stop changing and posts succeed, one render after the flight settles makes acknowledged equal wanted, with at most two POSTs, one if nothing renders meanwhile |
| `WatchedThreads.DeclaredIsQuiet` | frontend/local/watched-threads.js:99-101 | from then on renders post nothing |
| `WatchedThreads.SwitchBackStrandsUntilRender` | frontend/local/watched-threads.js:99-108 | A, B, A while B is out leaves the relay on B |
| `WatchedThreads.MidFlightRenderExactly` | frontend/local/watched-threads.js:99-122 | a render made in flight is what the relay ends on if and only if its key is not the cached one or it is what the flight ends on anyway |
| `WatchedThreads.RenderMidFlightPostsTwice` | frontend/local/watched-threads.js:102-122 | the bound of two POSTs is reached |
| `WatchedThreads.PostsTwiceExactly` | frontend/local/watched-threads.js:102-122 | a settling run posts its set twice if and only if it renders again before the first answer |
| `WatchedThreads.RepeatedPostExactly` | frontend/local/watched-threads.js:102-122 | whatever renders in flight, the answered set is posted again if and only if it was the last render the cache did not suppress |
| `WatchedThreads.ResetRedeclaresExactly` | frontend/local/watched-threads.js:113-137 | a reset makes the next render declare anew if and only if nothing was out or the render wants another set than the flight ended on |
| `WatchedThreads.Declarer.SyncWatchedThreads` | frontend/local/watched-threads.js:88-113 | a render is suppressed, queued as the latest target, or posted |
| `WatchedThreads.Declarer.PostAnswered` | frontend/local/watched-threads.js:113-122 | an acknowledged POST caches its key and the loop delivers the pending target |
| `WatchedThreads.Declarer.PostRefused` | frontend/local/watched-threads.js:123-133 | a failed POST ends the flight and forgets the key and what was queued; what the relay acknowledged stays |
| `WatchedThreads.Declarer.ResetDeclaration` | frontend/local/watched-threads.js:135-137 | a reset forgets the key and nothing else |
| `RemoteActions.SettledAtMostOnce` | frontend/remote/actions.js:614-633 | over every run an action is settled at most once, is pending exactly while registered and neither settled nor dropped, holds chunks only meanwhile, and on leaving the table is settled if and only if what removed it was not a null reply |
| `RemoteActions.RepliesTell` | frontend/remote/actions.js:467-600 | in every reachable table a reply to a pending action, whole or completed by its last chunk, leaves it resolved with the result if and only if the result is ok and otherwise rejected with the result's own message; an incomplete one leaves it waiting and a malformed or mismatched chunk rejects it |
| `RemoteActions.ProgressRenews` | frontend/remote/actions.js:566-585 | a chunk that fills a slot without completing the reply, and a resend, restart the deadline in full; a repeated chunk leaves it |
| `RemoteActions.RegisteredAndRejected` | frontend/remote/actions.js:898-916 | a registered action waits one full deadline, and a mass rejection tells every waiting caller its message |
| `RemoteActions.NullStrands` | frontend/remote/actions.js:918-937 | an action a null reply removed is never settled, whatever happens afterwards |
| `RemoteActions.RunInv` | frontend/remote/actions.js:281-937 | every legal run keeps the table's invariant, received counts included |
| `RemoteActions.Reassembly` | frontend/remote/actions.js:530-612 | for every split into at most 2^32 − 1 slices, every arrival order with repeats and anything other actions, timers and resends do meanwhile, the action leaves the table exactly when all indices have arrived, once, with the slices concatenated in index order; until then slots and count are what arrived |
| `RemoteActions.OversizedReplyIgnored` | frontend/remote/actions.js:546-554 | a reply announced in more slices changes nothing: making room for it throws before anything is stored |
| `RemoteActions.StallBound` | frontend/remote/actions.js:884-916 | without resend or suspension a pending action is never older than 15000·max(1, n) ms |
| `RemoteActions.OnlyProgressRenews` | frontend/remote/actions.js:566-585 | only a chunk that fills a new slot renews a deadline |
| `RemoteActions.Reassemble` | frontend/remote/actions.js:602-612 | the concatenation loop gives the slots in order |
| `RemoteActions.ActionTable.RegisterPendingAction` | frontend/remote/actions.js:898-916 | a fresh id becomes pending, unsettled and without chunks, and both maps stay tied to the table of the run theorems |
| `RemoteActions.ActionTable.SettlePendingAction` | frontend/remote/actions.js:918-937 | entry and chunks go; a waiting caller is resolved with the result if and only if the result is ok, rejected with the result's own message if not, and told nothing by a null |
| `RemoteActions.ActionTable.RejectPendingAction` | frontend/remote/actions.js:621-633 | entry and chunks go; the caller is answered if and only if it was waiting |
| `RemoteActions.ActionTable.ExtendPendingActionDeadline` | frontend/remote/actions.js:884-896 | no entry comes or goes, no other deadline moves, and the maps stay tied to the table |
| `RemoteActions.ActionTable.HandleChunk` | frontend/remote/actions.js:530-600 | the chunk that completes the reply tells the caller what the reassembled text says: resolved with an ok result, rejected with a failed one's message; an incomplete one tells nothing; the maps stay tied to the table |
| `RemoteActions.ActionTable.RejectPendingActions` | frontend/remote/actions.js:281-292 | the loop rejects every pending action once and empties both maps |
| `RemoteActions.ActionTable.SuspendPendingActionDeadlines` | frontend/remote/actions.js:852-866 | no pending action keeps a deadline and nothing else changes |
| `ReplayRelay.SafeIsEnough` | crates/relay-server/src/state/relay.rs:5323-5420 | with nothing evicted, and either no expiry or lookup first and stored refusals, a call executes at most once in every run |
| `ReplayRelay.EvictionRunsTwice` | crates/relay-server/src/state/relay.rs:5323-5420 | an evicted entry lets a resent copy run again |
| `ReplayRelay.EarlyClaimCheckRunsTwice` | crates/relay-server/src/broker/remote_actions.rs:757-797 | a claim check before the lookup lets the retry run an action that already ran |
| `ReplayRelay.ForgottenRefusalRunsTwice` | frontend/remote/actions.js:868-881 | an unstored refusal lets the resend loop run the refused id after its retry ran |
| `ReplayRelay.AtMostOnceExactly` | crates/relay-server/src/broker/remote_actions.rs:757-862 | at most once in every run, if and only if nothing is evicted and either no claim expires or ids are looked up first and refusals stored |
| `ReplayRelay.RelayAsWrittenExactly` | crates/relay-server/src/broker/remote_actions.rs:983-1015 | the relay as written executes at most once if and only if no claim expires and nothing is evicted |
| `ReplayRelay.DeliveryAnswers` | crates/relay-server/src/broker/remote_actions.rs:757-862 | a frame of a known id never executes: finished it is answered with what is stored, running with nothing yet; an unknown id executes once under a valid claim and is refused under an expired one, stored exactly by a relay that stores refusals |
| `ReplayRelay.ReplyHeard` | frontend/remote/actions.js:207-243 | the first attempt's claim refusal sends the call to reclaim, every other answer it waits for finishes it, and a reply nobody waits for does nothing |
| `ReplayRelay.CallCompletes` | frontend/remote/actions.js:207-243 | an undisturbed call executes once and finishes with its answer stored |
| `ReconnectBackoff.DelayExactly` | frontend/remote/broker-client.js:102-112 | in doubles, for every draw, the delay after f failures lies in [min(750·2^f, 30000), min(1500·2^f, 60000) + 1], and is the extra millisecond if and only if the draw is 1 − 2^-53, or at least 1 − 2^-52 with f ≤ 5 |
| `ReconnectBackoff.DelayFollowsDraw` | frontend/remote/broker-client.js:102-112 | for every draw and failure count the delay is the exact jittered value rounded down, or one millisecond more |
| `ReconnectBackoff.LargestDrawOvershoots` | frontend/remote/broker-client.js:102-112 | the largest draw waits 1501 ms after no failure |
| `ReconnectBackoff.RoundMonotone` | frontend/remote/broker-client.js:111 | rounding to the nearest double, ties to even, is monotone |
| `ReconnectBackoff.DelayBoundsReached` | frontend/remote/broker-client.js:102-112 | the intended shortest and longest delay are both reached, the latter by the last draw that does not overshoot |
| `ReconnectBackoff.LosingStreakWait` | frontend/remote/broker-client.js:78-112 | in doubles, n ≥ 6 reconnects on one selection with no stable session wait at least 47250 + 30000·(n − 6) ms |
| `ReconnectBackoff.StreakWaits` | frontend/remote/broker-client.js:769-782 | a losing streak waits at least the sum of the shortest delays from its starting failure count |
| `ReconnectBackoff.ClosedFormTotal` | frontend/remote/broker-client.js:102-112 | that sum in closed form |
| `ReconnectBackoff.StreakEnds` | frontend/remote/broker-client.js:78-100 | a stable session or another selection ends the streak |
| `ReconnectBackoff.Backoff.NextDelayMs` | frontend/remote/broker-client.js:102-112 | the delay is in bounds, over the intended longest exactly for the largest draws, and the failure is counted |
| `ReconnectBackoff.Backoff.NoteClosedSocketDuration` | frontend/remote/broker-client.js:93-100 | after a session of a minute every next delay is the first rung, and a shorter one changes nothing |
| `ReconnectBackoff.Backoff.NoteConnect` | frontend/remote/broker-client.js:227-233 | after a chosen connect every next delay is the first rung, and a reconnect on the same selection forgives nothing |
| `Pairing.SavedByItsOwnTicket` | frontend/remote/pairing.js:222-374 | every profile ever saved has the broker and room of its attempt's ticket and credentials that ticket's secret opened; its attempt was never retired and saved no other |
| `Pairing.PublishedInItsOwnRoom` | frontend/remote/pairing.js:162-220 | every request went under its own ticket's secret into its own ticket's room, and every socket a retirement closed was opened for the retired attempt |
| `Pairing.PublishesExactly` | frontend/remote/pairing.js:162-220 | in every reachable state a request's final answer publishes if and only if attempt, socket and ticket are still its own and the ticket is live, and then that attempt's id, pairing id, secret and room |
| `Pairing.WelcomePublishes` | frontend/remote/pairing.js:162-220 | a supported welcome on the active attempt's own socket, answered twice with nothing in between, publishes exactly one request, the attempt's own |
| `Pairing.EndedForGood` | frontend/remote/broker-client.js:171-225 | an attempt that is superseded, retired or done never publishes, saves or closes anything again and never revives |
| `Pairing.SeatIsCurrent` | frontend/remote/broker-client.js:218-225 | an open pairing socket always belongs to the current un-retired attempt |
| `Pairing.RetireClosesExactly` | frontend/remote/broker-client.js:171-193 | retiring closes the live socket if and only if it is the retired attempt's own |
| `Pairing.AnswerMovesOn` | frontend/remote/pairing.js:256-362 | each answered await of an approved result completes the pairing or moves to a later await, throw or not |
| `Pairing.ApprovalCompletes` | frontend/remote/pairing.js:222-362 | an approved result nothing interrupts is adopted, the ticket cleared and the socket kept as a device socket of the same room |
| `Pairing.ResultTakenUpExactly` | frontend/remote/pairing.js:222-256 | a pairing result is taken up if and only if an attempt is active and the result names its pairing and this peer |
| `Pairing.HandshakeCompletes` | frontend/remote/pairing.js:222-362 | an approval arriving for the active attempt is adopted, whatever its side requests answer, if nothing comes in between |
| `Pairing.RejectionRetires` | frontend/remote/pairing.js:222-290 | a refused or incomplete result ends its attempt with an error and its socket; an undecryptable one changes nothing |
| `Pairing.AwaitOrderExactly` | frontend/remote/pairing.js:256-362 | which await follows which, for every bundle and every answer |
| `Pairing.ClientSavedExactly` | frontend/remote/pairing.js:290-362 | the client is saved beside the profile if and only if its session was granted |
| `Pairing.RunInv` | frontend/remote/pairing.js:101-374 | every run of scans, frames, clock changes, connects, closes, switches and suspended calls keeps the invariant |
| `Pairing.ScanClosesExactly` | frontend/remote/broker-client.js:184-193 | a scan leaves the live socket open if and only if it is a device's and the scanned code has expired |
| `Pairing.ScanMeans` | frontend/remote/pairing.js:101-160 | a scan leaves a new attempt with its own ticket, connecting in the ticket's room, or retired with its error if the code has expired |
| `Pairing.ConnectOpensExactly` | frontend/remote/broker-client.js:257-301 | a connect opens a socket if and only if an attempt is active or the selected device's ticket is usable, to that attempt's or that device's room; an expired attempt is retired first |
| `Pairing.FrameRetiresExactly` | frontend/remote/broker-client.js:616-693 | a frame on a pairing socket ends the attempt if and only if the ticket has expired or the frame is a terminal problem |
| `Pairing.IdentityMoves` | frontend/remote/pairing.js:376-404 | which of profile, ticket and socket forgetting, leaving, switching and closing drop; none retires the attempt |
| `Pairing.PairingClient.BeginPairing` | frontend/remote/pairing.js:101-160 | every earlier attempt is over, the scan itself publishes and saves nothing, a live socket stays open only as `Pairing.ScanClosesExactly` says, and the invariant is kept |
| `Pairing.PairingClient.RetirePairing` | frontend/remote/broker-client.js:171-193 | a later attempt is left alone, the live socket closes if and only if it was opened for this one, and a live attempt's retirement keeps the invariant |
| `Pairing.PairingClient.PromoteConnectionToDevice` | frontend/remote/broker-client.js:204-211 | the live socket stays open, in its room, and stops being a pairing socket |
| `Pairing.PairingClient.ReleaseSupersededPairingSocket` | frontend/remote/broker-client.js:218-225 | no live socket of another attempt is left, and any other socket is untouched |
| `Pairing.PairingClient.ConnectBroker` | frontend/remote/broker-client.js:257-301 | a socket it opens is the active attempt's in its ticket's room or the selected device's, only the current attempt acts, and the invariant is kept |
| `Pairing.PairingClient.HandleSocketMessage` | frontend/remote/broker-client.js:616-693 | whatever a frame says only the current attempt acts, a device session survives every frame but an unsupported welcome, and the invariant is kept |
| `Pairing.PairingClient.PairingRequestContinues` | frontend/remote/pairing.js:162-220 | the final answer publishes one request, with the attempt's id, pairing id, secret and room, if and only if attempt, socket and ticket are still its own and the ticket is live; otherwise nothing; the invariant is kept |
| `Pairing.PairingClient.PairingResultContinues` | frontend/remote/pairing.js:222-374 | an attempt that ended saves nothing, a profile is selected only together with the end of its own attempt's ticket, and the invariant is kept |

## Left out

- React components, DOM wiring, dialogs, labels, badges, banners, preferences, service worker and push: user interface or one-branch claims.
- Encryption, signatures and key storage: `decrypt` and `parse` are arbitrary functions; JSON text, HTTP, cookies, WebSocket transport and browser storage are arbitrary replies.
- The rest of the Rust relay and broker, and device join-ticket refresh, whose ownership check rests on browser cookies.
- Liveness of `claim_challenge` actions after a relay departure: suspension clears their timer and a resend skips them.
- SessionStream.ReadStream: the decoder's flushed remainder is taken to hold no line break (it is at most a replacement character), and closing the stream in the middle of a read is not modelled.
- PinMerge: a null page is not a page here, since the only caller normalizes it away first; a page's cursor is the log index the relay builds it from (crates/relay-server/src/protocol.rs:3511-3530, crates/relay-server/src/protocol.rs:3660-3735); every log entry has an item id.
- PinMerge.RefreshKeeps: pages are numbered throughout or not at all, since a half-numbered page would drop entries between the first held one and the cursor; `PinMerge.MergeRefines` says exactly what such a page does.
- ViewOnlyOps: how a delta is spliced is reduced to appending the newest entry, editing one (and numbering it), or a refusal; pin metadata other than the flags shown is omitted; when `maybeRefreshViewOnly` chooses to load is left to arbitrary events, which covers every choice.
- ViewOnlyOps.PagingNeverEnds: an older page served from an earlier session's disk cache is taken to have been asked for in this run.
- Orchestrator: which request a load joins is not part of the pane's model, so a repair that joins one sent before the refusal counts as a repair (`ViewOnlyOps.JoinsEarlierExactly` says when that happens); the older-page load's guards, which are the read-only pin's, are not modelled a second time, and no run invariant of the pane's entries is stated; the deferral latch's timer is an arbitrary event.
- WorkspaceDiff.CountsAgree: assumes that a pin's response carries no counts, which is what the relay sends (crates/relay-server/src/state/app/mod.rs:1706-1718); `WorkspaceDiff.PinAgreesExactly` says what happens otherwise.
- WorkspaceDiff: the echoed view root, the pinning flag, tabs, the review slice and listeners that call back into the store.
- WatchedThreads: the device id is only present or absent, and surface ids are not modelled.
- RemoteActions: the side effects of a result on the session; the fallback text of a failed result that carries no error message; timers fire when due; action ids are fresh.
- RemoteActions.StallBound: needs no resend and no suspension, which restart or stop the deadline by design.
- ReplayRelay: expiry and capacity of cache entries are arbitrary evictions; the error for an id reused with another action kind is omitted; an execution's own error is never a claim error.
- ReconnectBackoff.DelayExactly: draws are multiples of 2^-53, which every double from 1/2 up is; an engine may draw finer ones near 0.
- ReconnectBackoff: the check that the browser window is still the same one.
- Pairing: the refresh mode (cookie or token) and labels in a saved profile, aborting an earlier attempt's session request, the claim after pairing, and addresses that fail to parse (an arbitrary failure to open); a ticket's expiry is a number or absent.
