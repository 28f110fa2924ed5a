# Commands, workers and watchers: a verified model

The system routes agents' commands to a pool of workers and streams their output to people
watching. This project models five of its parts and proves what each promises, then joins
them into one statement about what a watcher sees.

**Requests and results.** A hub keeps one connection to each worker, pins agents to workers
and matches results to waiting callers by id. `Calls` is the protocol as a step machine: each
critical section, frame, and channel operation is one step, deliveries and drops are two or
more, and callers, readers and handlers interleave freely over any number of connections.
`CallsOnce` proves that each call is told at most once and nobody is left waiting;
`CallsWire` that nothing is made up, changed or reordered on a connection;
`CallsPerformed` that no request is performed twice; `CallsMatch` that a successful call holds
its own result, and `CallsReconnect` exactly when that survives a reconnect; `CallsCancel` what
a cancel stops, and `CallsMissed` exactly when that does. `CallsRuns` has pieces that runs are
put together from. `CriticalSections` has the objects
themselves, each method proved to do the machine's steps. `Routing` is the pool: placement,
reclaiming and dropping.

**The stream.** `Ring` (module `Retention`) retains the end of a sandbox's event log,
`Broadcaster` (module `Broadcasting`) fans events out and cuts off watchers that fall behind,
and `Resume` (module `Resuming`) runs them against a page that disconnects and comes back;
`Serving` proves that the broadcaster object does that system's steps.
The full log is kept as ghost state, and every result is about it.

**Bytes.** `Utf8` cuts bytes at character boundaries, `CappedBuffer` (module `CappedOutput`)
keeps output up to a limit, `Pump` (module `Pumping`) turns reads into chunks, and `Exec` runs
any number of commands, each with two pumps, beside operators stopping them; `ExecTold` sets
what watchers are told against the actions of a run, and `Running` has the object that keeps
track of what can be stopped. `Screen` is what
the page draws and `Ansi` what it takes out first. `Transport` is the encoding on the way, and
`Pipeline` joins bytes, log, resume and page; `Witness` is a run it applies to.

**User ids.** `Uids` allocates one per agent with directory ownership as the register, over
runs with restarts and failures; `Handover` gives a directory tree away from the leaves up, on
the same volume.

**Text.** `Paths` is the lexical layer of path resolution, `CommandLine` renders an argument
vector, and `Limits` is the 64-bit arithmetic that sizes a link.

Some promises hold less widely than one might hope, and for each the project proves exactly
where it holds and gives a run or an input where it does not:

- Results are correlated across a reconnect if and only if no earlier handler still has an
  answer to give (`CallsReconnect.ReconnectExactly`, `CallsMissed.AnswerMixedUp`).
- Cancels stop what they name across a reconnect if and only if every earlier handler is gone
  (`CallsMissed.CancelsExactly`, `CallsMissed.SettledMissesCancel`).
- The page shows output byte for byte if and only if it is well-formed text that has not
  scrolled off and no chunk of it holds anything the page takes out; bytes that are no text are
  replaced on the way, and escape sequences and bare carriage returns are taken out
  (`Pipeline.OutputReachesThePage`, `Pipeline.StrippedOutputShown`, `Witness.StrayByteWatched`,
  `Screen.CutShows`).
- How output was cut into chunks does not show if and only if no cut falls inside something
  the page takes out (`Screen.CutsShowExactly`, `Screen.CutShows`).
- No two agents ever share a user id if and only if the worker's own id is outside the range or
  the only one in it, which validation does not check (`Uids.NeverShared`,
  `Uids.WorkersIdShared`).
- The truncated flag, documented as reporting dropped output, is also set by an empty write to
  a full buffer (`CappedOutput.TruncatedExactly`, `CappedOutput.EmptyWriteSetsFlag`); the pump
  makes no empty writes.
- Validated limits size a link if and only if the arithmetic does not wrap
  (`Limits.SizedExactly`, `Limits.AcceptedThoughWrapping`).

Following the code, a gap marker carries no sequence number, so a connection cut right after it
gets it again (`Resuming.GapRepeats`), and `ResolvePath` accepts paths that leave the root and
come back where `relativeName` does not (`Paths.ResolversDifferExactly`).

## Model

| member | source | states |
|---|---|---|
| CallsOnce.StepKeeps | internal/workerhub/workerhub.go:301-464 | every step of every caller, reader and worker goroutine keeps the invariant that the right to tell a call something sits in exactly one place: its pending entry, the reader that took the entry, or spent |
| CallsOnce.ToldAtMostOnce | internal/workerhub/workerhub.go:301-313 | in every interleaving at most one frame is ever sent to a call's capacity-one channel, and it is either still in it or the answer the call took |
| CallsOnce.SendsNeverBlock | internal/workerhub/workerhub.go:301-337 | whenever the reader, or the end of a connection, is about to send to a waiter, that channel has room |
| CallsOnce.NobodyLeftWaiting | internal/workerhub/workerhub.go:316-337 | once a drop has finished, the connection is closed with nothing pending, every call still waiting on it can take an answer, and a later call is refused without touching it |
| CallsOnce.FinishedForGood | internal/workerhub/workerhub.go:328-337 | a connection whose drop has finished stays finished in every continuation |
| CallsOnce.EndsOnce | internal/workerhub/workerhub.go:400-464 | a call that ended as answered, refused, unsent or abandoned keeps that one end in every continuation |
| CallsWire.RequestsInOrder | internal/workerhub/workerhub.go:431-462 | over any run what callers wrote to a connection, requests and cancels, is what the worker read from it and then what is still on its way, frame for frame and in order |
| CallsWire.ResultsInOrder | internal/workerlink/workerlink.go:289-311 | over any run what handlers answered on a connection is what the hub read from it and then what is still on its way, frame for frame and in order |
| CallsWire.CancelReadAfter | internal/workerhub/workerhub.go:431-462 | in every run the worker reads a cancel only after the request that it cancels |
| CallsMatch.StepKeeps | internal/workerlink/workerlink.go:218-311 | every step keeps frames, handlers and inboxes matched to the calls they belong to, when reconnects find no handler with an answer left to give |
| CallsMatch.ResultsAreOwn | internal/workerhub/workerhub.go:424-451 | a call that took an answer other than the loss of the worker holds what the worker computed for exactly its own agent, operation and payload, on its own connection |
| CallsWire.AnswerIsComputed | internal/workerlink/workerlink.go:289-311 | in a run whose reconnects were settled, a handler computed in that run the very answer that a call took, for the request that the call was begun with |
| CallsPerformed.StepKeepsOrder | internal/workerlink/workerlink.go:218-311 | every step, reconnects included, keeps requests, handlers and the frames to the worker in order: each frame says what its call says, and each request has at most one handler |
| CallsPerformed.PerformedOnce | internal/workerlink/workerlink.go:222-228 | in every run, whatever handlers outlive their connection, no request is handled twice: one handler per connection and id |
| CallsPerformed.CancelNamesAbandoned | internal/workerhub/workerhub.go:453-462 | in every run a cancel the worker reads names a request of that connection whose caller has given up |
| CallsMatch.OneConnectionIsQuiet | internal/workerlink/workerlink.go:179-235 | over a single connection correlation needs no assumption at all |
| CallsReconnect.StaleAnswer | internal/workerlink/workerlink.go:237-246 | from any correlated state with a handler still to answer, a continuation after the reconnect in which a new call, given the same id, accepts the old handler's answer as its own |
| CallsReconnect.ReconnectExactly | internal/workerhub/workerhub.go:231-238 | after any run whose reconnects were settled, a further reconnect keeps every later answer correlated, whatever happens next, if and only if no handler still has an answer to give |
| CallsMissed.AnswerMixedUp | internal/workerlink/workerlink.go:237-246 | from the very start, a run with one reconnect in which a call accepts the answer to a request of the connection before |
| CallsCancel.EntriesKept | internal/workerlink/workerlink.go:264-287 | every step, reconnects with handlers outstanding among them, keeps each entry of the in-flight table a handler that has entered and not left, under its own id, and no handler cancelled before it enters |
| CallsCancel.AlwaysEntries | internal/workerlink/workerlink.go:264-287 | so it is in every run |
| CallsCancel.TableStep | internal/workerlink/workerlink.go:264-287 | every step, a reconnect among them when every earlier handler is gone, keeps the in-flight table exact: each entry is a running handler under its own id, and every running handler that was not cancelled has its entry |
| CallsCancel.CancelExactly | internal/workerlink/workerlink.go:264-272 | when every reconnect finds earlier handlers gone, reading a cancel stops the handler it names exactly if that handler has entered the table, and stops no other |
| CallsCancel.CancelLost | internal/workerlink/workerlink.go:228-230 | a run in which a cancel read before its handler enters the table is lost and the handler runs on |
| CallsMissed.CancelsExactly | internal/workerlink/workerlink.go:279-286 | after a run whose reconnects all found earlier handlers gone, a further reconnect keeps every later cancel stopping exactly what it names, whatever happens next, if and only if every handler is gone |
| CallsMissed.CancelMissed | internal/workerlink/workerlink.go:282-286 | from any state with a handler yet to leave, a continuation after the reconnect in which a cancel misses a running handler that is in the table's charge, because the old one took its entry out |
| CallsMissed.SettledMissesCancel | internal/workerlink/workerlink.go:282-286 | from the very start, such a run in which every reconnect found all answers given |
| CriticalSections.Worker.Register | internal/workerhub/workerhub.go:418-429 | the critical section is the protocol's registration step: a fresh id and channel, or a refusal when closed |
| CriticalSections.Worker.Forget | internal/workerhub/workerhub.go:437-442 | a failed send takes exactly its own entry out, as the protocol's step does |
| CriticalSections.Worker.GiveUp | internal/workerhub/workerhub.go:454-459 | an ended context takes exactly its own entry out, as the protocol's step does |
| CriticalSections.Worker.Deliver | internal/workerhub/workerhub.go:301-313 | removing the entry and sending to its channel are the protocol's two steps, the send never finds the channel full, and no other waiter is touched |
| CriticalSections.Worker.Drop | internal/workerhub/workerhub.go:328-337 | the close and the loop over waiters are a legal run of protocol steps to the finished state, with every waiter told exactly that the worker is gone |
| CriticalSections.FailAll | internal/workerhub/workerhub.go:335-337 | the loop tells each waiter once, each into an empty channel |
| CriticalSections.Link.Enter | internal/workerlink/workerlink.go:279-281 | the handler's entry into the table is the protocol's step |
| CriticalSections.Link.Cancel | internal/workerlink/workerlink.go:264-272 | a cancel takes the named entry out and stops that request and no other |
| CriticalSections.Link.Leave | internal/workerlink/workerlink.go:282-286 | leaving takes out whatever stands under the request's id, as the protocol's step does |
| Routing.Hub.Register | internal/workerhub/workerhub.go:240-269 | a second connection under a live id is refused and changes nothing; otherwise the worker is added and its claims applied |
| Routing.ReclaimMeaning | internal/workerhub/workerhub.go:258-268 | a claim pins exactly the unclaimed, non-empty agents named, and moves nobody who is already pinned |
| Routing.Hub.Drop | internal/workerhub/workerhub.go:316-326 | dropping removes that worker and exactly its pins, and lists exactly its agents, each once |
| Routing.Hub.WorkerFor | internal/workerhub/workerhub.go:365-397 | an existing pin is returned unchanged; otherwise the agent is pinned to a worker that no other has fewer agents than, and of those with as few the one whose id comes first, whatever order the map is read in; an empty pool answers none |
| Routing.LessExactly | internal/workerhub/workerhub.go:381-387 | an id comes before another if and only if it is a proper prefix of it or less where they first differ |
| Routing.Hub.Loads | internal/workerhub/workerhub.go:376-379 | the counting loop gives each worker the number of agents pinned to it |
| Routing.BestUnique | internal/workerhub/workerhub.go:381-387 | there is only one least worker, so placement does not depend on map order |
| Routing.PinsAreLive | internal/workerhub/workerhub.go:316-326 | in every reachable state each pin points to a currently registered worker |
| Routing.PinsAreStable | internal/workerhub/workerhub.go:365-371 | an agent's pin never changes while that worker stays registered, whatever registers, claims or drops in between |
| Routing.PlaceEnabled | internal/workerhub/workerhub.go:381-396 | with a worker registered, an agent without a pin can always be placed |
| Routing.PlacementsStayBalanced | internal/workerhub/workerhub.go:376-396 | from a balanced pool, any run of first-use placements keeps every two loads within one of each other |
| Events.TotalSizeAppend | internal/stream/event.go:88-91 | retaining two stretches costs the sum of what each costs |
| Events.TotalSizeInBytes | internal/stream/event.go:88-91 | an event costs the bytes of its data, command, directory and reason, and 256 more |
| Retention.OldestUnique | internal/stream/ringbuffer.go:39-51 | what a ring should retain, the longest suffix within budget or else the newest event, is one definite suffix |
| Retention.AppendKeepsOldest | internal/stream/ringbuffer.go:39-51 | evicting after an append takes the retained suffix of the old log to the retained suffix of the new one |
| Retention.HeldInBytes | internal/stream/ringbuffer.go:39-51 | what a ring should retain fills the budget in bytes of text, as `Retention.Ring.Append` states it |
| Retention.Ring.Append | internal/stream/ringbuffer.go:39-51 | afterwards the `n` events held, with 256 bytes each and all their text, are within the byte budget or are the newest alone, and with the one before them they would exceed it; the byte count and the sequence numbers stay in step with the full log |
| Retention.Ring.Since | internal/stream/ringbuffer.go:61-79 | the scan answers from the retained suffix with 64-bit arithmetic for every possible position |
| Retention.SinceMeaning | internal/stream/ringbuffer.go:61-79 | for a position within the log: the rest of the log from there or from the oldest retained, a count of exactly what lies between, and never a gap on its own |
| Retention.GapFollowedExactly | internal/stream/ringbuffer.go:67-70 | over every 64-bit position, a reported gap is followed by an event if and only if the position is not the largest one |
| Retention.Ring.LastSeq | internal/stream/ringbuffer.go:83-88 | the newest sequence number is the length of the full log |
| Broadcasting.Subscription.Close | internal/stream/broadcaster.go:65-74 | closing happens once, and the first reason given sticks |
| Broadcasting.Broadcaster.Subscribe | internal/stream/broadcaster.go:82-106 | in one step a watcher is given the replay after its position and is attached from exactly where the replay ends |
| Broadcasting.Broadcaster.Publish | internal/stream/broadcaster.go:122-136 | the event is stamped with the next number of its own sandbox and retained within the byte budget; each watcher with fewer than 256 events waiting is given it, each other is cut off as lagging with its queue intact, and other sandboxes are untouched |
| Broadcasting.Broadcaster.Deliver | internal/stream/broadcaster.go:128-134 | the fan-out loop offers the event to every watcher once and keeps exactly those that had room |
| Broadcasting.Broadcaster.RemoveLocked | internal/stream/broadcaster.go:165-178 | removal closes only that watcher, only if it was attached, and leaves no empty set behind |
| Broadcasting.Broadcaster.Unsubscribe | internal/stream/broadcaster.go:109-113 | unsubscribing detaches and closes the watcher, and does not undo a lag already recorded |
| Serving.Publish | internal/stream/broadcaster.go:122-136 | publishing on the broadcaster object is the system's publish step for the page's sandbox, and no step at all for any other |
| Serving.Connect | internal/restapi/stream.go:71-73 | subscribing is the system's connect step: the same replay, and attachment where it ends |
| Serving.NextLive | internal/restapi/stream.go:81-99 | a live event is sent exactly when one is queued, cut off or not, and it is the one the system's step sends |
| Serving.Cut | internal/stream/broadcaster.go:109-113 | however a connection ends the watcher is detached, and its lag flag tells whether it had been cut off |
| Resuming.StepKeeps | internal/restapi/stream.go:71-99 | publishing, connecting, sending, receiving and losing the connection at any moment all keep what was received, what is on its way and what is queued one stretch of the log |
| Resuming.ConnectGives | internal/stream/broadcaster.go:82-106 | a reachable connection opens with an optional marker counting exactly what is skipped, then the log from the page's position or the oldest retained event; a marker is always followed by an event |
| Resuming.OneStretch | internal/restapi/stream.go:71-99 | in every run, what the page received over its connection is a prefix of one such stretch, and together with what is on its way it is the whole of it, up to the end of the log while attached |
| Resuming.NeverRepeated | web/src/components/Terminal.jsx:172-206 | across any number of disconnects and reconnects, real events reach the page with strictly increasing numbers, each the very event published under that number |
| Resuming.NothingUnaccounted | web/src/components/Terminal.jsx:172-206 | everything up to the page's position was either delivered or counted by a marker ahead of something delivered, once |
| Resuming.MarkersSay | internal/stream/broadcaster.go:88-97 | in every run, whatever the page receives without a number is a gap notice about its own sandbox that counts exactly what its connection skipped and holds no output |
| Resuming.EachConnectionAccounts | internal/restapi/stream.go:71-99 | in each connection that delivers a real event, missed plus delivered is how far the page moved |
| Resuming.GapRepeats | web/src/components/Terminal.jsx:188-193 | a connection cut after the marker alone leaves the position where it was, so the next one reports the same gap |
| Utf8.SplitCompleteRunes | internal/procexec/utf8.go:31-48 | the backward scan cuts at the split point and loses nothing |
| Utf8.CharLenInBits | internal/procexec/utf8.go:14-27 | a character has `n` bytes if and only if they have the bit pattern for `n` of section 3 of RFC 3629 and spell a number that needs that many, no surrogate and at most 10FFFF |
| Utf8.SplitPointExact | internal/procexec/utf8.go:31-48 | for arbitrary bytes, the cut is before exactly the tail, if there is one, that is a leading byte with too few bytes after it, all of them continuations |
| Utf8.SplitIsLongest | internal/procexec/utf8.go:31-48 | cutting well-formed text anywhere and splitting leaves its longest well-formed prefix |
| Utf8.FloorIsLongest | internal/procexec/utf8.go:31-57 | the last character boundary at or before a position is the longest well-formed prefix (section 4 of RFC 3629) |
| Utf8.LongestUnique | internal/procexec/utf8.go:54-57 | there is only one such prefix |
| Utf8.TrimIncompleteRune | internal/procexec/utf8.go:54-57 | trimming keeps what splitting calls complete |
| CappedOutput.CappedBuffer.Write | internal/procexec/procexec.go:29-42 | after every write, empty or not and for any limit, the buffer holds the first `limit` bytes of everything written and the flag follows the writes; all bytes are reported taken |
| CappedOutput.CappedBuffer.String | internal/procexec/procexec.go:49-54 | what is shown is the kept bytes, trimmed of an unfinished character only when truncated |
| CappedOutput.TruncatedMeansDropped | internal/procexec/procexec.go:29-45 | with a non-negative limit and no empty write, the flag is set if and only if output was dropped |
| CappedOutput.TruncatedExactly | internal/procexec/procexec.go:29-45 | over all limits and writes, the flag is right if and only if it is not the case that the last write is empty and the output fills the buffer to the byte |
| CappedOutput.EmptyWriteSetsFlag | internal/procexec/procexec.go:30-33 | an empty write to a full buffer sets the flag though nothing was dropped |
| CappedOutput.ShownIsLongest | internal/procexec/procexec.go:49-54 | for well-formed output the string is the longest well-formed prefix within the limit, whatever writes it came in |
| CappedOutput.TruncateTarget | internal/storage/audit_repo.go:76-85 | a target of at most 2048 bytes is unchanged; a longer one is cut at the last byte that can start a character, and gets the ellipsis |
| CappedOutput.CutIsFloor | internal/storage/audit_repo.go:81-83 | in well-formed text the backward scan stops on the last character boundary within the limit |
| CappedOutput.TruncatedTargetValid | internal/storage/audit_repo.go:76-85 | a cut target is well-formed: the longest prefix of at most 2048 bytes ending on a boundary, then the ellipsis |
| Pumping.Pump | internal/sandbox/sandbox.go:537-568 | the read loop gives the sink every non-empty read and publishes exactly the chunks the specification computes from the reads |
| Pumping.NothingLost | internal/sandbox/sandbox.go:537-568 | after any run of reads, published chunks plus what is held back spell what was read, and at most three bytes are held back |
| Pumping.PublishedIsOutput | internal/sandbox/sandbox.go:557-565 | at the end, the chunks spell the whole output |
| Pumping.ChunksAreCharacters | internal/sandbox/sandbox.go:537-568 | for well-formed output every chunk is well-formed, and after each read the published bytes are the longest prefix ending on a character boundary, wherever the reads fall |
| Pumping.PublishedAreCharacters | internal/sandbox/sandbox.go:537-568 | for well-formed output every published chunk, the last included, is well-formed |
| Exec.StepKeeps | internal/sandbox/sandbox.go:448-527 | every step of any command, pump or operator keeps each command's share of the log in order and complete so far |
| Exec.EventsOfACommand | internal/sandbox/sandbox.go:448-527 | a finished command's events other than stops are one start, then output chunks, then one end, and each stream's chunks spell what its reads returned, under any interleaving |
| ExecTold.StartTold | internal/sandbox/sandbox.go:451-456 | in every run the start that watchers are told of gives the command line and directory of an earlier announcement of that command |
| ExecTold.EndTold | internal/sandbox/sandbox.go:477-526 | and the end gives how the command had been reported: the code it exited with, or -1 and the reason when it ran out of time or was stopped |
| ExecTold.GotIsRead | internal/sandbox/sandbox.go:537-568 | what a command's streams hold is what its reads returned in the run, in order, of that stream and that command alone |
| Exec.EventsSoFar | internal/sandbox/sandbox.go:448-527 | before that its events are none at all, or one start and then, for each stream, a prefix of what was read that lacks at most three bytes |
| Exec.TruncatedMark | internal/sandbox/sandbox.go:467-475 | the end is marked truncated if and only if a stream outgrew the result's limit |
| ExecTold.StopsWhatRan | internal/sandbox/sandbox.go:614-632 | whatever else happens meanwhile, a stop that is through has told of exactly the commands that ran when it was asked for, each once |
| ExecTold.StopTold | internal/sandbox/sandbox.go:622-629 | a stop tells of the command it stops, who stopped it and why |
| Running.Sandbox.KillAll | internal/sandbox/sandbox.go:614-632 | every running command, in some order, is told of and then told to stop, each once; the answer is their number, and none of them is taken out |
| Running.Sandbox.Track | internal/sandbox/sandbox.go:581-585 | the command can be stopped from here on |
| Running.Sandbox.Untrack | internal/sandbox/sandbox.go:587-591 | the command alone can no longer be stopped |
| Exec.RunningWhilePublishing | internal/sandbox/sandbox.go:581-632 | a command is registered as running at each of its own events |
| Exec.ChunksWellFormed | internal/sandbox/sandbox.go:537-568 | if the output of either stream of a finished command is well-formed text, so is each chunk of it in the log |
| Exec.KilledBeforeStarted | internal/sandbox/sandbox.go:614-630 | a run in which a stop notice precedes the start it refers to |
| Exec.KilledAfterFinished | internal/sandbox/sandbox.go:614-630 | a run in which a stop notice follows the end |
| Screen.DrawnIsTail | web/src/components/Terminal.jsx:84-86 | dropping the oldest items event by event leaves exactly the last 2000 of the whole page |
| Screen.WholeSays | web/src/components/Terminal.jsx:21-82 | the page says every letter of every stream and every notice, in order, and nothing else |
| Screen.MergedUnique | web/src/components/Terminal.jsx:21-37 | two pages with neighbouring output merged that say the same look the same |
| Ansi.CutExactly | web/src/format.js:28-41 | stripping the two halves of a text gives what stripping the whole gives if and only if the cut falls inside nothing that is taken out, a blank window title excepted, and not between a carriage return and its line feed |
| Ansi.PiecesExactly | web/src/format.js:28-41 | stripping a text piece by piece gives at every moment what stripping all that has come gives, if and only if every cut is one of those |
| Ansi.MatchExactly | web/src/format.js:28-36 | what is taken out at the front of a text is a control sequence, or else a window title, or else two bytes, or else a bare carriage return, each as the pattern spells it and of exactly that length; nothing if there is none |
| Ansi.StripExactly | web/src/format.js:38-41 | stripping takes out what stands at the front and goes on after it, or, where nothing does, keeps one byte and goes on |
| Ansi.StripValid | web/src/format.js:38-41 | what is left of well-formed text is well-formed |
| Ansi.PlainUnchanged | web/src/format.js:28-41 | text with no escape and no carriage return is drawn as it is |
| Screen.CutsShowExactly | web/src/components/Terminal.jsx:21-37 | the page looks at every moment as if output came uncut if and only if every cut in it is one of those that do not show |
| Screen.CutShows | web/src/components/Terminal.jsx:22-22 | a colour code cut in two is drawn on the page, where the same bytes in one chunk are not |
| Screen.CutsNeverShow | web/src/components/Terminal.jsx:21-86 | the same raw text of each stream and the same notices in the same order, whatever numbers they carry, draw the same page however they were cut, if no cut is one that shows |
| Screen.OneChunkOrTwo | web/src/components/Terminal.jsx:21-86 | output in one chunk and output in two, each followed by a notice whose number differs for that, draw the same page |
| Transport.SomeWire | internal/procexec/utf8.go:3-10 | there are encodings that leave text as it is and make text of everything else, as assumed of the wire |
| Transport.TextPasses | internal/procexec/utf8.go:3-10 | an event whose text is all well-formed is not changed on the way |
| Transport.InterleavedKeeps | internal/workerhub/workerhub.go:345-354 | however the hub's own notices fall between a sandbox's events in the retained log, and however many are still on their way, each command's share of it is what the command published, in order and encoded |
| Pipeline.HoldsTheLog | web/src/components/Terminal.jsx:172-206 | the page holds the log up to its position, event for event, if and only if no marker counted something ahead of a delivered event |
| Pipeline.UnbrokenIsReceived | web/src/components/Terminal.jsx:188-188 | between two events as many apart in what the page received as in number, the page received every event of the log |
| Pipeline.EndIsLast | internal/sandbox/sandbox.go:448-527 | once a command's end is published nothing of the command follows, and its start is the first of it |
| Pipeline.OutputReachesThePage | web/src/components/Terminal.jsx:21-206 | a page that received a command's start, its end and all between shows a stream of its output byte for byte if and only if the output is well-formed text, none of it has scrolled off, and no chunk of it holds anything the page takes out, however reads, chunks, connections, other commands and the hub's notices fell |
| Pipeline.StrippedOutputShown | web/src/components/Terminal.jsx:21-206 | if no cut between the chunks of a stream shows and none of it has scrolled off, such a page shows what stripping the whole output at once would leave |
| Pipeline.NoticesReachThePage | web/src/components/Terminal.jsx:172-206 | such a page holds the command line and directory the command was announced with, and how it ended: its own code, or -1 and why, as encoded on the way |
| Pipeline.StrayByteNeverShown | internal/sandbox/sandbox.go:559-561 | of a command whose output is one byte that no text contains, the page does not show that byte |
| Witness.StrayByteWatched | internal/sandbox/sandbox.go:559-561 | there are such a command and such a page: a run of the one and a run of the other that meet every condition |
| Uids.ContainsExactly | internal/sandbox/uidpool_unix.go:29-31 | in a validated range 32-bit membership is true membership |
| Uids.ValidatesExactly | internal/sandbox/uidpool_unix.go:34-54 | a range that hands out ids is accepted if and only if each of them is at least 1000 and below 65536; one that hands out none always is |
| Uids.FreshMeaning | internal/sandbox/uidpool_unix.go:173-199 | a fresh id is the lowest that no directory belongs to, and there is none if and only if every id of the range is claimed |
| Uids.Manager.NextFreeUID | internal/sandbox/uidpool_unix.go:173-199 | reading the register, in any order, finds the lowest free id |
| Uids.Manager.AssignUID | internal/sandbox/uidpool_unix.go:70-121 | an in-range owner is returned as it is; otherwise a fresh id is given everything the agent's directory holds, and an attempt the system breaks off at any point, hand-over included, leaves the same ids of the range claimed if and only if it left the register alone or the worker's own id is outside the range or was claimed already |
| Uids.Manager.SetUp | internal/sandbox/uidpool_unix.go:84-120 | making the directory and handing it over on the volume ends in one of three registers: the agent's claim is the fresh id, the worker's own, or as it was |
| Uids.Manager.GetSandbox | internal/sandbox/manager.go:48-78 | a sandbox is built on first use, reused afterwards, and refused for the empty id |
| Uids.StepKeepsClaims | internal/sandbox/manager.go:48-78 | every call, failed attempt and restart leaves each id of the range with the directory that has it, whatever the worker's own id |
| Uids.StepKeeps | internal/sandbox/manager.go:48-78 | and keeps the ids of the range unshared, when the worker's own id is not one of several in it |
| Uids.NeverShared | internal/sandbox/uidpool_unix.go:70-121 | across all runs with restarts and failed attempts no two directories ever have the same in-range owner, if and only if the worker's own id is outside the range or the only one in it |
| Uids.WorkersIdShared | internal/sandbox/uidpool_unix.go:34-54 | with any other range that validates, a run from an empty register in which two failed hand-overs leave both directories with the worker's id, and both agents are then given it |
| Uids.SameIdForGood | internal/sandbox/uidpool_unix.go:75-82 | an agent whose directory has an in-range owner gets that id in every later attempt that yields a sandbox, whatever the worker's own id |
| Uids.DifferentAgentsDifferentIds | internal/sandbox/uidpool_unix.go:70-121 | two agents given sandboxes at any two points of any run are given different ids, under exactly the same condition |
| Uids.ExhaustionAndInterruption | internal/sandbox/uidpool_unix.go:191-198 | allocation reports exhaustion if and only if every id is claimed by a directory and the agent has none of its own; a call that fails in between claims nothing, with the exception that `Uids.Manager.AssignUID` states |
| Handover.WalkTopDown | internal/sandbox/uidpool_unix.go:143-153 | the walk lists each path once, each directory before what it holds |
| Handover.WalkListsAll | internal/sandbox/uidpool_unix.go:143-153 | the walk lists a path if and only if names lead to it from the directory by descent, entry by entry |
| Handover.Volume.ChownTree | internal/sandbox/uidpool_unix.go:132-167 | success gives everything that descent from the directory reaches, and nothing else, to the new id, the top directory last; each change is made while every directory above it is as the worker left it; a failure at any step leaves the top directory the worker's own or everything as it was |
| Handover.AboveIsTheWorkers | internal/sandbox/uidpool_unix.go:155-167 | in a tree that was the worker's, all that lies above a path within it is the worker's still when the path changes hands |
| Handover.Volume.AdoptDir | internal/sandbox/uidpool_unix.go:213-231 | the worker ends up owning the directory, or nothing changes |
| Limits.SizedExactly | internal/workerproto/workerproto.go:80-104 | for every pair of 64-bit limits that validation accepts, the frame is above the 8 KiB of a hello and within the 64 MiB ceiling, and both raw caps fit the payload, if and only if the arithmetic does not wrap |
| Limits.AcceptedThoughWrapping | internal/workerproto/workerproto.go:93-104 | a pair of limits that wraps and is accepted, but does not size the link |
| Limits.PayloadFits | internal/workerhub/workerhub.go:414-416 | a payload passing either end's check, in an envelope of at most 64 KiB, fits the negotiated frame |
| Limits.ValidateExactly | internal/workerproto/workerproto.go:80-104 | for limits that do not wrap, the frame is 64 KiB and twice the larger of a file and two outputs; they are refused for the output limit, then the file limit, if that is not positive, and accepted if and only if neither is and the frame is within 64 MiB |
| Limits.SetUpExactly | internal/workerlink/workerlink.go:106-124 | a worker is set up if and only if its limits are accepted and leave 16 KiB for a payload, what one output chunk needs |
| CommandLine.Render | internal/sandbox/lookpath.go:82-89 | the line is the parts with single spaces between; an argument is shown as itself if and only if it is not empty and has none of space, tab, line feed, quotes and backslash, and else between double quotes with a backslash before each double quote and backslash and nothing else added |
| CommandLine.QuoteExactly | internal/sandbox/lookpath.go:91-99 | each argument is quoted, or left alone, as `CommandLine.Render` states |
| CommandLine.RoundTrip | internal/sandbox/lookpath.go:82-99 | a parser recovers the program and every argument from every rendered line |
| CommandLine.NeverAlike | internal/sandbox/lookpath.go:82-99 | two different commands never render alike |
| Paths.CleanKeepsMeaning | internal/sandbox/sandbox.go:264-264 | cleaning never changes where a path leads, from whatever directory it is followed |
| Paths.CleanShape | internal/sandbox/sandbox.go:264-264 | a cleaned relative path is as many ".." as the walk ever goes above its start, then names |
| Paths.ResolvesExactly | internal/sandbox/sandbox.go:286-309 | a path resolves if and only if following it ends at the root or beneath, and to where it ends |
| Paths.NamesExactly | internal/sandbox/sandbox.go:263-281 | a path is named if and only if it is absolute and leads inside, or relative and never goes above the root; the name has no ".." and joined to the root is where the path leads |
| Paths.NameIsStable | internal/sandbox/sandbox.go:263-309 | the name and the absolute path it stands for are named the same again, and the original resolves to that absolute path |
| Paths.ResolversDifferExactly | internal/sandbox/sandbox.go:263-309 | what resolving accepts and naming refuses is exactly the relative paths that leave the root and come back |
| Paths.LeavesAndReturns | internal/sandbox/sandbox.go:286-309 | such paths exist under every root that has a name |

## Left out

- WebSocket, HTTP, JSON and TLS: a connection is a pair of FIFO queues that can be lost at any moment, and an encoded size is a number.
- The hello exchange beyond registration and limits: protocol version, token and handshake time-outs.
- CallsMatch.ResultsAreOwn: assumes each reconnect finds no handler with an answer left to give; `CallsReconnect.ReconnectExactly` proves that this is the exact condition.
- CallsWire.AnswerIsComputed: assumes the same of reconnects.
- CallsCancel.CancelExactly: assumes each reconnect finds every handler gone; `CallsMissed.CancelsExactly` proves that this is the exact condition.
- CallsCancel.TableStep: assumes the same of a reconnect.
- CallsReconnect.ReconnectExactly: does not model a stale result overtaking the hello of the new connection, which the hub refuses as a first frame.
- Calls: payload sizes, event frames and the refusal of oversized results are not steps of it; sizes are in `Limits`, and an oversized result is one more error answer.
- CriticalSections.Worker.Deliver: is one goroutine uninterrupted; other goroutines between its two steps are covered by the machine in `Calls`.
- The `killed` notices the hub publishes for orphaned agents when a worker drops.
- Resuming.ConnectGives: server restarts, which start the numbering again, are left out, and the log stays below 2^64 - 1 events.
- Retention.Ring.Append: the sequence counter and byte count are unbounded; only the position a client supplies wraps at 64 bits.
- JavaScript's number precision above 2^53 in the page's position.
- Pipeline.OutputReachesThePage: assumes that no frame of the command's own was lost between worker and hub, which the worker drops without retrying.
- What a byte that is no text is replaced by: `Transport.IsWire` only says that text comes out, and that text is not changed.
- React rendering, scrolling and reconnect timing; parsing of the `after` parameter.
- Running.Sandbox.KillAll: is one goroutine uninterrupted; commands that start, end or print between its steps are covered by the machine in `Exec` (`ExecTold.StopsWhatRan`).
- The result of a command as returned to the agent, apart from its two captured streams.
- Uids.NeverShared: assumes one worker, readable directory entries, no ownership changes from outside, agent ids that name one directory each, and a volume that starts with no shared id.
- Uids.Manager.SetUp: which step the system refuses is an input; what the register is left as follows from the volume.
- Uids.StepKeeps: a call's `Fate` ranges over all the ways `Uids.Manager.GetSandbox` is proved to end, without saying which refusal leads to which.
- Handover.Volume.ChownTree: permission bits and group ownership, and the kernel's own permission checks, are not modelled; that ancestors still belong to whom they did is what those checks need.
- Paths.ResolvesExactly: a path is given as its components; splitting a string at separators, and symbolic links, which the operating system confines, are left out.
- Process launching, signals, privilege drop and virtual environments: their guarantees are the kernel's.
- Login, sessions, tokens, roles, encryption and the database, apart from the audit target.
- That nothing runs after a block: the check and the dispatch are separate steps, so it does not hold.
- Wall-clock time, time stamps and durations of events, back-off, logging and health endpoints.
