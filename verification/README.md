# OAIE in Dafny

OAIE runs tools in isolation, records what they did and lets anyone check the record later. This project
models the parts of it where many steps have to fit together, and proves what they promise. To check the
proofs, use `dafny verify dfyconfig.toml`.

Four cores are modelled.

**Sessions.** A supervisor serves tool calls for an agent under three budgets (`SessionRunner`, over the
step functions of `SessionModel`). `SessionSafety` proves, for every agent, operator and clock, the budget
bounds, the shape of the log and when exhaustion ends. `SessionAccount` tells a session from its requests
alone, in plain sums and written-out conditions, and proves that the supervisor agrees with it. `Outputs` bounds what a run can add. `EventLog` is
the hash-chained log writer and its verifier. `ToolSemaphore` is the counter that limits concurrent calls,
under every interleaving. `ToolFilter` is the greedy pattern matcher of the allow and deny lists.

**Content-addressed store.** `CasRace` interleaves any number of `store` calls with failures and crashes.
`BlobStore` is one `store`, possibly failing, and `verify`. `RunVerify` is the run verifier,
`ReportMeaning` is what its report says about the store, and `Sweep` is the garbage collector that the verifier
must not notice. `Hex` is the spelling of hashes and paths.

**MicroVM channel.** `Base64` and `Wire` are the encodings, `Channel` joins the agent's sender and the
host's receive loop. `Seccomp` runs the agent's BPF filter.

**Printers and readers.** `ManifestToml`, `ShellQuote`, `LikePrefix` and `Units`.

Conventions. A hash is a function given as a parameter, and a result that depends on the hash having no
collision hands back the collision instead. JSON and manifest readers are function parameters with their
hypotheses written out (`Chain.Valid`, `Env.Valid`, `ReadsBack`). The event log is generic in what an event
says, so its results cover every text the reader accepts. A tool run, the clock, the file system's
failures and the operator are inputs. Code that updates state in place is a class or a method with loops,
proved equal to a function; the theorems are about that function.

What turned out different from what one might expect:

- A failed read of an intact blob makes a second `store` of the same content remove it. A blob that is not
  corrupted at the start is lost if and only if this happens to it, whatever else fails or crashes
  (`CasRace.BlobLostExactly`), and it does happen (`CasRace.FailedReadLosesBlob`).
- A blob that is corrupted at the start can be lost in a second way, with no read failing: two `store` calls
  find it bad, one replaces it and returns, the other removes the replacement and crashes
  (`CasRace.LateRemovalLosesBlob`). From any store, what a call returned is there at the end if and only if it
  was not removed without being put back (`CasRace.ReturnedIsStoredExactly`), and it is there, once no call of
  that content is between removing and replacing, if none was cut off there (`CasRace.AllRepaired`).
- A hash string that is not 64 lower-case digits is accepted by the reader but not by the marks of the
  sweep. The sweep changes the report of a recorded run if and only if the run's trace names a blob that way
  and the sweep takes it (`Sweep.RecordedNoticedExactly`), and it does happen (`Sweep.OtherSpellingIsNoticed`).
- A dry run announces what the real sweep removes exactly when no second file's name reads as a removable
  hash (`Sweep.DryRunPredicts`); such a second name is the hash in capital letters (`Sweep.SecondNameExists`).
- The trace index is looked up and parsed, and not re-hashed: another content that parses as the same index
  leaves the report as it is (`ReportMeaning.IndexContentUnchecked`). A report without a failure means that every
  output and every chunk is there with the right content (`ReportMeaning.CleanReportIsIntact`).
- An event log without a parseable line is skipped, and so passes, against every tip (`EventLog.PassedLog`).
- The time and byte counters wrap at 2^64: they equal the sums over the calls exactly when those sums are below
  2^64 (`SessionSafety.EverySession`), and a counter does wrap (`SessionSafety.CounterWraps`).
- The total output limit is exceeded if and only if the last file collected is longer than what was left for
  it; below the largest limit, and while the sum fits 64 bits, that file grew after being measured
  (`Outputs.OvershootExactly`). A limit of 2^64 - 1 is no limit (`Outputs.LargestLimitIsNone`).
- The semaphore's counter is the number of live guards modulo 2^32. The limit holds while fewer than 2^32 are
  alive (`ToolSemaphore.SemaphoreSafety`) and is broken by one dispatcher more
  (`ToolSemaphore.CrowdBreaksTheLimit`).
- The comment on `shell_quote` does not list `@` among the characters left unquoted; the code does. The
  model follows the code.

## Model

| member | source | states |
|---|---|---|
| ToolFilter.GlobMatch | crates/oaie-core/src/session.rs:270-308 | the greedy matcher says yes exactly when each `*` can stand for some string, for every pattern and text |
| ToolFilter.PlaceParts | crates/oaie-core/src/session.rs:277-294 | placing each part at its first occurrence, with the check of the end, decides whether the parts occur in order with arbitrary gaps |
| ToolFilter.Find | crates/oaie-core/src/session.rs:283-292 | the first occurrence, or that there is none |
| ToolFilter.SplitMeansDenotes | crates/oaie-core/src/session.rs:276-277 | cutting the pattern at its stars keeps its meaning |
| ToolFilter.FirstOccurrenceSuffices | crates/oaie-core/src/session.rs:279-294 | exchange step: committing to the first occurrence of a part loses no match |
| ToolFilter.NoOccurrenceNoMatch | crates/oaie-core/src/session.rs:283-292 | a part that does not occur rules every match out |
| ToolFilter.IsAllowed | crates/oaie-core/src/session.rs:236-260 | deny-first membership of the command's base name, an empty allow list admitting everything |
| ToolFilter.BasenameOfPath | crates/oaie-core/src/session.rs:236-238 | the name matched is the last path component |
| ToolFilter.BasenameOfTrailing | crates/oaie-core/src/session.rs:236-238 | trailing slashes and dots do not count, and a path that ends in two dots is matched whole |
| EventLog.SessionEventWriter.constructor | crates/oaie-cli/src/session_runner.rs:90-100 | an empty log whose previous hash is the genesis hash |
| EventLog.SessionEventWriter.Emit | crates/oaie-cli/src/session_runner.rs:103-119 | appends one event with the next sequence number and the hash of its predecessor, and keeps the chain linked |
| EventLog.SessionEventWriter.Finalize | crates/oaie-cli/src/session_runner.rs:122-131 | one line per event and the tip of the chain |
| EventLog.ParseAfterPrint | crates/oaie-cli/src/verify.rs:685-692 | splitting the written text into lines and parsing them gives the written events |
| EventLog.LinesExactly | crates/oaie-cli/src/verify.rs:685-692 | a line ends at a newline, with one carriage return before it dropped, or at the end of the text |
| EventLog.ParsedExactly | crates/oaie-cli/src/verify.rs:685-692 | the events read are those of the lines that parse, in order |
| EventLog.VerifyChain | crates/oaie-cli/src/verify.rs:705-722 | accepts exactly the linked lists, otherwise names the first event that breaks the chain |
| EventLog.TipOfManifestTip | crates/oaie-cli/src/verify.rs:731-750 | the tip read from the manifest is the tip the writer put there |
| EventLog.SecondPart | crates/oaie-cli/src/verify.rs:731-750 | the claimed tip is the second of the parts between colons, or the whole string |
| EventLog.CheckEventLog | crates/oaie-cli/src/verify.rs:685-794 | when each of the integrity and tip checks passes, fails or is skipped, on any text |
| EventLog.WriterThenVerifier | crates/oaie-cli/src/verify.rs:685-794 | every log the writer can produce passes both checks from its own text and tip |
| EventLog.TamperEvidence | crates/oaie-cli/src/verify.rs:705-750 | two linked logs with one tip are equal, or two distinct hashed strings with one hash are handed back, one of them the genesis string when a log is empty |
| EventLog.AcceptedTextIsTheWrittenLog | crates/oaie-cli/src/verify.rs:685-750 | a text accepted against the tip of a written log reads as that log event by event, or a collision is handed back |
| EventLog.PassedLog | crates/oaie-cli/src/verify.rs:685-703 | passing means being the written log exactly for texts with a parseable event; the empty text passes against any tip |
| ToolSemaphore.StepKeepsInv | crates/oaie-cli/src/session_runner.rs:1243-1257 | while fewer than 2^32 guards are alive, every increment, check and guard drop keeps the counter equal to the live guards and executing guards among the first `max` |
| ToolSemaphore.SemaphoreSafety | crates/oaie-cli/src/session_runner.rs:67-75 | in every interleaving of any number of dispatchers the counter is the number of live guards modulo 2^32, and at most `max` calls execute as long as fewer than 2^32 guards are alive |
| ToolSemaphore.FewDispatchers | crates/oaie-cli/src/session_runner.rs:67-75 | fewer than 2^32 dispatchers never hold 2^32 guards |
| ToolSemaphore.CrowdBreaksTheLimit | crates/oaie-cli/src/session_runner.rs:1243-1257 | with 2^32 guards alive the next dispatcher sees zero, and two calls execute under a limit of one |
| ToolSemaphore.CounterReturnsToZero | crates/oaie-cli/src/session_runner.rs:67-75 | from every reachable state the calls in progress, refused ones too, can finish, and the counter is then zero |
| ToolSemaphore.RefusedOnlyWhenFull | crates/oaie-cli/src/session_runner.rs:1243-1257 | a dispatcher that increments and checks without being interrupted is refused exactly when the number of live guards, modulo 2^32, is at least `max` |
| SessionModel.DispatchInLegs | crates/oaie-cli/src/session_runner.rs:1188-1425 | warnings, announcement and execution one after the other are the dispatch as one step |
| SessionRunner.Supervisor.constructor | crates/oaie-cli/src/session_runner.rs:301-372 | a running session with its budget, zero counters and an empty log |
| SessionRunner.Supervisor.CheckBudgetWarnings | crates/oaie-cli/src/session_runner.rs:1430-1457 | the warnings due, each flagged once |
| SessionRunner.Supervisor.ApplyExtension | crates/oaie-cli/src/session_runner.rs:827-863 | each limit grows with saturation, with one event per limit given |
| SessionRunner.Supervisor.CheckBudgetExtension | crates/oaie-cli/src/session_runner.rs:801-879 | the new limits, the events and whether the session resumes |
| SessionRunner.Supervisor.CheckGates | crates/oaie-cli/src/session_runner.rs:974-1185 | the gates in their order: call id, command, call budget, inputs, filter, approval, time and byte budget; what passes them is fixed by `SessionAccount.DispatchedExactly` |
| SessionRunner.Supervisor.Permitted | crates/oaie-cli/src/session_runner.rs:1117-1135 | whether the tool filter, if there is one, lets the command through |
| SessionRunner.Supervisor.Announce | crates/oaie-cli/src/session_runner.rs:1187-1194 | warnings before the dispatch event |
| SessionRunner.Supervisor.Execute | crates/oaie-cli/src/session_runner.rs:1243-1421 | a successful run charges calls, time and copied bytes, which `SessionAccount.EverySessionAccounted` sums up; a failed one charges nothing |
| SessionRunner.Supervisor.TotalOutputSize | crates/oaie-cli/src/session_runner.rs:1300-1363 | the copied bytes modulo 2^64 |
| SessionRunner.Supervisor.DispatchToolCall | crates/oaie-cli/src/session_runner.rs:967-1425 | the whole new state of a tool call, and that a response without error is exactly a finished run |
| SessionRunner.Supervisor.HandleConnection | crates/oaie-cli/src/session_runner.rs:892-964 | the requests of a connection in order, until the time is up, a line is too long or a response cannot be written |
| SessionRunner.Supervisor.Turn | crates/oaie-cli/src/session_runner.rs:705-794 | one turn of the dispatch loop: agent exit, kill flag, time-out, heartbeat, extension, connection |
| SessionRunner.Supervisor.DispatchLoop | crates/oaie-cli/src/session_runner.rs:705-794 | the loop over any sequence of observations |
| SessionRunner.Supervisor.Run | crates/oaie-cli/src/session_runner.rs:375-702 | a whole session keeps its budgets, has a well-formed log when finished, logs exactly its transcript, and its counters are the sums over the requests served |
| SessionRunner.WriteLog | crates/oaie-cli/src/session_runner.rs:103-119 | the emitted kinds end up in the writer one to one, in order, each in its written form |
| SessionRunner.SessionThenVerify | crates/oaie-cli/src/verify.rs:685-794 | the log of every finished session passes integrity and tip checks |
| SessionSafety.ChargeKeepsBudget | crates/oaie-cli/src/session_runner.rs:1279-1363 | a charge below the limits keeps counters equal to sums and overshoot under the last charge |
| SessionSafety.CounterWraps | crates/oaie-cli/src/session_runner.rs:1281-1285 | a session of two calls within the limits after which the time used reads zero |
| SessionSafety.DispatchKeepsBudget | crates/oaie-cli/src/session_runner.rs:997-1011 | every request keeps the budget bounds |
| SessionSafety.ExtensionKeepsBudget | crates/oaie-cli/src/session_runner.rs:827-863 | every extension keeps the budget bounds |
| SessionSafety.DispatchKeepsLog | crates/oaie-cli/src/session_runner.rs:1190-1194 | every request keeps one start, no stop, results right after their dispatch and each warning at most once |
| SessionSafety.EventsWarnings | crates/oaie-cli/src/session_runner.rs:1430-1457 | a request logs only warnings that were not flagged before, flags them, and clears no flag |
| SessionSafety.TickKeepsInv | crates/oaie-cli/src/session_runner.rs:705-794 | every turn of the loop keeps budget, state and log invariants or ends the session with its stop event |
| SessionSafety.TicksKeepInv | crates/oaie-cli/src/session_runner.rs:705-794 | so does every sequence of turns |
| SessionSafety.EverySession | crates/oaie-cli/src/session_runner.rs:375-702 | for every agent, operator and clock: budgets kept; a finished log starts with the only start, ends with the only stop whose status agrees with the final state, has every result right after the dispatch of the same call and each warning at most once |
| SessionSafety.ExhaustionIsSticky | crates/oaie-cli/src/session_runner.rs:801-1185 | from a counter at its limit on, over any turns whose extensions never bring all three limits above the counters, nothing is dispatched or charged and an exhausted session does not run again |
| SessionSafety.ResumesExactly | crates/oaie-cli/src/session_runner.rs:801-879 | after any such turns, an exhausted session runs again in a turn exactly when its extension brings all three limits above the counters |
| SessionAccount.EverySessionAccounted | crates/oaie-cli/src/session_runner.rs:375-702 | for every agent, operator and clock: the counters are the number, the durations and the copied artifact sizes of the requests served without error, summed over the turns and taken modulo 2^32 and 2^64; the limits are the given ones with every extension added; the log is the transcript; the session ends for the first reason to end that comes up |
| SessionAccount.DispatchesAreVetted | crates/oaie-cli/src/session_runner.rs:1117-1155 | over every session, each dispatched command has a name that no deny pattern matches and, unless the allow list is empty, an allow pattern does; with approval on, an approval of the same call stands before it |
| SessionAccount.DispatchedExactly | crates/oaie-cli/src/session_runner.rs:974-1185 | in any state a request is dispatched if and only if its id and command are proper, its inputs are staged, the filter permits it, it is approved if asked, and all three counters are below their limits |
| SessionAccount.SaysExactly | crates/oaie-cli/src/session_runner.rs:967-1425 | the events of a request, each with its condition written out |
| SessionAccount.CautionsExactly | crates/oaie-cli/src/session_runner.rs:1430-1457 | a warning is due when its counter has reached its mark and it was not given before, and says counter and limit |
| SessionAccount.ChargedExactly | crates/oaie-cli/src/session_runner.rs:1279-1363 | one more request served adds one call, its duration and the sizes of its copied artifacts |
| SessionAccount.RaisedExactly | crates/oaie-cli/src/session_runner.rs:827-863 | each limit becomes the smaller of old plus added and the largest number it can hold, with one event per limit given |
| SessionAccount.ClimbsExactly | crates/oaie-cli/src/session_runner.rs:1724-1736 | a call id has a parent component exactly when two dots stand between slashes or ends |
| SessionAccount.TurnAgrees | crates/oaie-cli/src/session_runner.rs:705-794 | a turn ends the session for the kill flag, the agent, the wall clock or the heartbeat, in that order, a turn at or past the wall-clock limit as timed out; otherwise it extends, reads the counters and serves |
| Outputs.CollectOutputs | crates/oaie-cli/src/runner.rs:860-954 | collects exactly the eligible files in front of the first entry that hits a limit, or aborts at the first entry that cannot be walked, opened, labelled or stored, with at most the allowed number of files |
| Outputs.CollectedExactly | crates/oaie-cli/src/runner.rs:874-954 | the files collected are exactly the regular files measured at no more than the single-file limit; before the end every file opened, had a good label, was stored and stayed within the total limit; at the end stands a file too many or too much |
| Outputs.AbortedExactly | crates/oaie-cli/src/runner.rs:874-954 | an entry aborts exactly when it cannot be walked, or is a file within the limits that cannot be opened, labelled or stored |
| Outputs.OvershootExactly | crates/oaie-cli/src/runner.rs:911-942 | for every limit and sum, the total exceeds the limit if and only if the last file collected is longer than what was left for it; below the largest limit the file was measured to fit, and while the files before it fit 64 bits the limit is exceeded by no more than that file grew |
| Outputs.LargestLimitIsNone | crates/oaie-cli/src/runner.rs:923-942 | with the largest limit two files that do not grow exceed it |
| Outputs.SteadyWithinLimit | crates/oaie-cli/src/runner.rs:923-942 | files that do not grow stay within every total limit but the largest |
| Outputs.GrowingFile | crates/oaie-cli/src/runner.rs:911-942 | one file measured within the limits and read later: the total limit is exceeded exactly when what is read is over it |
| Outputs.CopiedAtMostStored | crates/oaie-cli/src/session_runner.rs:1300-1363 | copying some of the collected files costs no more than storing all |
| Outputs.TicksKeepCap | crates/oaie-cli/src/session_runner.rs:1279-1363 | over any turns, no charge exceeds a bound on what the runs copied |
| Outputs.OutputOvershoot | crates/oaie-cli/src/session_runner.rs:1157-1185 | over every session whose runs collected steady files, the byte counter passes its budget by at most the store's total output limit |
| CasRace.NeverPublishedWrong | crates/oaie-cas/src/store.rs:249-349 | in every interleaving with failures and crashes, from any store, a final path never holds content whose hash differs from its name unless it did at the start |
| CasRace.BlobLostExactly | crates/oaie-cas/src/store.rs:300-333 | whatever else fails or crashes, a blob not corrupted at the start is lost at some point if and only if a writer of the same content failed to read it and then took its removal step |
| CasRace.StoredBlobsStay | crates/oaie-cas/src/store.rs:249-349 | a blob that is there, or that a returned `store` named, is there and correct at the end, unless a writer of the same content failed to read it and then removed it |
| CasRace.EveryInterleaving | crates/oaie-cas/src/store.rs:249-349 | both for every store to start from and every point of the run, digest by digest |
| CasRace.AllRepaired | crates/oaie-cas/src/store.rs:249-349 | from any store, whatever fails or crashes elsewhere: as long as no call of this content is cut off between removing and replacing the blob, and none is in between, the blob of a returned call is there and correct |
| CasRace.ReturnedIsStoredExactly | crates/oaie-cas/src/store.rs:249-349 | from any store, with any failures and crashes, the blob of a returned call is there and correct if and only if no call removed it without any call putting it back afterwards |
| CasRace.FinishesAlone | crates/oaie-cas/src/store.rs:249-349 | a call that is let alone returns with its blob there and correct, and no other file has changed |
| CasRace.CallsCanFinish | crates/oaie-cas/src/store.rs:249-349 | so it does from every reachable state in which it still has its temporary file |
| CasRace.FailedReadLosesBlob | crates/oaie-cas/src/store.rs:300-333 | for every hash and content, a failed read of an intact blob followed by a crash loses it |
| CasRace.LateRemovalLosesBlob | crates/oaie-cas/src/store.rs:300-333 | for every hash, content and corruption, with no read failing: two calls find the blob bad, the first replaces it and returns, the second removes the good blob and crashes |
| Hex.FromHexAfterToHex | crates/oaie-core/src/artifact.rs:74-104 | reading a printed hash gives it back |
| Hex.ToHexInjective | crates/oaie-core/src/artifact.rs:74-81 | different hashes print differently |
| Hex.DigitsOf | crates/oaie-core/src/artifact.rs:74-81 | two digits for each byte, the high one first |
| Hex.CanonicalIsLowerHex | crates/oaie-core/src/artifact.rs:83-104 | a string is printed back unchanged exactly when it is 64 lower-case digits |
| Hex.PathsAreDistinct | crates/oaie-cas/src/store.rs:82-85 | different hashes have different paths, in directories the listing enters, under a name that reads as the hash |
| BlobStore.CasStore.Rehash | crates/oaie-cas/src/store.rs:112-136 | hashing in pieces is hashing the whole |
| BlobStore.CasStore.Verify | crates/oaie-cas/src/store.rs:112-136 | missing, corrupted or intact |
| BlobStore.CasStore.Copy | crates/oaie-cas/src/store.rs:264-279 | the temporary file holds the concatenation of the chunks, or the beginning before the first chunk that failed |
| BlobStore.CasStore.Store | crates/oaie-cas/src/store.rs:249-349 | with any of its steps failing: it returns exactly when no step it needs fails; then the blob verifies, whatever stood at its path and whether or not a bad one could be removed, hash and size are those of the data, an intact blob and everything else is untouched; on failure at most a bad blob of the same name is gone; a temporary file stays only if its mode could not be set or its removal failed, and holds a beginning of the data |
| BlobStore.StoreTwice | crates/oaie-cas/src/store.rs:300-316 | storing the same data again gives the same hash and changes nothing |
| RunVerify.VerifyArtifactExistence | crates/oaie-cli/src/verify.rs:158-197 | names exactly the absent outputs |
| RunVerify.VerifyArtifactHashes | crates/oaie-cli/src/verify.rs:200-249 | names exactly the outputs that do not verify; which those are is fixed by `ReportMeaning.FindingsExactly` |
| RunVerify.FindMissing | crates/oaie-cli/src/verify.rs:343-355 | the positions of the absent chunks |
| RunVerify.FindCorrupted | crates/oaie-cli/src/verify.rs:376-388 | the positions of the corrupted chunks |
| RunVerify.VerifyChunks | crates/oaie-cli/src/verify.rs:343-406 | the checks that follow a readable trace index |
| RunVerify.VerifyTraceArtifacts | crates/oaie-cli/src/verify.rs:252-406 | the checks on a trace, with the ones skipped when an earlier one fails |
| RunVerify.VerifyRun | crates/oaie-cli/src/verify.rs:23-155 | the whole report of a run |
| RunVerify.ReportDependsOnObserved | crates/oaie-cli/src/verify.rs:23-155 | stores that agree on the blobs the verifier follows give the same report, with a missing manifest, index or trace included |
| RunVerify.LostBlobShows | crates/oaie-cli/src/verify.rs:158-406 | taking away any blob the verifier follows changes the report |
| ReportMeaning.MissingExactly | crates/oaie-cli/src/verify.rs:158-197 | the outputs reported missing are the absent ones, in order |
| ReportMeaning.FindingsExactly | crates/oaie-cli/src/verify.rs:200-249 | the findings are about the outputs that are there and unreadable or with content that does not hash to their name, in order, with the hash found |
| ReportMeaning.OutputChecksExactly | crates/oaie-cli/src/verify.rs:158-249 | the existence check passes exactly when every output is there, the hash check exactly when every output that is there is readable and hashes to its name |
| ReportMeaning.MissingChunksExactly | crates/oaie-cli/src/verify.rs:342-374 | the chunks reported missing are those with an unreadable hash or an absent blob, in order |
| ReportMeaning.CorruptedChunksExactly | crates/oaie-cli/src/verify.rs:376-406 | the chunks reported corrupted are those that can be read and do not hash to their name, in order |
| ReportMeaning.TraceChecksExactly | crates/oaie-cli/src/verify.rs:252-406 | no trace check fails exactly when no index is named, or it can be read and parsed, its chunks are there and none is wrong, and the chain over them holds |
| ReportMeaning.CleanReportExactly | crates/oaie-cli/src/verify.rs:23-155 | no check of a run fails exactly when its manifest parses, every listed output is there with the content its name says, the trace is sound and the signature check does not fail |
| ReportMeaning.CleanReportIsIntact | crates/oaie-cli/src/verify.rs:23-155 | a report without a failure: every output of the manifest and every chunk of the index is in the store and hashes to its name |
| ReportMeaning.IndexContentUnchecked | crates/oaie-cli/src/verify.rs:315-341 | another content of the index blob that parses as the same index leaves the report unchanged |
| Sweep.Mark | crates/oaie-cli/src/clean.rs:161-196 | the set of hash strings the runs refer to |
| Sweep.MarkRun | crates/oaie-cli/src/clean.rs:165-196 | what one run marks: its outputs, trace index, chunks and manifest, as far as they can be read; which blobs those are is fixed by `Sweep.MarksExactly` |
| Sweep.MarksExactly | crates/oaie-cli/src/clean.rs:165-196 | a run whose manifest parses marks exactly the blob of its recorded manifest hash, its artifacts, and the index and chunks its trace names in the printed spelling |
| Sweep.MarkTrace | crates/oaie-cli/src/clean.rs:175-190 | reading and parsing the index, a trace marks exactly the strings the verifier follows |
| Sweep.PresentIsListed | crates/oaie-cas/src/store.rs:140-177 | the listing finds every blob that is at its path |
| Sweep.ListedExactly | crates/oaie-cas/src/store.rs:140-177 | the listing holds exactly the files in directories named by two hex digits whose name reads as a hash, with their sizes, in order |
| Sweep.SweepBlobs | crates/oaie-cli/src/clean.rs:198-276 | the store loses exactly the unmarked, old, regular, removable blobs; scanned is removed plus retained; bytes freed is the sum over the removed |
| Sweep.SweepOne | crates/oaie-cli/src/clean.rs:208-272 | one entry: nothing marked, young, irregular or stuck is removed, and nothing else |
| Sweep.FreedIsLost | crates/oaie-cli/src/clean.rs:254-262 | if no second file's name reads as a removable hash, the bytes freed are what the files now gone held |
| Sweep.DryRun | crates/oaie-cli/src/clean.rs:198-276 | counts every removable entry and its bytes |
| Sweep.SweptExactly | crates/oaie-cli/src/clean.rs:198-276 | which blob is gone after a sweep and which is as before |
| Sweep.SweepNoticedExactly | crates/oaie-cli/src/clean.rs:154-276 | the report of a run changes if and only if the sweep takes a blob its verifier follows |
| Sweep.ObservedIsMarked | crates/oaie-cli/src/clean.rs:165-196 | every blob the verifier of a recorded run follows is marked, or named in another spelling only |
| Sweep.RecordedNoticedExactly | crates/oaie-cli/src/clean.rs:154-276 | the report of a recorded run changes if and only if its trace names a hash in another spelling and the sweep takes that blob |
| Sweep.SweepIsUnnoticed | crates/oaie-cli/src/clean.rs:154-276 | for every store, clock, age and set of failing removals, each recorded run with canonical hashes has the same report before and after |
| Sweep.OtherSpellingIsNoticed | crates/oaie-cli/src/clean.rs:176-190 | a recorded run whose index is named in capital letters: with the marks of that run, the sweep changes its report |
| Sweep.DryRunPredicts | crates/oaie-cli/src/clean.rs:198-276 | a dry run never announces fewer blobs or bytes than are removed, and the same number exactly when no second file's name reads as a removable hash |
| Sweep.ListedOnceExactly | crates/oaie-cas/src/store.rs:140-177 | a complete listing names a removable blob twice exactly when a second file's name reads as its hash |
| Sweep.TwoNamesMislead | crates/oaie-cli/src/clean.rs:198-276 | such a store is announced as two removals and loses one blob |
| Sweep.SecondNameExists | crates/oaie-core/src/artifact.rs:83-104 | a second name for a hash that the listing reads as the same hash |
| Sweep.PruneRuns | crates/oaie-cli/src/clean.rs:118-151 | keeps the runs from the cutoff on; a dry run counts the same and deletes none; the first deletion that fails ends it with the later runs still there |
| Sweep.KeptExactly | crates/oaie-cli/src/clean.rs:118-151 | exactly the runs created at the cutoff or later stay, in order |
| Sweep.PruningUnmarks | crates/oaie-cli/src/clean.rs:118-151 | pruning only removes marks |
| Sweep.DryRunWithPruningIsSafe | crates/oaie-cli/src/clean.rs:87-109 | whatever a dry run with pruning announces, the real run removes |
| Sweep.Clean | crates/oaie-cli/src/clean.rs:87-109 | prune, mark, list and sweep: a failed deletion or a failed listing stops before the sweep, and nothing else does; a blob is gone if and only if no run that is left keeps it and it is an old enough regular file that can be removed; of the runs that stay, exactly those with a swept blob in another spelling have a changed report |
| Sweep.SweepCleans | crates/oaie-cli/src/clean.rs:154-276 | after a sweep a blob is gone if and only if no run names it as manifest, artifact, index or chunk in the printed spelling, it is a regular file of the required age and its removal succeeds; everything else is as before |
| Sweep.NamedBlobsStay | crates/oaie-cli/src/clean.rs:154-276 | nothing a recorded run names is lost, and nothing young is |
| Base64.Encode | crates/oaie-firecracker/src/wire.rs:191-216 | the text decodes to the data |
| Base64.Decode | crates/oaie-firecracker/src/wire.rs:219-265 | group by group, an error in any group being an error of the whole |
| Base64.RoundTrip | crates/oaie-guest/src/main.rs:712-737 | decoding undoes encoding for every byte string |
| Base64.GroupMeaning | crates/oaie-firecracker/src/wire.rs:191-216 | the letters of a full group are its bytes' number in base 64 |
| Base64.EncodedLength | crates/oaie-firecracker/src/wire.rs:191-216 | four characters for every three bytes begun |
| Base64.OnlyAlphabet | crates/oaie-guest/src/main.rs:712-737 | only the 64 letters and padding, so JSON needs no escapes |
| Wire.ReceiveFramed | crates/oaie-firecracker/src/wire.rs:103-125 | a frame gives back its payload and leaves exactly what follows |
| Wire.ReceiveCut | crates/oaie-firecracker/src/wire.rs:103-125 | a frame cut after any byte gives no message |
| Wire.ReceivedExactly | crates/oaie-firecracker/src/wire.rs:103-125 | whatever arrives, a message is received if and only if the bytes begin with a big-endian length of at most 16 MiB and that many bytes that parse as it |
| Wire.ArrivingFrames | crates/oaie-firecracker/src/wire.rs:80-125 | a sequence of frames arrives as the sequence of messages |
| Wire.ArrivingCut | crates/oaie-firecracker/src/wire.rs:80-125 | cut after any byte, it arrives as a proper beginning of that sequence |
| Channel.JobCarried | crates/oaie-guest/src/main.rs:510-567 | no message of a job exceeds the frame limit, and a reader of plain JSON reads each back |
| Channel.Agent.SendMessage | crates/oaie-guest/src/main.rs:554-567 | one frame, or nothing over the limit |
| Channel.Agent.SendStream | crates/oaie-guest/src/main.rs:510-531 | all chunks of a stream, in order |
| Channel.Agent.ReportJob | crates/oaie-guest/src/main.rs:464-541 | both capped streams, then the exit |
| Channel.Vm.ReadExact | crates/oaie-firecracker/src/wire.rs:104-119 | exactly so many bytes, or the socket is used up |
| Channel.Vm.Recv | crates/oaie-firecracker/src/wire.rs:103-125 | end, broken frame or message, with the socket right behind the frame |
| Channel.Vm.HandleMessage | crates/oaie-firecracker/src/vm.rs:297-354 | what a message does to the two files and the byte count, or how it ends the job; every case is fixed by `Channel.ReactExactly` |
| Channel.Vm.RunJob | crates/oaie-firecracker/src/vm.rs:249-357 | the receive loop over any bytes and any clock: its result and both files are explained by the messages that arrived; the files together never exceed 1 GiB |
| Channel.ReactExactly | crates/oaie-firecracker/src/vm.rs:297-354 | one more message: an exit, a guest failure, a chunk that cannot be decoded or passes the cap, or anything unexpected ends the job with its own result; a trace event or another chunk goes on |
| Channel.JobExplained | crates/oaie-firecracker/src/vm.rs:249-357 | for any bytes and clock, everything before the turn at which the job ended was harmless and in time, the result is what that turn calls for, and each file holds the decoded chunks of its stream before it |
| Channel.ExitedExactly | crates/oaie-firecracker/src/vm.rs:249-357 | the job is reported as an exit with a code if and only if some arriving message says so, all before it are trace events or chunks that decode to at most 1 GiB together, and every turn up to it is in time |
| Channel.HostCap | crates/oaie-firecracker/src/vm.rs:279-315 | whatever arrives, the cap holds and written bytes stay |
| Channel.PiecesOf | crates/oaie-guest/src/main.rs:510-531 | the host decodes the chunks of a stream to consecutive pieces of it |
| Channel.StreamWritten | crates/oaie-firecracker/src/vm.rs:282-356 | a stream in chunks is written whole to its own file |
| Channel.JobDelivered | crates/oaie-firecracker/src/vm.rs:249-357 | in time, the files hold exactly the capped stdout and stderr and the result is the tool's exit code, whatever bytes follow |
| Channel.RunTool | crates/oaie-guest/src/main.rs:464-541 | the same for the agent's program followed by the host's |
| Channel.CutIsNoticed | crates/oaie-firecracker/src/vm.rs:282-356 | a connection cut after any byte, or a deadline at any turn, is never reported as an exit; each file holds a beginning of its stream, stderr only behind a complete stdout |
| Seccomp.Answers | crates/oaie-guest/src/main.rs:644-681 | every filter with in-range jumps that ends in a return answers every call, with one of its own values, in no more steps than it has instructions |
| Seccomp.FilterAdmissible | crates/oaie-guest/src/main.rs:664-681 | the filter is such a program |
| Seccomp.FilterDecides | crates/oaie-guest/src/main.rs:644-681 | its decision for every architecture, call number and 64-bit argument |
| ManifestToml.TomlEscape | crates/oaie-cli/src/session_runner.rs:1697-1719 | the loop builds the escaped string |
| ManifestToml.StringRead | crates/oaie-cli/src/session_runner.rs:1697-1719 | read as a TOML v1.0.0 basic string, the printed string is the original and ends at its own closing quote, whatever follows |
| ManifestToml.ArrayRead | crates/oaie-cli/src/session_runner.rs:1476-1478 | the printed argument array reads as the list and stops at its own bracket |
| ManifestToml.CallRead | crates/oaie-cli/src/session_runner.rs:1490-1499 | a printed call record reads as that record and nothing of what follows |
| ManifestToml.CallsRead | crates/oaie-cli/src/session_runner.rs:1482-1501 | no argument, call id or run id can add, remove or change a record |
| ShellQuote.OneWord | crates/oaie-cli/src/output.rs:180-192 | a quoted argument is one word of the POSIX shell, whatever its characters |
| ShellQuote.SplitAfterJoin | crates/oaie-cli/src/output.rs:102-108 | the shell splits the printed line into exactly the arguments |
| LikePrefix.PatternMeansPrefix | crates/oaie-db/src/sqlite.rs:385-393 | the escaped pattern matches exactly the ids that start with the prefix, up to ASCII case |
| LikePrefix.SelectsByPrefix | crates/oaie-db/src/sqlite.rs:394-407 | the query returns exactly those rows |
| LikePrefix.LookupIsExact | crates/oaie-db/src/sqlite.rs:377-425 | not found, the one run, or ambiguous, as the number of such ids dictates |
| Units.SizeRoundTrip | crates/oaie-core/src/policy.rs:898-922 | every 64-bit size is printed and read back exactly, without overflow |
| Units.SizeMeaning | crates/oaie-core/src/policy.rs:898-922 | any number with a suffix is multiplied by 2^10, 2^20 or 2^30, and refused over 64 bits |
| Units.ParseDuration | crates/oaie-core/src/policy.rs:928-996 | accepts exactly the strings that denote a positive number of seconds below 2^64, with that number |
| Units.FormatDuration | crates/oaie-core/src/policy.rs:1177-1197 | hours, minutes and seconds without zero parts |
| Units.HmsSeconds | crates/oaie-core/src/policy.rs:1177-1197 | the parts add up to the duration |
| Units.DurationRoundTrip | crates/oaie-core/src/policy.rs:1177-1197 | every positive whole number of seconds is printed and read back; zero is printed as a string the parser refuses |

## Left out

- SessionRunner.Supervisor.Run: the event writer is not a field of the supervisor; the supervisor keeps the emitted kinds and `SessionThenVerify` feeds them to the writer afterwards.
- SessionRunner.Supervisor.Turn: the states Starting and Stopping, heartbeat and rate clocks are not modelled; their outcome is part of each turn's observation.
- SessionRunner.Supervisor.DispatchToolCall: input files, artifact copying and approval prompts are outcomes in the request; the per-call timeout is not used by the runner and does not appear.
- SessionRunner.Supervisor.CheckBudgetWarnings: the 80 per cent thresholds are floating point and appear as arbitrary numbers.
- BlobStore.CasStore.Store: a write that fails leaves whole chunks in the temporary file; other calls in between belong to `CasRace`.
- Sweep.SweepBlobs: a sweep beside a concurrent `store` is not covered, since a deduplicated store does not refresh the age of a blob.
- Sweep.SweepIsUnnoticed: covers run verification; session logs and session manifests are not marked by the sweep.
- ReportMeaning.CleanReportIsIntact: takes it that the chain check fails on a chunk that cannot be read, as the chunk reader does; the index itself is not covered, see `IndexContentUnchecked`.
- RunVerify.VerifyRun: the trace event chain and the signature check are functions given as parameters.
- Channel.JobDelivered: JSON parsing is a parameter that reads the two printed messages back; write errors on the socket or the files are not modelled.
- Channel.Vm.RunJob: the read time-out per frame is part of the clock that is looked at once a turn; echoing to the terminal is left out.
- ShellQuote.SplitAfterJoin: covers word splitting and quote removal; a first word that looks like an assignment or a reserved word is still special to a shell.
- ManifestToml.CallsRead: the reader covers the printed shape of the records, not TOML as a whole; the scalar sections of the manifest are left out.
- LikePrefix.LookupIsExact: the text of the ambiguity message is left out.
- The guest's connection set-up, environment filtering and child process handling are process plumbing.
- Namespace, PTY, ptrace, eBPF and Firecracker backends, cgroups and policy presets: kernel plumbing or tables.
- Hash functions and signatures themselves, the SQL backends beyond the prefix query, `parse_timeout` (floating point).
