# Verified model of the client's stateful engines

This project models, in Dafny, the parts of the SDK that keep state over time or
work on raw bytes, and proves what they guarantee over whole runs.

* **Counter table and fold ladder** (`Counters`, `FoldLadder`, `CounterLadder`,
  `LosingRun`). A minute's counter rows live in an insertion-ordered table of at
  most 256 keys. Once it is full, an increment climbs a ladder that re-keys rows
  into coarser ones. `CounterTable` and the methods of `CounterLadder` update the
  table in place; they are proved against the functions of `FoldLadder`, and the
  theorems say which totals survive, and exactly when a total falls short.
* **Beacon reporter** (`ReporterState` and the `Reporter…` proofs,
  `WindowObjects`, `ReporterObjects`, `ReporterSessions`). `ReporterState` says what
  each operation does to the whole state, together with a history used only for
  accounting; `ReporterLedger` proves that history to be what the steps of the run
  amount to. `ReporterObjects` is the same thing as objects: a class whose methods
  change tables, windows, buffers and pace in place, each proved to do what
  `ReporterState` says. Runs are arbitrary interleavings of recorded calls,
  flushes, replies, transport failures and shutdown, with at most one batch in
  flight; a recorded call may come while a batch is in flight. `ReporterSessions`
  drives the objects through any such run, keeping track of the windows a batch in
  flight refers to.
* **Request recorder** (`CallRecorder`, `RecorderProofs`, `RecorderTheorems`) and
  **retry engine** (`RetryPolicy`, `Engine`, `EngineTheorems`, `EngineCoupling`,
  `Body`, `CallObjects`). The recorder keeps 16 attempt records and folds the
  rest; a history of every record stands beside it, and the proofs show that
  nothing is miscounted. The engine's loop runs against an environment that
  chooses every outcome. `CallObjects` has the recorder, the response body and the
  loop as classes and methods.
* **Receipt streams** (`ReceiptStream`, `ReceiptDigest`, `ReceiptRoundTrip`) and
  **canonical base64url** (`Base64Url`, sections 5 and 3.5 of RFC 4648).
* **Completion collector** (`Json`, `Choices`, `Collector`) and **rune-safe
  truncation** (`Truncate`, section 4 of RFC 3629).

`dafny verify dfyconfig.toml` checks everything.

What the proofs found about the code:

* Grand totals of a minute are not always exact, although the comment above the
  ladder (telemetry_reporter.go:752-757) says the counts stay exact. Merging bounds each count to
  10 000 000 before adding it, and re-keying puts a whole row through that bound.
  `FoldLadder.GrandExactIff` says exactly when a total is exact (no row over the
  bound when it was re-keyed), and `LosingRun.LosingLoses` is a run of increments of
  one request each on which it is not.
* On the ladder's last rung an increment is counted under the first row's class.
  `FoldLadder.LastRungIff` and `FoldLadder.LastRungMisplaces` say when and how, and
  `LosingRun.LastRungReached` gets there.
* If a window is pruned after it was selected, taking the batch out gives its bytes
  back a second time. It takes a minute that closes in the few seconds a POST is in
  flight while the byte limit is reached: `ReporterDrift.Drifts` has such a run for
  every encoding that shrinks when a row leaves, and
  `ReporterExactness.RetainedExactIff` says exactly on which runs the count stays
  right.

Times are integers (nanoseconds, or milliseconds where the code rounds to them).
Lengths of JSON encodings, the hash, and whether a payload is a receipt are
function parameters: nothing is assumed of them except where a lemma says so.
Random draws, clocks and network outcomes are parameters of the steps.

## Model

| member | source | states |
|---|---|---|
| Counters.AddHistogram | telemetry_reporter.go:269-276 | merging a histogram in whatever order its buckets come adds each known bucket's bounded count and no other |
| Counters.MergeAdds | telemetry_reporter.go:281-294 | a merge adds to every count and every histogram bucket exactly the increment's amount bounded to 0..10 000 000, and nothing for an unknown bucket |
| Counters.CounterTable.Get | telemetry_reporter.go:355-358 | finds a row exactly when some row of the ordered table has the key, and returns its counts |
| Counters.CounterTable.Set | telemetry_reporter.go:360-365 | replaces the row in its place, or appends a new one at the end |
| Counters.CounterTable.Delete | telemetry_reporter.go:367-380 | takes out exactly the row with the key, if there is one, and keeps the order of the others |
| CounterLadder.MergeIncrement | telemetry_reporter.go:281-294 | field by field, the new counts are the old ones plus the bounded increments, both histograms included |
| CounterLadder.FindMatch | telemetry_reporter.go:766-789 | the row picked for re-keying is the first whose key agrees with the increment's at that coarseness |
| CounterLadder.RekeyRow | telemetry_reporter.go:766-789 | re-keying moves one row to the end under its folded key with its counts merged into an empty row |
| CounterLadder.CounterTarget | telemetry_reporter.go:758-791 | in place: the table after the row that had to be re-keyed was, and the target key, are those of the climb that the ladder theorems are about |
| CounterLadder.AbsorbIncrement | telemetry_reporter.go:824-839 | one increment lands on the climb's target row, merged with what that row held |
| CounterLadder.MergeAll | telemetry_reporter.go:824-839 | increments with an unknown level or outcome are counted as drops; all others land, in order, under their normalised keys |
| FoldLadder.NormalisedKnown | telemetry_reporter.go:796-822 | every key counted is within the closed sets of the wire; normalising changes a key if and only if it is not, and only once |
| FoldLadder.ClimbSafe | telemetry_reporter.go:758-791 | a re-key moves one row to a key no live row has, keeps keys distinct and the row count at most 256, and every target is a live row or has room |
| FoldLadder.ClimbTotal | telemetry_reporter.go:758-791 | for every view of keys the landing keeps apart, the climb changes each class total by exactly what re-keying clipped, and the target is in the increment's own class |
| FoldLadder.RekeyTotal | telemetry_reporter.go:766-789 | re-keying to an absent key of the same class loses exactly what the count bound clips |
| FoldLadder.LastRungIff | telemetry_reporter.go:758-791 | the last rung is reached exactly when the table is full and no row shares the increment's key but for endpoint and error class |
| FoldLadder.LastRungMisplaces | telemetry_reporter.go:758-791 | on the last rung the increment adds to the first row's class and its own class stays as it was |
| FoldLadder.AbsorbWellFormed | telemetry_reporter.go:824-839 | merging keeps at most 256 rows under distinct keys |
| FoldLadder.AbsorbTotal | telemetry_reporter.go:824-839 | one increment raises its class total by its bounded counts, less exactly what was clipped, and no other class's |
| FoldLadder.RunTotal | telemetry_reporter.go:824-839 | over any run, class totals are those before plus the bounded increments, less exactly what re-keying clipped; for the grand total always, for classes without endpoint and error class until the last rung |
| FoldLadder.GrandExactIff | telemetry_reporter.go:281-294 | a run keeps a grand total exact if and only if no row was over 10 000 000 in it when it was re-keyed |
| LosingRun.LosingLoses | telemetry_reporter.go:758-791 | a run of accepted increments of one request each, more than ten million of them under one key, whose grand total falls short |
| LosingRun.LastRungReached | telemetry_reporter.go:758-791 | after 256 increments under keys of their own, an attempt-level increment reaches the last rung and is counted as a request |
| ReporterState.Victim | telemetry_reporter.go:694-706 | the evicted event is the oldest success, or the oldest event if no success is buffered |
| ReporterEvents.AppendEventOk | telemetry_reporter.go:694-714 | buffering one more event, evicting if full, keeps at most 1000, an exact byte count, arrival order, and of each kind the latest arrivals |
| ReporterEvents.RemoveEventsOk | telemetry_reporter.go:1003-1021 | acknowledging a batch leaves exactly the events not in it, an exact byte count, and of each kind still a suffix of the arrivals |
| ReporterEvents.PrefixAtFront | telemetry_reporter.go:892-902 | the selected events are at the front of the buffer, so no unselected event is before a selected one |
| ReporterWindows.PruneGives | telemetry_reporter.go:873-882 | pruning gives up a prefix of the windows, gives back exactly their bytes, and touches nothing else |
| ReporterWindows.PruneShortest | telemetry_reporter.go:873-882 | of sorted windows the prefix given up is the shortest that restores the age limit and the byte limit |
| ReporterWindows.CloseAged | telemetry_reporter.go:853-864 | closing a minute adds one window behind the others and then gives up a prefix; order, identity and byte accounting hold afterwards |
| ReporterWindows.RollAged | telemetry_reporter.go:720-731 | the same for rolling into a new minute |
| ReporterWindows.RemoveWindowsOk | telemetry_reporter.go:1022-1046 | after an acknowledgement every window has rows and the size of those rows, and the count drifts only by windows no longer retained |
| ReporterBatches.TrimFirstFit | telemetry_reporter.go:920-952 | trimming returns the first candidate along the trim order that fits the byte limit, and nothing exactly when none fits |
| ReporterBatches.TrimPrefix | telemetry_reporter.go:888-952 | a batch's events and rows are prefixes of those offered and stay aligned with its wire items |
| ReporterBatches.RemovedSelected | telemetry_reporter.go:1022-1035 | taking out a prefix of the flattened rows removes those rows with the values they had when selected, and nothing from newer windows |
| ReporterBatches.WireExactIff | telemetry_reporter.go:318-347 | a row's counts go on the wire unchanged if and only if they are within the wire bounds |
| ReporterPace.BackoffStep | telemetry_reporter.go:983-1001 | one more failure takes the base from min(60·2^k, 600) s to the next; the wait is 60 to 600 s and at least any hint |
| ReporterPace.PolicySlower | telemetry_reporter.go:1069-1093 | a policy never raises the sample rate, never shortens the flush interval, keeps it in 30 to 600 s, and never moves the pause back |
| ReporterLedger.CallWrites | telemetry_reporter.go:653-690 | a recorded call that is heard merges exactly its accepted increments, buffers exactly its sampled event, and drops exactly its unaccepted increments, an unusable sample, an event evicted and the rows pruned |
| ReporterBalance.FlushBalanced | telemetry_reporter.go:888-952 | selecting a batch keeps the balance |
| ReporterBalance.ReplyBalanced | telemetry_reporter.go:1109-1135 | every kind of reply keeps the balance |
| ReporterLedger.ListensUntil | telemetry_reporter.go:653-658 | a recorded call is heard exactly until the client is closed or an answer turns the reporter off |
| ReporterLedger.LedgerIsRun | telemetry_reporter.go:653-1173 | in every run, what was merged, buffered, re-keyed, delivered, refused, released, pruned, dropped, reported and forgotten is what the steps of the run amount to, read off the steps |
| ReporterLedger.RunBalanced | telemetry_reporter.go:653-1173 | after any interleaving of steps, the increments of the calls that were heard equal, in every measure, current table + closed windows + rows delivered, refused, pruned and released + what re-keys clipped |
| ReporterLedger.EventsAccounted | telemetry_reporter.go:694-714 | after any run, every sampled event that was heard is buffered, was evicted from a full buffer, left in an answered batch, or was released |
| ReporterRuns.NextGood | telemetry_reporter.go:653-1173 | every step keeps the whole invariant: buffers, windows, byte counts, drops, pace, and the batch in flight being a prefix of what it was selected from |
| ReporterRuns.RunGood | telemetry_reporter.go:653-1173 | that invariant holds in every reachable state |
| ReporterLedger.Bookkeeping | telemetry_reporter.go:694-731 | in every reachable state the event bytes are exact, at most 1000 events are held, window bytes are exact up to drift and at most 524 288, buffered events of each kind are the latest of those the run sampled, and every drop of the run is pending, reported or forgotten |
| ReporterTheorems.RetainedExact | telemetry_reporter.go:866-882 | with no in-flight prune the retained byte count is exactly that of the closed windows, whatever the encoding |
| ReporterExactness.RetainedExactIff | telemetry_reporter.go:1028-1035 | if encodings shrink when rows leave, the count is exact after every step of a run if and only if no batch is taken out after one of its windows was pruned |
| ReporterExactness.TakeOutExactIff | telemetry_reporter.go:1022-1046 | one acknowledgement keeps the accounting exactly when every window it names is still retained, and otherwise subtracts too much |
| ReporterDrift.Drifts | telemetry_reporter.go:1028-1035 | for every encoding that shrinks when a row leaves: if n minutes of calls fit the byte limit, one more does not, and a row fits a batch, then a 202 within the five seconds of a POST, during which a minute closes, leaves fewer bytes counted than are retained |
| ReporterDrift.DriftsFor | telemetry_reporter.go:1028-1035 | one such run: half a kilobyte a row, one row a minute, 1024 minutes |
| ReporterTheorems.AcknowledgedRows | telemetry_reporter.go:1003-1046 | the rows an acknowledgement takes out are, in order and value for value, the selected rows whose windows are still retained; the rest are a leading part of the batch |
| ReporterTheorems.DeliveredIsWire | telemetry_reporter.go:1109-1121 | a 202 with no in-flight prune delivers exactly the rows on the wire if their counts fit the wire bounds, and takes out exactly the events sent |
| ReporterTheorems.RunBackoff | telemetry_reporter.go:983-1001 | over any run the backoff base is min(60·2^k, 600) s for the k failures since the last 202 |
| ReporterTheorems.FailureWaits | telemetry_reporter.go:983-1001 | after a failure the deadline is one to ten minutes on, and no earlier than a bounded Retry-After |
| ReporterTheorems.NoPostBefore | telemetry_reporter.go:1139-1173 | no POST starts before the backoff or the pause deadline, over any steps whose flushes come earlier |
| ReporterTheorems.RunSlower | telemetry_reporter.go:1069-1093 | from any reachable state on, the sample rate never rises, the interval never falls and stays in 30 to 600 s, the pause never moves back |
| ReporterTheorems.DisabledAbsorbs | telemetry_reporter.go:1097-1106 | once disabled the reporter stays disabled with empty buffers and posts nothing |
| ReporterMinutes.SettleTurned | telemetry_reporter.go:888-891 | rolling, closing and pruning before a selection close at most the current minute, give up a prefix of the windows with it, and give back exactly their bytes and count exactly their rows as drops |
| ReporterPruning.SettleShortest | telemetry_reporter.go:853-882 | of the three prunes before a selection, the prefix given up in all is the shortest that restores both limits |
| ReporterPruning.RunPrunesShortest | telemetry_reporter.go:853-882 | in any run under a clock that never goes back, every recorded call that closes a minute and every flush that selects leaves the windows and the minute just closed less exactly the shortest prefix that restores both limits; no other step but an answer changes the windows |
| WindowObjects.RemoveRows | telemetry_reporter.go:1022-1027 | deleting the selected rows one by one from shared tables leaves each window without exactly the keys selected from it |
| WindowObjects.Resize | telemetry_reporter.go:1028-1035 | each affected window is resized once and the count falls by what all of them gave back, orphaned windows included |
| WindowObjects.DropEmpty | telemetry_reporter.go:1036-1046 | exactly the emptied windows leave the list, order kept |
| ReporterObjects.TakeRows | telemetry_reporter.go:903-915 | the rows taken are the first two hundred of all windows, oldest first, each referring to the object of its window |
| ReporterObjects.TelemetryReporter.BufferEvent | telemetry_reporter.go:708-714 | in place: a full buffer first gives up its oldest success (or oldest event) and counts a drop, then the event is appended; windows are untouched |
| ReporterObjects.TelemetryReporter.PruneWindows | telemetry_reporter.go:873-882 | in place: the age loop and then the byte loop drop windows from the front, counting their rows as drops; the list that is left is a suffix |
| ReporterObjects.TelemetryReporter.CloseCurrentWindow | telemetry_reporter.go:853-864 | the current table becomes the table of a new window, a fresh one takes its place, and retention is enforced |
| ReporterObjects.TelemetryReporter.RollWindow | telemetry_reporter.go:720-731 | the first call starts a minute, a later minute closes the one before, an earlier one does nothing |
| ReporterObjects.TelemetryReporter.Record | telemetry_reporter.go:653-690 | a call after disabling or shutdown changes nothing; otherwise the minute rolls, counters merge, and the sampled event is buffered or counted as dropped; at most one new window is added, on the table that was current, and the list keeps a suffix |
| ReporterObjects.TelemetryReporter.TrimBatch | telemetry_reporter.go:920-952 | the trimming loop shortens wire items and what they refer to together, and ends as `ReporterBatches.TrimFirstFit` says |
| ReporterObjects.TelemetryReporter.SelectBatchNow | telemetry_reporter.go:888-952 | the minute is closed and retention enforced first; the batch selected is, item by item, the first fit, and its rows refer to the objects of the windows now retained; at most one of those is new |
| ReporterObjects.TelemetryReporter.RemoveBatch | telemetry_reporter.go:1003-1046 | on objects shared with the batch in flight: sent events and rows are gone, emptied windows too, and bytes of windows no longer retained are subtracted again |
| ReporterObjects.TelemetryReporter.SetBackoffFor | telemetry_reporter.go:983-1001 | in place: the deadline is now plus the longer of base and hint, capped at 600 s, and the base doubles within 60 to 600 s |
| ReporterObjects.TelemetryReporter.FollowPolicy | telemetry_reporter.go:1069-1093 | in place: each field of a policy is taken only where it slows the reporter down, and nothing but the pace changes |
| ReporterObjects.TelemetryReporter.DisableNow | telemetry_reporter.go:1097-1106 | disabling empties every buffer and forgets the pending drops |
| ReporterObjects.TelemetryReporter.HandleResponse | telemetry_reporter.go:1109-1135 | each reply delivers, refuses, disables or backs off, and the whole state after it is the one the run theorems step to; the windows kept are among those there were |
| ReporterObjects.TelemetryReporter.BeginFlushNow | telemetry_reporter.go:1139-1173 | a flush selects only with a key and past both deadlines, and otherwise changes nothing; what it selects refers to the windows now retained |
| ReporterSessions.FlightOrphans | telemetry_reporter.go:1022-1035 | the windows a batch in flight refers to are the retained ones and, of those given up since, exactly the ones selected from, all different objects on different tables |
| ReporterSessions.FlushSession.OnRequest | telemetry_reporter.go:653-690 | a call recorded while a batch is in flight does what the value-level step does and leaves the batch with all the windows it refers to |
| ReporterSessions.FlushSession.Flush | telemetry_reporter.go:1139-1173 | a flush selects unless one is in flight, and the batch in flight is then the one selected, row by row |
| ReporterSessions.FlushSession.Answer | telemetry_reporter.go:1109-1135 | the answer is acted on for the batch in flight, whatever was recorded and given up since it was selected |
| ReporterSessions.Drive | telemetry_reporter.go:653-1173 | for any sequence of steps, the objects end in exactly the state of the run the theorems quantify over |
| RecorderProofs.FoldSettles | telemetry.go:1232-1257 | folding the last record past the cap makes the overflow total every settled record, once each |
| RecorderProofs.StoreInv | telemetry.go:1202-1228 | storing a record, whether it replaces the last or is new, keeps the bounded records and the overflow in step with the full history |
| RecorderProofs.DoInv | telemetry.go:937-1392 | every callback, lost ones included, keeps that invariant |
| RecorderTheorems.EmittedTotals | telemetry.go:1298-1392 | the attempt rows handed over total, for every class of key and every measure, what one row per attempt would; the event holds the first 16 records and the request row counts all attempts |
| RecorderTheorems.RunCounts | telemetry.go:1298-1392 | after any run, for every key, the emitted attempt rows count exactly the attempts whose latest record has it, and exactly those of them after which the call moved |
| RecorderTheorems.SinkAtMostOnce | telemetry.go:1298-1311 | whatever the callbacks, the sink is called at most once |
| RecorderTheorems.PlayFinal | telemetry.go:937-960 | records of attempts no longer in flight never change again |
| RecorderTheorems.HeadersHonest | telemetry.go:1400-1483 | a header is numbered by the attempts begun before it, and if it reports a previous attempt it says what the final history says of exactly that one, even if records were lost |
| RetryPolicy.RetryAfterSeconds | retry_policy.go:78-106 | a hint is within 0 to 60 s |
| RetryPolicy.HintOrder | retry_policy.go:78-106 | the millisecond header wins if it is finite and not negative, then the one in seconds; either is cut at 60 s; without a usable one there is no hint |
| RetryPolicy.RetrySleepBounds | transport.go:519-544 | a sleep is at least the bounded hint, at most a minute, and at most half a minute without a hint |
| EngineTheorems.RetrySafety | transport.go:111-272 | at most maxRetries + 1 sends under one key; a further send only if replay-safe and after a transport error or a retryable status; one candidate further at most, and only after a transport error or a 502, 503 or 504 without a false verdict; at most a minute of sleep per retry |
| EngineTheorems.RunSends | transport.go:111-272 | from any point of a run the budget bounds the sends left, and each is licensed by the one before |
| EngineTheorems.RunNaps | transport.go:519-562 | every sleep of a run lies between the bounded hint of the answer before it and a minute |
| EngineTheorems.FailoverOnlyWhere | transport.go:204-271 | runs that differ only in failover flag and candidates send equally often, sleep on the same hints and end the same way |
| EngineTheorems.PinnedStays | transport.go:204-271 | with the flag off or one candidate every send goes to the first |
| EngineTheorems.CallKey | transport.go:112-121 | a call has one key on every send: the caller's, or the one minted before the first; a call that mints may be replayed whatever its verb, and one without a key whose verb is not safe is sent at most once |
| EngineCoupling.EngineMatchesRecorder | transport.go:111-272 | recorded attempts are the sends, each under the name of its candidate; as many moved as the final candidate's index; the sink has heard once, or not yet if a response was returned |
| EngineCoupling.RunTold | transport.go:111-272 | the same from any point of a run on |
| Body.CallReportedOnce | telemetry.go:1507-1568 | however a returned body is read, stopped and closed, once closed the sink has heard of a recordable call exactly once |
| Body.CallReportedAtMostOnce | telemetry.go:1507-1568 | the sink hears of a call at most once whatever is done with the body |
| CallObjects.RequestRecorder.BeginAttempt | telemetry.go:937-960 | the index advances and the host fails closed before anything that can go wrong |
| CallObjects.RequestRecorder.OnResponse | telemetry.go:986-1018 | in place: a status below 400 is ok and any other an HTTP error, and the record becomes the latest of its attempt |
| CallObjects.RequestRecorder.OnTransportError | telemetry.go:1027-1104 | in place, a failed attempt keeps what the headers of the same attempt said |
| CallObjects.RequestRecorder.StoreAttempt | telemetry.go:1202-1228 | the record replaces all records of its attempt, or is kept while there is room, and the counts follow |
| CallObjects.RequestRecorder.FinishCall | telemetry.go:1298-1392 | the first finish of a recordable call folds the last record and hands over event and counters; any later one does nothing |
| CallObjects.RequestRecorder.CurrentHeader | telemetry.go:1400-1483 | no header without a named host, past attempt 99, or when the attempt before left no record; otherwise its outcome, class, host and times |
| CallObjects.Call | transport.go:144-272 | the loop's sends, sleeps, result, final candidate and everything it tells the recorder are those of the run the engine theorems quantify over |
| CallObjects.CallMinting | transport.go:111-121 | a call that mints does so once, before the loop, and only if the caller gave no key |
| CallObjects.TelemetryBody.ObserveReadError | telemetry.go:1507-1532 | end of file only marks the body; the first other error records the failure and finishes the call |
| CallObjects.TelemetryBody.Close | telemetry.go:1536-1548 | closing before the end of the body after the caller's context ended counts as an abort; closing always finishes the call |
| ReceiptStream.NextEnds | receipts.go:842-861 | an event that is found ends with the earliest blank line after the offset, in either spelling |
| ReceiptStream.EndsNext | receipts.go:842-861 | and the earliest blank line, wherever it is, ends the event that is found |
| ReceiptStream.EndsExtends | receipts.go:842-861 | the earliest blank line stays the earliest whatever bytes follow |
| ReceiptStream.ScanResumes | receipts.go:1272-1290 | scanning on from where an earlier scan stopped finds what one scan of everything would |
| ReceiptStream.ReceiptCapture.Read | receipts.go:1224-1234 | after each read, wire, scan position and receipt are those of one scan of all bytes so far |
| ReceiptStream.ReceiptCapture.RefreshReceipt | receipts.go:1272-1290 | the loop finds every complete event after the scan position and keeps the last receipt |
| ReceiptStream.ReadAll | receipts.go:1224-1234 | however a stream is split into reads the capture ends up the same |
| ReceiptStream.DecodeReceiptSSEEvent | receipts.go:863-906 | an event decodes to its one data field and optional event field, and is refused on a repeated or unknown field |
| ReceiptStream.DecodeClean | receipts.go:863-906 | no decoded name or payload contains a line feed |
| ReceiptDigest.ReceiptStreamDigest | receipts.go:778-840 | the loop over offset and flags returns the digest, or the first refusal, of the pass that the acceptance theorem characterises |
| ReceiptDigest.AcceptedIff | receipts.go:778-840 | a stream is accepted if and only if it is zero or more data events of the domain, the verified receipt and the end marker with nothing left over; the count and the hashed bytes are those of the data events |
| ReceiptDigest.TerminatedUnique | receipts.go:816-832 | pieces without line feeds are determined by their newline-terminated concatenation |
| ReceiptDigest.ReceiptBinds | receipts.go:778-840 | two streams accepted in one domain under one hash carry the same events in the same order, if the hash tells their two preimages apart |
| ReceiptRoundTrip.DecodeSpelled | receipts.go:863-906 | an event written out in fields decodes to itself |
| ReceiptRoundTrip.RoundTrip | receipts.go:842-906 | the written form of any events whose fields fit on a line is split and decoded back to those events, with nothing left over |
| ReceiptRoundTrip.SpelledAccepted | receipts.go:778-840 | any such data events followed by the receipt and the end marker are accepted, counted and hashed |
| Base64Url.ReceiptB64URLDecode | receipts.go:991-1005 | the character loop and the re-encoding check together return bytes exactly for the strings the theorems below characterise |
| Base64Url.DecodeEncode | receipts.go:991-1005 | decoding the encoding of a non-empty byte string gives it back |
| Base64Url.AcceptedIff | receipts.go:991-1005 | exactly the unpadded encodings of non-empty byte strings are accepted |
| Base64Url.DecodeInjective | receipts.go:991-1005 | encoding a decoded string gives it back, so no two accepted strings decode alike |
| Base64Url.AcceptedSpelling | receipts.go:991-1005 | acceptance spelled out: non-empty, the alphabet only, no lone last digit, zero bits at the end of a short group |
| Json.MergedAt | chat_types.go:567-596 | each key of an object is merged on its own; a null never erases |
| Json.MergeCompletionField | chat_types.go:567-596 | the merge is the same in whatever order a nested object's keys come |
| Json.MergeAll | chat_types.go:456-461 | so is merging all the fields of a delta |
| Choices.StateParts | chat_types.go:438-497 | a choice has the last role and the last non-empty finish reason that came, and all its text in order |
| Choices.ExtraParts | chat_types.go:456-461 | each extra field of a choice and of its message is the merge of that field's values alone |
| Choices.ToolParts | chat_types.go:462-492 | there is a tool for every index called; its arguments are that index's fragments in order, its name, id and type the last non-empty ones |
| Choices.InterleavingFree | chat_types.go:401-555 | two streams with the same deltas for each choice collect to the same choices |
| Choices.SwapNeighbours | chat_types.go:401-555 | deltas of different choices that arrive the other way round collect to the same thing |
| Collector.ChoiceState.AddToolCall | chat_types.go:462-492 | in place: only the slot of the call's index changes; id, type and name are replaced when not empty, arguments are appended |
| Collector.ChoiceState.Absorb | chat_types.go:450-497 | in place: role, text, extras, tool calls and finish reason of the choice take in one delta |
| Collector.ChoiceState.Report | chat_types.go:512-546 | content is absent exactly when empty with tool calls; tools are listed in order of index; the finish reason defaults to stop; log probabilities leave the extras |
| Collector.SortedKeys | chat_types.go:506-510 | the keys, taken in any order, come out ascending, each once |
| Collector.ExtraLatest | chat_types.go:435-437 | of each unknown top-level field the last value that arrived stands |
| Collector.CollectCompletion | chat_types.go:401-555 | one choice for every index seen, or just 0, in order of index, each the fold of its own deltas; the envelope keeps the last non-blank of each field and the last value of each unknown field, the router's metadata in its place |
| Truncate.TruncateString | errors.go:346-360 | the backward walk of at most three bytes cuts exactly before the well-formed character that crosses the limit, if one does, and at the limit otherwise |
| Truncate.LongestPrefix | errors.go:346-360 | of well-formed text it keeps the longest well-formed prefix that fits |
| Truncate.TruncatedBounds | errors.go:346-360 | of any bytes it keeps a prefix within three bytes of the smaller of limit and length, and all of them exactly when they fit |
| Truncate.ShortIff | errors.go:346-360 | bytes short of the limit are given up if and only if a well-formed character crosses it |
| Truncate.NestedTruncation | errors.go:189-194 | truncating the detail first and then the whole is truncating the whole once |
| Truncate.SafeErrorMessage | errors.go:229-239 | a missing error and a panicking one have fixed messages; any other is truncated |
| Truncate.TransportRetryError | errors.go:189-194 | the message is one truncation of prefix and full detail, at most 2048 bytes, starts with the prefix, and is well formed if the detail is |

## Left out

- ReporterTheorems.RetainedExact: one direction, because it holds for any encoding length at all; the if-and-only-if needs encodings that shrink when a row leaves, and is `ReporterExactness.RetainedExactIff`.
- ReporterTheorems.DeliveredIsWire: one direction; which rows go on the wire unchanged is the if-and-only-if of `ReporterBatches.WireExactIff`, and which rows leave in general is `ReporterTheorems.AcknowledgedRows`.
- ReporterPruning.RunPrunesShortest: assumes the times of the steps do not decrease, as the code does (telemetry_reporter.go:862); without that the windows need not be sorted.
- ReceiptDigest.ReceiptBinds: takes as a hypothesis that the hash tells these two preimages apart; the hash itself is a parameter.
- FoldLadder.RunTotal: per-class totals are claimed only for runs whose landings keep the class apart; what the last rung does instead is `FoldLadder.LastRungMisplaces`.
- Goroutines, mutexes, the worker's timers, wake-ups and the final flush on close: the reporter is atomic steps with an explicit time, at most one batch in flight.
- HTTP, TLS, sockets, contexts and cancellation: outcomes of an attempt are given by the environment; the open timer is the flag `openTimedOut`.
- Encoding of batches to JSON and failures of it: lengths are functions; a batch that cannot be encoded is not modelled, nor is the envelope around events and counters beyond sequence number and drops.
- The decision whether an event is sampled, and the wire form of events: a recorded call comes with the outcome of sampling.
- Object identity of events and windows on the value level: ids stand for it; the classes have real objects.
- Floating point: rates, hints and delays are exact reals, a number that is not finite is a case of its own, and saturation of durations and of time differences is not modelled.
- Classification of transport errors (telemetry.go:299-590): the class is given with the error.
- Panics inside the recorder: a callback may be lost as a whole, and naming the host may fail; a panic halfway through folding is not modelled.
- CallObjects.RequestRecorder.CurrentHeader: gives the header as a record of its fields; its rendering as text, the limit of 160 bytes and the character filter (telemetry.go:1469-1482), which can only withhold a header, are not modelled.
- Limits on model names and request ids by regular expression, and the identity strings of the SDK.
- Calls with telemetry turned off, which have no recorder: the engine theorems do not depend on one.
- Building the request and minting random keys: failure to build is a flag, the key is a parameter (`Engine.WithKey`).
- Parsing of receipts, signatures, claims, attestation and hosts: whether a payload is a receipt is a function.
- Sharing of nested maps between chunks and the collected result: JSON values are immutable trees.
- Tool-call indexes held as Go integers or `json.Number`: an index is a JSON number truncated toward zero, of any size.
- Collector.CollectCompletion: how the `trustedrouter` metadata is put together from the chunks (chat_types.go:598-687) is a function parameter.
- Codecs for unknown fields, sessions, login, billing, catalog and the other thin client calls, which would add only easy members.
