# ForgeSight

ForgeSight moves machine readings along a pipeline: MQTT to ingestion to Postgres, an alarm
engine and an API server that poll the database by row id, and a Qt client with an offline
cache, an alarm queue, a device table and a 3D plant view. This project models the parts of
it that carry an algorithm or a protocol and proves what they promise.

The database, SQLite, the network and the clock appear as steps that succeed or fail and as
abstract tables, files and messages; numbers are `real`; the text a number or a date prints
as is a parameter (where it says so below, a number text has a digit and no brace, as every
finite number printed by a stream has). Readings and alarms are taken to get their ids in commit order, as
`alarm-engine/include/alarm-engine/reading_cursor.h:22` and
`api/src/device_service.cpp:248-250` say.

| file | what it models |
|---|---|
| `ThreadPool.dfy` | the ingestion thread pool, every interleaving of its atomic sections |
| `DbWriter.dfy` | the batched database writer and its multi-row insert |
| `RuleEvaluator.dfy` | alarm messages made by in-place replacement, rule evaluation |
| `MessageLaws.dfy`, `DefaultSentence.dfy`, `StoredTemplates.dfy` | what the replacement passes amount to; the default sentence; what becomes of stored templates |
| `CommitLog.dfy`, `Sequences.dfy` | an append-only table read through an id cursor; taking sequences apart |
| `AlarmPoll.dfy`, `AlarmPollLaws.dfy`, `ApiPoll.dfy` | the poll loops of the alarm engine and of the API server |
| `History.dfy` | downsampling of a reading history |
| `RuleTables.dfy`, `RuleTableLaws.dfy` | rules and alarms under transactional deletes and concurrent sessions |
| `OfflineCache.dfy`, `OfflineCacheLaws.dfy`, `DeviceModel.dfy` | the write-behind cache and the device table it restores |
| `OfflineAck.dfy`, `OfflineAckLaws.dfy` | acknowledging alarms through a queue over a lossy network |
| `WsClient.dfy` | reconnecting with back-off |
| `CsvExport.dfy` | the CSV writer, and a reader after section 2 of RFC 4180 |
| `KeyOrder.dfy`, `PlantGeometry.dfy`, `PlantLayout.dfy`, `PlantLayoutLaws.dfy`, `PlantOrderLaws.dfy` | the layout of the plant view |
| `PlantPicking.dfy` | picking a pillar with the cursor ray |
| `Replay.dfy`, `ReplayLaws.dfy` | scaling and replaying recorded data sets |

Code that changes state is modelled by classes and methods with the same fields, branches and
loops; each is proved equal to a specification function, and the lemmas are about that
function. What a state-changing method leaves of each field is also spelled out in its contract,
and for every protocol there are laws over whole runs that mention the calls and their answers
only, so that neither rests on the specification functions. `dafny verify dfyconfig.toml` checks everything.

Where the code does not do what one would expect of it, the model follows the code and says
exactly when the expectation holds:

- The write-behind cache keys its pending saves by device id, the character U+001F and sensor.
  It is indistinguishable from a cache that writes at once exactly when no device id in use is
  another one followed by that character.
- The five replacement passes of an alarm message can rewrite what an earlier pass inserted. A
  device, sensor or number text is safe in the template of every rule exactly when no later
  placeholder occurs in it or begins at its end (for number texts the failing half needs a
  brace, which no stream prints). With brace-free texts, a template gives the
  message filled at once exactly when none of its stray braces has become a placeholder by the
  time of that placeholder's pass.
- Rules loaded for polling never carry a message template (the query at
  `alarm-engine/src/alarm_store.cpp:239-241` does not select the column), although templates
  are stored at `alarm-engine/src/alarm_store.cpp:141-145`. Every alarm raised by the poll loop
  therefore uses the default template. For every rule, and whatever way numbers print with a
  digit and without braces: a stored template has the effect it asks for exactly when, once the
  two names and the severity are put in and the rest is cut into characters and number
  placeholders, it gives the same tokens as the default template. An empty template always does.
- The default template itself shows the device name and the sensor as they are exactly when
  neither holds `{value}`, `{threshold}` or `{severity}`, and the device name does not hold
  `{sensor}` (unless the sensor is called just that).
- The ray test treats a direction component below 1e-9 as zero. For every box it follows the
  true ray, from every origin, exactly when no component is tiny without being zero.
- SECOM rows that are too short for a column are skipped, so later values move onto the
  anomaly flags of earlier rows. Every step shows the value and the flag of its own row exactly
  when the short rows come last.
- An acknowledgement clicked while offline is shown as queued. It is held through every later
  run exactly when the cache file is open or the id was queued or acknowledged before.
- A queued acknowledgement can still be cleared exactly when its alarm is not acknowledged yet or
  the one success is on its way to an open cache; otherwise it stays in the queue for ever,
  because the server answers 404 from then on.
- `escape_csv` does not quote a carriage return, and writes every other character as it comes,
  such as the degree sign of the temperature unit at `simulators/config.yaml:11`. Section 2 of
  RFC 4180 allows printable ASCII, and CR and LF only in quotes. A reader that keeps to that
  section (but for taking a bare LF as a line end) reads an export back exactly when every text
  is printable ASCII with CR and LF, and every text with a carriage return also holds a comma, a
  quote or a newline; a reader that takes other characters as they come always does.
- A batch whose insert fails is dropped, and `flush` still counts its readings.
- Under the older NO ACTION foreign key, a rule delete whose statements all work fails exactly
  when another session writes an alarm for the rule between the UPDATE and the DELETE, unless no
  alarm referred to the rule before and a session deletes the rule as a whole meanwhile.

## Model

| member | source | states |
|---|---|---|
| ThreadPool.AcceptedTasksAreConserved | ingestion/src/thread_pool.cpp:20-54 | in every interleaving of submitters, workers and shutdown callers, each accepted task is queued, running or finished, exactly once |
| ThreadPool.StartedInSubmissionOrder | ingestion/src/thread_pool.cpp:24-30 | tasks are started in the order they were submitted |
| ThreadPool.NothingAcceptedAfterShutdown | ingestion/src/thread_pool.cpp:39-42 | once shutdown is requested no schedule accepts another task |
| ThreadPool.StoppingExactlyWhenAsked | ingestion/src/thread_pool.cpp:5-10 | over every schedule the flag is set if and only if the pool has no threads or some shutdown was requested |
| ThreadPool.AcceptedExactlyBeforeShutdown | ingestion/src/thread_pool.cpp:37-51 | over every schedule exactly the submissions before the first shutdown request are accepted, and none by a pool without threads |
| ThreadPool.ShutdownRequestStops | ingestion/src/thread_pool.cpp:56-63 | a shutdown request anywhere in a schedule leaves the pool stopping, with nothing accepted after it |
| ThreadPool.ResolvedAsTheTaskEnded | ingestion/src/thread_pool.cpp:43-50 | each future is resolved by the worker that ran its task, with the outcome of that task |
| ThreadPool.JoinedMeansDrained | ingestion/src/thread_pool.cpp:56-68 | when every worker has returned the queue is empty and each accepted task's future is resolved exactly once |
| ThreadPool.QueuedTaskIsNeverStranded | ingestion/src/thread_pool.cpp:24-30 | no lost wake-up: while a task is queued, a worker can move or a notification that wakes one is still owed |
| ThreadPool.ShutdownMakesProgress | ingestion/src/thread_pool.cpp:20-33 | from the moment the flag is set, 2·queued + running + live workers strictly falls on every worker step and changes on no other |
| ThreadPool.ShutdownTerminates | ingestion/src/thread_pool.cpp:56-68 | from the moment the flag is set, however the threads are scheduled: worker steps and the owed broadcast are bounded by that number and one, and when none is possible all workers have returned |
| ThreadPool.StepInv | ingestion/src/thread_pool.cpp:20-68 | every atomic step keeps the invariant behind these results (order, single start, wake-ups owed) |
| ThreadPool.Pool.SubmitSection | ingestion/src/thread_pool.cpp:38-51 | the locked part of submit is the model's step; it refuses exactly when the pool is stopping |
| ThreadPool.Pool.WorkerLoopSection | ingestion/src/thread_pool.cpp:23-30 | the locked part of the worker loop (wait, return or pop) is the model's step |
| ThreadPool.Pool.RunTask | ingestion/src/thread_pool.cpp:43-50 | running a task resolves its own promise, with a value or an exception |
| ThreadPool.Pool.ShutdownSection | ingestion/src/thread_pool.cpp:56-63 | the flag is set by every call, the first one owes the broadcast and goes on to join, and nothing else changes |
| DbWriter.BuildInsert | ingestion/src/db_writer.cpp:107-166 | group i of the statement holds the placeholders 6i+1 to 6i+6, and parameter 6k+j is the field of reading k that belongs in the j-th column the statement names |
| DbWriter.EachPlaceholderOnce | ingestion/src/db_writer.cpp:107-129 | the placeholders of a batch of n are 1 to 6n, each used once |
| DbWriter.InsertStoresBatch | ingestion/src/db_writer.cpp:131-170 | row i of the insert is reading i of the batch, column by column |
| DbWriter.RunConserves | ingestion/src/db_writer.cpp:83-101 | over every run of writes and flushes with any inserts failing: accepted readings are, in order, the batches sent followed by the buffer, which stays below the batch size; no batch is empty or too large |
| DbWriter.BatchesAreAsAnswered | ingestion/src/db_writer.cpp:83-101 | each call of a run sends one batch exactly if it fills the batch or flushes something, and the batch is committed exactly if the insert worked |
| DbWriter.StoredOrFailed | ingestion/src/db_writer.cpp:172-178 | each reading sent is stored or was in a failed batch, as often as it was sent |
| DbWriter.HealthyRunStoresAll | ingestion/src/db_writer.cpp:94-101 | if no insert fails, a final flush leaves exactly the accepted readings in the table, in order |
| DbWriter.DbWriter.Write | ingestion/src/db_writer.cpp:83-92 | refused without a connection; otherwise buffers, and sends the batch when it is full; the result says whether an insert failed |
| DbWriter.DbWriter.Flush | ingestion/src/db_writer.cpp:94-101 | sends what is buffered and returns its size, even if the insert fails |
| DbWriter.DbWriter.InsertBatch | ingestion/src/db_writer.cpp:103-179 | the buffer becomes one batch and is emptied whatever the database answers |
| RuleEvaluator.Find | alarm-engine/src/rule_evaluator.cpp:55 | the position found is the leftmost occurrence from the start on, and none is found exactly if there is none |
| RuleEvaluator.ReplaceInPlace | alarm-engine/src/rule_evaluator.cpp:53-59 | the in-place loop ends, even when the replacement is longer than the placeholder, and equals the recursive leftmost replace-all |
| RuleEvaluator.FormatMessage | alarm-engine/src/rule_evaluator.cpp:47-75 | the message is the five passes in source order over the template, or over the default one if the rule has none |
| MessageLaws.PassFillsOneSlot | alarm-engine/src/rule_evaluator.cpp:61-72 | one pass fills exactly the holes of its own placeholder and leaves all else, if it meets no stray brace that has become one |
| MessageLaws.SequenceEqualsAtOnce | alarm-engine/src/rule_evaluator.cpp:47-75 | for templates of brace-free literals and placeholders and for safe texts, the five successive replacements equal simultaneous substitution |
| MessageLaws.BraceFreeTextsAreSafe | alarm-engine/src/rule_evaluator.cpp:61-72 | brace-free device, sensor, value and threshold texts are safe |
| MessageLaws.TextSafeExactlyWhenInert | alarm-engine/src/rule_evaluator.cpp:47-75 | for every rule, reading and number text: a device, sensor or number text is rendered as it is by every regular template and next to all safe texts if and only if no later placeholder occurs in it or begins at its end |
| MessageLaws.UnsafeTextIsRewritten | alarm-engine/src/rule_evaluator.cpp:47-75 | for every other text, a rule with a regular template and a reading that fires it whose message differs |
| MessageLaws.SeverityTextIsSafe | alarm-engine/src/rule_evaluator.cpp:72 | the three severity texts are safe |
| MessageLaws.TemplateSafeExactly | alarm-engine/src/rule_evaluator.cpp:53-72 | for every template and all brace-free texts: the five passes equal simultaneous substitution if and only if no stray brace begins a placeholder at the time of that placeholder's pass |
| MessageLaws.MessageIsAtOnceExactly | alarm-engine/src/rule_evaluator.cpp:47-75 | the same of the message of a rule and reading |
| MessageLaws.StrayBraceRule | alarm-engine/src/rule_evaluator.cpp:47-75 | a rule with the template "{{device}" whose message for the reading 7 is "7" and not "{value}" |
| DefaultSentence.DefaultInParts | alarm-engine/src/rule_evaluator.cpp:43-72 | for all texts: the message of the default template is device, sensor, value, phrase and threshold in that order, each as the passes after its own leave it standing alone |
| DefaultSentence.DefaultMessageExactly | alarm-engine/src/rule_evaluator.cpp:43-75 | for all names, and numbers that print with a digit and without braces: a rule without a template gives the sentence with its texts as they are if and only if neither name holds a number's or the severity's placeholder and the device name holds that of the sensor only if the sensor is called just that |
| DefaultSentence.PhraseNamesTheSide | alarm-engine/src/rule_evaluator.cpp:26-39 | the phrase names the side of the threshold on which the readings lie that fire the rule |
| DefaultSentence.SeverityIsNamed | alarm-engine/src/rule_evaluator.cpp:72 | the severity placeholder shows info, warning or critical |
| RuleEvaluator.EvaluateAll | alarm-engine/src/rule_evaluator.cpp:77-104 | one alarm for each rule that fires, at ascending positions of the rule list, every field of it spelled out |
| RuleEvaluator.AlarmsInRuleOrder | alarm-engine/src/rule_evaluator.cpp:77-104 | the alarms are, in ascending position, those of exactly the rules whose device, sensor and condition fit, each with that rule's id and severity, the reading's device, sensor, value and time, its message, and not acknowledged |
| RuleEvaluator.ConditionsFit | alarm-engine/src/rule_evaluator.cpp:7-21 | the five conditions are two pairs of opposites and an equality that holds where both inclusive ones do, and they follow the order of the values |
| RuleEvaluator.FiringKeepsExactlyTheFiring | alarm-engine/src/rule_evaluator.cpp:84-88 | every rule that matches and holds is kept as often as it is listed, and no other rule is |
| CommitLog.BetweenIsExact | alarm-engine/src/reading_cursor.cpp:21-24 | reading an id interval yields each row of it once, in id order, and nothing else |
| CommitLog.AfterReadsToTheEnd | alarm-engine/src/reading_cursor.cpp:21-45 | a fetch after a cursor yields everything up to the greatest id, and is empty exactly if there is nothing beyond the cursor |
| CommitLog.PollExtends | alarm-engine/src/reading_cursor.cpp:11-49 | what was read stays what it was when the table grows, and one more fetch extends it to the end |
| AlarmPoll.PollLoop | alarm-engine/main.cpp:114-168 | for every run of ticks with failing or succeeding catch-ups, loads, fetches and writes: the readings evaluated are exactly the rows in (first successful catch-up, last_id], each once and in order, each by the first fetch that could see it and under the rules last loaded by then; a fetch that succeeds leaves nothing unread |
| AlarmPoll.EveryRowOnce | alarm-engine/main.cpp:148-162 | a row of the table is evaluated if and only if its id is past the first successful catch-up and not past the cursor, and no row is evaluated twice |
| AlarmPollLaws.EvaluatedExactly | alarm-engine/main.cpp:130-162 | over every run: a row is evaluated if and only if the table seen by the first successful catch-up did not hold it and some successful fetch since then did |
| AlarmPollLaws.RulesInForceAreLastLoaded | alarm-engine/main.cpp:141-146 | the rules in force are those stored at the last load that worked since the catch-up, or else the initial ones |
| AlarmPollLaws.AttemptsAreTheFirings | alarm-engine/main.cpp:148-162 | over every run the alarms attempted are, in the order of the readings and then of the rules, one for every reading evaluated and every rule stored and in force at its fetch that fires on it, with every field spelled out |
| AlarmPoll.KeptAreTheAccepted | alarm-engine/main.cpp:157-160 | the alarms written are the attempts at exactly the positions where the insert worked, in order |
| AlarmPoll.AttemptsAreDefaultWorded | alarm-engine/main.cpp:141-160 | every alarm attempted in any run is raised by a rule stored and in force when its reading was fetched, which fires on that reading, and has the message that the default template gives for that rule and reading, whatever template is stored |
| AlarmPoll.TryLoadRules | alarm-engine/src/alarm_store.cpp:235-265 | a load that works returns every stored rule, in order, without its template |
| AlarmPoll.LoadRules | alarm-engine/src/alarm_store.cpp:267-272 | at startup a load that fails leaves no rules |
| StoredTemplates.MessageRenders | alarm-engine/src/rule_evaluator.cpp:47-75 | for every rule, whatever braces its template and names hold: the message of a firing reading is its wording, fixed by what is stored, with the numbers filled in at once |
| StoredTemplates.LatePasses | alarm-engine/src/rule_evaluator.cpp:64-72 | over any string, the passes of value, threshold and severity equal simultaneous substitution, because no number can complete a placeholder |
| StoredTemplates.HonouredExactlyWhenDefault | alarm-engine/src/alarm_store.cpp:239-261 | for every rule: its alarms read as the stored template asks, for every reading that fires it and all number texts with a digit and no brace, if and only if the template with names and severity put in is, token for token, the default template with names and severity put in; for names that are kept, that is the default sentence |
| StoredTemplates.LoadedWordingIsSentence | alarm-engine/src/rule_evaluator.cpp:43-51 | a loaded rule is worded by the plain sentence if and only if its names are kept |
| StoredTemplates.EmptyTemplateIsHonoured | alarm-engine/src/alarm_store.cpp:239-261 | a rule stored without a template loses nothing, whatever its texts and however numbers print |
| StoredTemplates.StoredTemplateIsIgnored | alarm-engine/src/alarm_store.cpp:239-261 | a stored rule with the template "hot" and a reading whose alarm has the default sentence instead |
| StoredTemplates.StrayTemplateIsHonoured | alarm-engine/src/alarm_store.cpp:239-261 | for the device "sensor}", the template "sensor} {{device} value {value} ..." is honoured although it is not the default one |
| AlarmPoll.TickKeepsSound | alarm-engine/main.cpp:130-162 | every tick keeps that statement |
| AlarmPoll.FreshRow | alarm-engine/main.cpp:148-161 | a row fetched in a tick was in no table that an earlier successful fetch saw |
| AlarmPoll.InForceNext | alarm-engine/include/alarm-engine/rule_reload.h:17-22 | a successful load replaces the rules, a failed one keeps them, and none is attempted before there is a cursor |
| AlarmPoll.Poll | alarm-engine/main.cpp:130-162 | one pass of the loop has exactly the effect the run statement is about |
| AlarmPoll.EvaluateBatch | alarm-engine/main.cpp:153-162 | the alarms attempted are those of each reading in order, and the cursor ends at the last row |
| AlarmPoll.WriteAlarms | alarm-engine/main.cpp:157-160 | the alarms written are exactly the attempts the database accepted; a failed insert is not tried again |
| ApiPoll.ChannelIsExact | api/src/api_server.cpp:90-121 | over every run of a channel with any queries failing, the ids broadcast are exactly those between the start cursor and the current one, each once and in id order, and a fetch that succeeds leaves nothing |
| ApiPoll.CursorNeverDecreases | api/src/api_server.cpp:97-104 | a cursor once set stays set and never decreases |
| ApiPoll.CursorCoversWindow | api/src/device_service.cpp:208-225 | when the window query succeeds the start cursor lies below every row of the catch-up window and directly below one of them, and an empty window replays nothing |
| ApiPoll.FallbackReplaysNothing | api/src/device_service.cpp:228-237 | when the window query fails the start is the greatest id, so that nothing in the table is replayed, and there is no start if that query fails too |
| ApiPoll.SentRowsAreFetched | api/src/api_server.cpp:97-104 | every row broadcast is a row as some successful fetch returned it |
| ApiPoll.FirstInWindowIsLeast | api/src/rule_service.cpp:192-198 | the id the query selects is the least id in the window, if there is one |
| ApiPoll.ApiServer.OnTimer | api/src/api_server.cpp:91-121 | each timer tick extends both channels, so that cursors and broadcasts are always those of the whole life of the server |
| ApiPoll.ApiServer.Start | api/src/api_server.cpp:85-88 | both channels begin with their catch-up lookups and nothing sent |
| ApiPoll.WindowIsBroadcastOnce | api/src/api_server.cpp:80-121 | from startup on, every row of the catch-up window is broadcast exactly once in each run with a fetch that succeeds, whatever else fails |
| ApiPoll.LaterWindowIsBroadcastOnce | api/src/api_server.cpp:91-121 | if no lookup worked before some tick and that tick's does, every row of its window is broadcast exactly once in each run with a fetch that succeeds from there on |
| History.KeptIsFilter | api/src/device_service.cpp:159-171 | the rows kept are exactly those the query's condition admits, in order |
| History.SmallWindowsAreWhole | api/src/device_service.cpp:167-176 | nothing is dropped if the window fits or no cap is given |
| History.EndsAndAnomaliesSurvive | api/src/device_service.cpp:150-171 | the first row, the last row and every anomaly are kept |
| History.GapsWithinStride | api/src/device_service.cpp:168 | two successive kept rows are at most ceil(total / max_points) apart |
| History.StrideIsCeiling | api/src/device_service.cpp:168 | the stride is the least step that covers the window with max_points steps |
| History.AtMostOneOver | api/src/device_service.cpp:150-171 | at most max_points + 1 rows that are not anomalous are kept |
| History.OneOverIsReached | api/src/device_service.cpp:168-170 | that bound is reached for every max_points |
| RuleTables.RunKeepsAlarms | api/src/rule_service.cpp:71-182 | over every interleaving of creates, edits, deletes, alarm writes and acks, also between the statements of a delete: an alarm's rule is empty or exists, and no alarm row is dropped, reworded, un-acknowledged or moved to another rule |
| RuleTableLaws.EveryChangeHasACause | api/src/rule_service.cpp:71-182 | over every interleaving: a rule's row is one it was created or edited with and a rule goes only by a delete of it; an alarm appears only as written, open and for its rule, is acknowledged only by an acknowledgement of it and detached only by a delete of its rule |
| RuleTables.DeleteAloneTouchesNothingElse | api/src/rule_service.cpp:131-182 | with no other session at work, a delete that succeeds takes away its rule, clears the references to it and changes no other row, column or sequence; one that fails changes nothing |
| RuleTables.DeleteRemovesExactlyTheRule | api/src/rule_service.cpp:131-182 | a delete that succeeds removes the rule and detaches all its alarms; every other rule, and every reference to it, stays unless another session deletes that rule meanwhile |
| RuleTables.FailedDeleteChangesNothing | api/src/rule_service.cpp:160-180 | a delete that fails at any statement leaves its rule, every other rule and every reference as they are but for what other sessions delete |
| RuleTables.DeleteSucceedsExactly | alarm-engine/src/alarm_store.cpp:193-218 | with no failing statement a delete succeeds always under SET NULL, and under NO ACTION exactly if no other session writes an alarm for the rule after the UPDATE or, no alarm having referred to it, one deletes the whole rule |
| RuleTables.DeletedRuleWritesNothing | alarm-engine/src/alarm_store.cpp:294-305 | a deleted rule's id is never given out again and no alarm can be written for it |
| RuleTables.DeletedRuleGainsNothing | alarm-engine/src/alarm_store.cpp:45-49 | between the DELETE and the COMMIT no row can come to refer to the rule |
| RuleTables.Database.DeleteRule | api/src/rule_service.cpp:131-182 | the transaction, statement by statement with other sessions committing in between: when it succeeds, and the tables it leaves in either case |
| RuleTables.Database.WriteAlarm | alarm-engine/src/alarm_store.cpp:274-306 | an alarm row is written exactly if the insert works and its rule still exists |
| RuleTables.Database.CreateRule | api/src/rule_service.cpp:71-101 | a new rule gets the next id of the sequence, and -1 reports that nothing was stored |
| RuleTables.Database.UpdateRule | api/src/rule_service.cpp:103-129 | editing a missing rule reports success and changes nothing |
| RuleTables.Database.AcknowledgeAlarm | api/src/rule_service.cpp:298-315 | an ack succeeds exactly for an existing alarm that is not acknowledged yet |
| OfflineCache.TransparentExactlyWhenSeparated | ui/src/offline_cache.cpp:17-169 | for every disk and every run of open, save, timer, flush and load, loads return what a cache that writes at once would, if and only if no device id in use is another one followed by U+001F |
| OfflineCache.RunRefines | ui/src/offline_cache.cpp:43-169 | over every run: loads agree with the plain cache, a closed cache has nothing pending, and something pending means the timer runs |
| OfflineCacheLaws.LoadReturnsTheLastSaves | ui/src/offline_cache.cpp:43-169 | after any run over separated ids a load returns for each id the last state saved while the open file was open, or else its row on the initial disk |
| OfflineCacheLaws.FilesHoldTheLastSaves | ui/src/offline_cache.cpp:43-136 | the same of every file, once what is pending is written; the files are those there were and those opened |
| OfflineCacheLaws.WrittenOnceAndForAll | ui/src/offline_cache.cpp:101-136 | after a flush, the timer, a load or an open nothing is pending, and the files hold it all |
| OfflineCache.SeparatorFreeIsSeparated | ui/src/offline_cache.cpp:17-19 | device ids free of U+001F qualify |
| OfflineCache.LosingRunLoses | ui/src/offline_cache.cpp:88-99 | any two device ids of the bad form have a run that loses a save |
| OfflineCache.SeparatedKeys | ui/src/offline_cache.cpp:17-19 | for such ids different devices or sensors never share a pending key |
| OfflineCache.OfflineCache.WritePending | ui/src/offline_cache.cpp:106-136 | writing the pending saves in any order gives the same table, the one where each save replaces its row |
| OfflineCache.OfflineCache.Open | ui/src/offline_cache.cpp:43-58 | pending saves go to the old file, row by row, before the new one is opened, whether that works or not; no existing file is changed otherwise, and only a missing one becomes empty |
| OfflineCache.OfflineCache.SaveDeviceState | ui/src/offline_cache.cpp:88-99 | a save is kept under its key, replacing an earlier one, and arms the timer; a closed cache ignores it |
| OfflineCache.OfflineCache.FlushNow | ui/src/offline_cache.cpp:101-104 | flushing stops the timer and leaves nothing pending |
| OfflineCache.OfflineCache.OnTimeout | ui/src/offline_cache.cpp:25-27 | the single-shot timer flushes when it runs out and is not armed after that |
| OfflineCache.OfflineCache.LoadDeviceStates | ui/src/offline_cache.cpp:146-169 | a load writes what is pending first and returns the whole table, or nothing if closed |
| DeviceModel.DeviceModel.UpdateDevice | ui/src/device_model.cpp:52-95 | after any history the table has one row per key in first-seen order, with its last reading and the latest place of its device or "Unassigned"; the announced state is that row |
| DeviceModel.DeviceModel.UpdateDeviceMeta | ui/src/device_model.cpp:97-114 | the same after a metadata change, which reaches every row of the device |
| DeviceModel.DeviceModel.FindDevice | ui/src/device_model.cpp:170-176 | finds the row of a key, and -1 exactly if the key has none |
| DeviceModel.DeviceModel.ClearAll | ui/src/device_model.cpp:153-160 | the table is emptied; places are remembered |
| DeviceModel.RestoreRebuilds | ui/app/main.cpp:84-91 | a cold start makes one row per cached key, with the reading cached for it |
| DeviceModel.PlaceIsTheLastGiven | ui/src/device_model.cpp:97-114 | the place of a device is that of its last metadata, or "Unassigned" if there was none |
| DeviceModel.ReadingIsTheLastGiven | ui/src/device_model.cpp:52-95 | the reading of a key is that of its last update |
| DeviceModel.KeysAreThoseUpdated | ui/src/device_model.cpp:52-95 | the keys with a row are those updated since the table was last cleared, in the order of their first updates |
| DeviceModel.StaysInStep | ui/app/main.cpp:108-112 | while the cache stays open on one file, every row's reading is the one the cache would return for its key |
| DeviceModel.ColdStartStaysInStep | ui/app/main.cpp:84-112 | restored from the cache and then kept live, the table never disagrees with the cache about a reading |
| OfflineAck.NoQueuedAckIsLost | ui/src/offline_cache.cpp:171-208 | with lost requests and replies, restarts that leave requests behind whose answers nobody hears, other clients and repeated flushes: an ack ever queued is still queued or acknowledged at the server, and at most one request per alarm is answered ok |
| OfflineAck.AckIsNeverUndone | api/src/rule_service.cpp:307-312 | an acknowledgement is never undone |
| OfflineAckLaws.AckHasACause | api/src/rule_service.cpp:298-315 | an alarm becomes acknowledged only by a request for it that the server carries out |
| OfflineAckLaws.OnlineClickSends | ui/app/qml/AlarmPanel.qml:360-372 | a click while connected puts one request on its way and changes nothing else |
| OfflineAckLaws.OnlineClickAcknowledges | ui/app/qml/AlarmPanel.qml:360-372 | if that request and its reply get through, an open alarm is acknowledged and its entry and mark are cleared |
| OfflineAckLaws.RequestHasACause | ui/app/main.cpp:116-135 | over every run nothing is queued or sent for an alarm nobody clicked on |
| OfflineAckLaws.ClearingHasACause | ui/src/offline_cache.cpp:184-195 | an entry leaves the queue only by a success that is received |
| OfflineAckLaws.SuccessHasACause | ui/src/api_client.cpp:301-310 | a success is sent only for a request that was carried out and reported, on an alarm that was open |
| OfflineAckLaws.ShownExactly | ui/app/qml/AlarmPanel.qml:360-372 | over every run the panel marks an alarm as queued if and only if it was clicked on offline and there was neither a restart nor a success since |
| OfflineAck.OfflineClickIsHeldExactlyWhenOpen | ui/app/qml/AlarmPanel.qml:360-372 | in every reachable state: a click while offline is shown as queued, and is in the queue or at the server through every later run if and only if the cache is open or the id was queued or acknowledged already |
| OfflineAck.ClosedCacheForgetsClick | ui/src/offline_cache.cpp:171-173 | a click with the cache closed is sent by no later reconnect or restart |
| OfflineAck.QueueDrainsExactly | ui/app/main.cpp:114-135 | some run clears a queued id if and only if its alarm is not acknowledged or the success is on its way to an open cache |
| OfflineAck.LostAnswerStaysQueued | ui/src/api_client.cpp:301-310 | an id that cannot be cleared any more stays queued in every further run |
| OfflineAck.RoundTripClears | ui/app/main.cpp:116-135 | one reconnect, request and reply that get through acknowledge an open alarm and clear its entry |
| OfflineAck.AckQueue.QueueAck | ui/src/offline_cache.cpp:171-182 | the queue gains the id if the cache is open, and a change is announced exactly if there is one |
| OfflineAck.AckQueue.ClearAck | ui/src/offline_cache.cpp:184-195 | the queue loses the id if the cache is open, and a change is announced exactly if there is one |
| OfflineAck.AckQueue.SendPending | ui/app/main.cpp:125-133 | a reconnect sends every queued id once |
| WsClient.DelayIsCappedPower | ui/src/ws_client.cpp:87-91 | the delay is min(1000·2^k, 30000) ms for every k; capping the exponent changes nothing |
| WsClient.DelayGrowsWithinBounds | ui/src/ws_client.cpp:87-91 | delays are monotone and within [1000, 30000] |
| WsClient.DropArmsTheTimerExactly | ui/src/ws_client.cpp:133-144 | over every sequence of events: a drop arms the timer, with the delay of its streak, if and only if nobody has switched reconnecting off or disconnected the client without taking it back and there is an address; otherwise the timer stays as it is |
| WsClient.TimerMeansWanted | ui/src/ws_client.cpp:93-144 | over every sequence of events an armed timer means auto-reconnect on, no manual disconnect and not connected, and a connected client has an empty streak |
| WsClient.WsClient.OnDisconnected | ui/src/ws_client.cpp:133-144 | a drop with auto-reconnect on, no manual disconnect and an address arms the timer with the delay of the count and counts one more; any other leaves both; the settings stay |
| WsClient.WsClient.OnConnected | ui/src/ws_client.cpp:124-131 | connecting disarms the timer and starts the count again; the settings stay |
| WsClient.WsClient.ConnectToServer | ui/src/ws_client.cpp:93-105 | disarms the timer and ends a manual disconnect, unless there is no URL; nothing else changes |
| WsClient.WsClient.DisconnectFromServer | ui/src/ws_client.cpp:107-112 | leaves the timer disarmed, the count at 0 and the disconnect on record; address and auto-reconnect stay |
| WsClient.WsClient.TryReconnect | ui/src/ws_client.cpp:114-122 | a timer that runs out opens the socket exactly if it is idle and there is a URL; nothing else changes |
| WsClient.WsClient.SetAutoReconnect | ui/src/ws_client.cpp:46-53 | turning auto-reconnect off disarms the timer; nothing else changes |
| WsClient.WsClient.SetUrl | ui/src/ws_client.cpp:35-40 | a new address changes nothing else |
| CsvExport.EscapeCsv | ui/src/csv_export.cpp:8-15 | a field with a comma, quote or newline is quoted with its quotes doubled; any other is unchanged |
| CsvExport.ToText | ui/src/csv_export.cpp:17-27 | the text is the header line and one line of six fields per point, in order |
| CsvExport.FieldReadBack | ui/src/csv_export.cpp:8-15 | a reader after RFC 4180 section 2 gets a field text back and stops where it ends, or fails if the reader is strict and a character of the text is not allowed in a field of its kind, quoted or not |
| CsvExport.RowReadBack | ui/src/csv_export.cpp:21-25 | a line of escaped fields is read back as those fields if each of them is accepted, and not at all otherwise |
| CsvExport.ExportReadsBack | ui/src/csv_export.cpp:17-27 | for a reader that takes characters outside section 2 as they come, the export reads back as the six column names and exactly one record per point, in order, field by field, with "true" for an anomaly and "false" otherwise, for all device, sensor and unit texts |
| CsvExport.StrictReaderReadsBackExactly | ui/src/csv_export.cpp:8-27 | a reader that keeps to RFC 4180 section 2, TEXTDATA included, does so if and only if every text is printable ASCII with CR and LF and every text with a carriage return also holds a comma, a quote or a newline, and rejects the file otherwise |
| CsvExport.CarriageReturnIsNotQuoted | ui/src/csv_export.cpp:9-14 | an export with a device named "a", carriage return, "b", which that reader rejects |
| CsvExport.DegreeSignIsNotText | ui/src/csv_export.cpp:9-14 | an export with the unit "°C", which that reader rejects and the tolerant one reads back |
| CsvExport.ExportIsInjective | ui/src/csv_export.cpp:17-27 | two different histories never export to the same text |
| KeyOrder.KeysInOrder | ui/src/plant_layout.cpp:34-45 | walking a sorted map visits its keys once each in ascending order |
| KeyOrder.AscendingUnique | ui/src/plant_layout.cpp:28-31 | there is only one ascending list of a set of keys |
| KeyOrder.LessAtFirstDifference | ui/src/plant_layout.cpp:28-31 | strings are ordered by the code units at their first difference, a prefix first |
| PlantGeometry.CeilRootIsLeast | ui/src/plant_layout.cpp:51-52 | the column count before clamping is the least c with 5c² >= 8n |
| PlantGeometry.ColumnsAreLeast | ui/src/plant_layout.cpp:50-52 | the column count is the least allowed one that suits the device count, or the maximum |
| PlantGeometry.CellInside | ui/src/plant_layout.cpp:70-82 | a grid cell lies at least half a step inside its zone |
| PlantGeometry.ZonesDisjoint | ui/src/plant_layout.cpp:58-91 | of any two zones one lies beyond the other along x or z, by the configured gap |
| PlantGeometry.DevicesPlaced | ui/src/plant_layout.cpp:71-87 | every cell is inside its own zone and any two cells are a whole step apart in x or in z |
| PlantOrderLaws.CellsInReadingOrder | ui/src/plant_layout.cpp:70-82 | the devices of a floor stand in reading order from the top left corner of a grid centred in the zone, one step apart |
| PlantOrderLaws.RowsAreLeast | ui/src/plant_layout.cpp:53 | a floor has just as many rows as its devices need |
| PlantOrderLaws.WidthIsTheWidest | ui/src/plant_layout.cpp:55 | a plant is as wide as its widest grid |
| PlantLayout.Group | ui/src/plant_layout.cpp:28-31 | grouping puts each device under its plant and floor, in input order, and nothing else |
| PlantLayout.SortAscending | ui/src/plant_layout.cpp:47-49 | with distinct keys the devices of a floor end up in strictly ascending key order |
| PlantLayout.SortKeeps | ui/src/plant_layout.cpp:47-49 | sorting keeps every device |
| PlantLayout.Layout.Normalise | ui/src/plant_layout.cpp:10-21 | the sensor's range widens to hold the value, and the height is the value's place in it |
| PlantLayout.Layout.PlaceFloor | ui/src/plant_layout.cpp:70-87 | the grid loop places the floor's devices on its cells and counts its critical ones |
| PlantLayout.Layout.SizePlant | ui/src/plant_layout.cpp:43-56 | floors get their columns and rows, and the plant is as wide as its widest floor |
| PlantLayout.Layout.PlacePlant | ui/src/plant_layout.cpp:58-90 | the floors of a plant are stacked with the zone gap between them |
| PlantLayout.Layout.PlacePlants | ui/src/plant_layout.cpp:33-92 | the plants are set side by side with the plant gap between them |
| PlantLayout.Layout.Centre | ui/src/plant_layout.cpp:94-112 | everything is shifted by the middle of the zones' bounding box |
| PlantLayout.Layout.Arrange | ui/src/plant_layout.cpp:23-114 | the nested loops equal the closed form of the scene that the laws below are about |
| PlantLayout.AfterPlantsInClosedForm | ui/src/plant_layout.cpp:33-92 | the running positions of the loops in closed form |
| PlantLayout.HeightsFollowValues | ui/src/plant_layout.cpp:18-20 | within one range heights are ordered as the values are and evenly spread, from 0.15 at its lower to 1 at its upper end; in a range without extent the height is 0.575 |
| PlantLayout.RangesBracketJustEnough | ui/src/plant_layout.cpp:11-17 | the running ranges bracket every value and their bounds are values that occurred |
| PlantLayoutLaws.SceneIsTidy | ui/src/plant_layout.cpp:33-92 | every device stands inside the zone of its own plant and floor, zones never overlap, two devices are at least `spacing` apart in x or in z |
| PlantOrderLaws.ZonesFollowOneAnother | ui/src/plant_layout.cpp:33-92 | in every scene the zones run through plants and floors in ascending order of their names, floors below one another exactly at the zone gap and equally wide, plants beside one another exactly at the plant gap and flush at the top |
| PlantOrderLaws.ZonesCountTheirDevices | ui/src/plant_layout.cpp:67-85 | every zone gives the number of input devices of its plant and floor, and of the critical ones among them |
| PlantOrderLaws.FloorIsSorted | ui/src/plant_layout.cpp:47-49 | with distinct keys the devices of a floor ascend by id and then by sensor |
| PlantLayoutLaws.SceneIsCentred | ui/src/plant_layout.cpp:94-112 | the scene's bounding box, touched by a zone on each side, is centred on the origin |
| PlantLayoutLaws.FlatKeepsEveryDevice | ui/src/plant_layout.cpp:29-31 | the scene holds exactly the devices of the input, each as often as it was given |
| PlantLayoutLaws.ZoneCountsAddUp | ui/src/plant_layout.cpp:67-85 | zone counts and critical counts add up to the input's |
| PlantLayoutLaws.PositionsIgnoreReadings | ui/src/plant_layout.cpp:23-114 | with distinct keys, positions are the same for any order of the input and any values and critical flags |
| PlantLayoutLaws.HeightsInRange | ui/src/plant_layout.cpp:18-20 | every height is in [0.15, 1] |
| PlantLayoutLaws.RangesBracketAllFrames | ui/src/plant_layout.cpp:10-17 | over any number of frames the ranges bracket every value ever shown |
| PlantLayoutLaws.SettledHeightsFollowValues | ui/src/plant_layout.cpp:10-20 | from the second layout of the same input on, the pillars of one sensor are ordered as their values are, strictly if its range is wide enough |
| PlantLayoutLaws.SecondFrameIsSettled | ui/src/plant_layout.cpp:10-20 | laying out the same input again leaves the ranges alone, and every height is then the value's place in its sensor's range |
| PlantPicking.RayBox | ui/app/qml/PlantView3D.qml:351-366 | -1 only if no t in [0, 1e9] hits; otherwise the least non-negative t at which the ray is in the box |
| PlantPicking.SearchIsExactWhenClear | ui/app/qml/PlantView3D.qml:355 | for each box: the direction searched hits it at the same moments as the true one, from every origin, if and only if each component is 0 or at least 1e-9 in size |
| PlantPicking.PillarSearchIsExactWhenClear | ui/app/qml/PlantView3D.qml:336-340 | the same of every pillar |
| PlantPicking.InPillar | ui/app/qml/PlantView3D.qml:336-340 | a ray is in a pillar while it is within 0.7 of its middle and no higher than 7 times its height, as far as it has risen |
| PlantPicking.PickPillar | ui/app/qml/PlantView3D.qml:334-341 | the pillar with the least hit distance, the first of several, and -1 exactly if none is hit |
| PlantPicking.Nearest | ui/src/plant_layout.cpp:116-129 | the nearest device within the distance, the last of several, and -1 exactly if there is none |
| PlantPicking.PickAt | ui/app/qml/PlantView3D.qml:330-349 | the pillar hit first; failing that the device nearest to where the ray meets the ground ahead; failing that nothing |
| Replay.ScalingKeepsOrder | simulators/replay.py:44-66 | the scaled series has one value per input value, stays in the interval and keeps the order of the finite values; missing cells land in the middle |
| Replay.ScalingReachesBothEnds | simulators/replay.py:59-66 | both ends are reached unless the finite values are all equal, and then everything is the middle |
| Replay.ScalingKeepsProportions | simulators/replay.py:64-66 | differences between scaled values are to one another as the differences between the values |
| Replay.ReplayGenerator.Generate | simulators/replay.py:133-163 | each device listed emits the step of its next visit; with every device listed once, call k since construction emits step k mod n when looping and min(k, n-1) otherwise |
| Replay.KthCallEmitsKthStep | simulators/replay.py:133-148 | if each device has been visited k times, the call emits step k of each and leaves each visited k+1 times |
| ReplayLaws.CallEmitsTheDueSamples | simulators/replay.py:133-163 | call k emits, device by device and sensor by sensor, one reading for every sample in step k mod n or min(k, n-1) of the device's series, with the sample's rounded value and flag and the sensor's name and unit |
| ReplayLaws.SecomColumnsInOrder | simulators/replay.py:33-39 | the five sensors take the first five columns, in that order |
| Replay.CursorAdvances | simulators/replay.py:140-148 | the wrapped or clamped cursor is the step that this visit should emit |
| Replay.CollectColumn | simulators/replay.py:245-250 | the collected column is that of the rows long enough to have it, in order |
| Replay.ScaleSecomRows | simulators/replay.py:235-270 | each step holds, for every sensor with a collected column, the scaled value at its own index, with its row's anomaly flag, and nothing else |
| Replay.StepsAsExpectedExactlyWhenShortRowsLast | simulators/replay.py:245-267 | every step shows the scaled value and the flag of its own row, and nothing for a row without the column, if and only if the rows too short for the column come last |
| Replay.OneShortRowShiftsTheRest | simulators/replay.py:245-267 | after one short row in the middle, every step shows the next row's value with its own row's flag, and the last step shows nothing |

## Left out

- MQTT, Kafka, gRPC, HTTP and JSON parsing, authentication and TLS: no logic beyond the libraries.
- The API server also broadcasts readings straight from MQTT (`api/src/api_server.cpp:23-32`); the exactly-once statement is about the poll channel only.
- `create_tables`, the foreign key migration, index creation and connection setup: the database's own semantics.
- `_scale_cmapss_unit` (`simulators/replay.py:201-232`): the same scaling with an anomaly flag on the last steps; it would only add easy members.
- `DisplayOptions`, `HistoryModel`, `RuleModel`, `AlarmModel`, sorting and filtering models, busy flags, the event bus, PDF export and all QML but picking and the acknowledge click: they would only add easy members.
- Floating point rounding, NaN outside `scale_series`, infinities, integer widths (ids and the reconnect counter are unbounded) and the text of printed numbers and dates.
- Timer lengths and real time: a timer may run out at any moment after it was armed.
- ThreadPool.Pool.SubmitSection: an atomic section of the lock; running sections of several threads are interleaved by the schedules of the lemmas, not by Dafny threads.
- DbWriter.DbWriter.InsertBatch: the connection is either there or not for the whole life of the writer; the database's limit on parameters is one of the ways an insert fails.
- AlarmPoll.PollLoop: a crash of the engine ends the run; a restart is a new run with its own catch-up, and the rows in between are evaluated by neither. The poll interval and the count that is logged are not part of it.
- RuleTables.Database.DeleteRule: a COMMIT that is carried out but reported as failed is not modelled; statements of other sessions that would wait for the transaction take effect after it, and a delete by another session between its statements is one step.
- OfflineCache.OfflineCache.WritePending: SQLite statements on an open file succeed; a failing one would lose its save.
- OfflineCache.OfflineCache.Open: the final write when the object is destroyed is the same step and has no member of its own.
- OfflineAck.NoQueuedAckIsLost: the queue is one file; opening another one instead is not modelled, and neither are the alarm model's own flags.
- DeviceModel.RestoreRebuilds: the plant and floor of a restored device are those of its last cached row, which may be older than its other rows; only the reading fields are stated.
- PlantLayout.SortKeeps: `std::sort` may leave devices with equal keys in any order; here they stay in input order.
- PlantPicking.PickAt: the mapping from screen to scene is not modelled; pillars are taken to have heights of at least 0, as the layout makes them.
- History.KeptIsFilter: rows with equal timestamps are taken in one fixed order, which the two sorts of the query may choose differently.
- StoredTemplates.HonouredExactlyWhenDefault: a template with a printed number typed in as literal text counts as not honoured, because it is right for one way of printing only.
- ApiPoll.ChannelIsExact: the two channels are independent; that a tick serves readings before alarms is only in the method.
