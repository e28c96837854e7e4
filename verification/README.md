# A verified model of dun's harness

This project models the parts of dun that keep state under a mutex or build a
result up in loops, and proves what the program's comments promise about them.
Each module is one component, in the source's own form: fields that methods
update become classes, loops stay loops with invariants, and each method is
proved equal to a function (or, for shared state, to one event of a state
machine) whose properties are then proved for all inputs and for every run.
The modules called `...History` say what such a machine's state is in terms of the
events of a run alone, and `...Meaning` and `LineVerdicts` what a function gives in
terms of its inputs alone.

| file | component |
|---|---|
| `JobProtocol.dfy` | who reports a command: `settle`, `finish`, `kill` and `wait` racing on one job |
| `JobHistory.dfy` | what the events of a run say of a job: who reports it, its number, its notice |
| `JobOutput.dfy` | a background job's output: tee, line filter, pending report, log |
| `StreamHistory.dfy` | what they say of its output: when it reports, what it holds in memory, its lines |
| `HostShell.dfy` | the persistent shell, its lock, and its donation to a slow command |
| `ShellHistory.dfy` | what they say of a shell: which a call gets, and what becomes of it |
| `ShellReader.dfy`, `Sentinel.dfy` | the line buffer between shell and reader, and the marker that ends a read |
| `ReaderHistory.dfy` | what the events of a run say of the line buffer |
| `MessageQueue.dfy`, `Lifted.dfy` | the buffer of news for the model, and parsing lifted text back |
| `QueueHistory.dfy` | what becomes of each kind of news |
| `Recap.dfy`, `RecapMeaning.dfy` | which entries a recap replaces, and that in terms of the history and the request |
| `Gateway.dfy` | reference-counted MCP upstreams with grace timers |
| `GatewayHistory.dfy` | what the events of a run say of clients, upstreams and timers |
| `Glob.dfy`, `GlobRules.dfy` | ignore patterns compiled to expressions, and rule sets |
| `LineVerdicts.dfy` | which paths the lines of a workspace's ignore files ignore |
| `Ingest.dfy` | what the docs index is given, and what pruning leaves of it |
| `PlanMeaning.dfy` | the plan in terms of each file, the rules and what lies beside it |
| `IngestWalk.dfy` | the walk that prunes, reading `.gitignore` files as it goes |
| `WalkMeaning.dfy` | what it lists and prunes, of each file and directory by itself |
| `Junk.dfy` | which directories are junk |
| `SafePatterns.dfy`, `JunkLines.dfy`, `Pruning.dfy` | which include rules lose a file to the pruning of junk |
| `ShellWords.dfy` | the shell word splitter as the inverse of the quoter |
| `Clip.dfy` | bounding output without breaking UTF-8 (RFC 3629, section 4) |
| `Encoding.dfy` | that this grammar is the encoding of characters (section 3) |
| `IndexExcludes.dfy` | the greedy choice of directories to leave out of an index |
| `Strings.dfy`, `Seqs.dfy`, `Wrappers.dfy` | Go's string functions as far as needed, sequences, and `Option` |

## How concurrency is modelled

One event is one critical section, or one access to an atomic flag. A run is any
sequence of enabled events, so the theorems about runs are about every
interleaving. `finish` is five events, because it takes and releases locks five
times, and `liftQueued` is two, because it tests the interrupting flag without the
queue's lock and drains later; each of `ReleaseEngine`'s releases is one. An item
is delivered when it leaves the buffer: what a flush does with it comes after.
A command is in flight in a shell while its output is read there; one whose own
output carries its marker (under `set -v`, say) ends its read while it still runs.
Objects are named by the order they were made in. Fields called `past`, and the
history components of a state, are ghosts: they record what happened (who
answered, what was drained) so that a theorem can speak of it. Whether a process
starts, a write succeeds or a file can be created is a parameter of the event, and
time is "this timer may fire".

## Where the code and its documentation differ

- `recap.go:53-55` says a span that would orphan a tool call is refused.
  `planRecap` has no such check. `Recap.PairsKeptIff` gives the exact condition
  under which pairs are kept, and `Recap.StraddlingSpanIsPlanned` a history and a
  phrase for which they are not.
- `recap.go:87-89` says the recap call is never in its own span. It is when another
  call after it has no result yet: `Recap.AwaitingCallRemains` says exactly when it
  stays, `Recap.RecapSubsumesItself` gives a history.
- `interrupt.go:132-135` says nothing is lifted into a turn that is being cut. The
  flag may be set between `liftQueued`'s test (`queue.go:228`) and its drain
  (`queue.go:233`): `MessageQueue.LiftedIntoCutTurnIff` says that this is exactly
  when it happens, `MessageQueue.LiftedIntoCutTurn` gives a run.
- `globRegex` walks bytes and writes each as a code point, so a pattern beyond
  ASCII does not match the path it spells. `GlobRules.LineMeaningIff`: a line means
  what it reads exactly when its pattern is ASCII.
- `rag_ignore.go:189-192` says `reaches` is true where an anchored rule could match
  something beneath. `GlobRules.LineReachesIff` says of which lines that is so.
  `rag_ingest.go:200-201` says that an include overrides the skipping of junk: a walk
  that does not enter the junk may lose such a file. Only the names in a table are
  junk, so `Pruning.PruningIsLosslessIff` has it exact: nothing is lost, whatever the
  files, exactly when the rules reach every directory that can be junk on the way to a
  file they name. For one line this is reduced to its text and those names
  (`JunkLines.LineReachesJunkIff`): `a/**/k` loses `a/dist/k`
  (`Pruning.WildcardIncludeIsLost`), `foo?/bar` loses nothing
  (`Pruning.NearIncludeLosesNothing`). A later negation is another way to lose one
  (`Pruning.NegatedIncludeIsLost`).
- A waiter that leaves between the end of a job and the decision on its notice
  makes both speak: `JobProtocol.BothSpeak` says exactly when.
- A text that quotes an earlier lift is split when it is parsed back:
  `Lifted.ParseInvertsLift` says exactly which texts survive.

## Model

| member | source | states |
|---|---|---|
| JobProtocol.RunInv | bgjob.go:198-298 | in every run from the start: flags, stage and reports of each job agree; numbers given once and findable; bgRun is the number of promoted jobs not yet decremented and bgLive the jobs not yet left; the waiters counted at a decision are accounted for |
| JobProtocol.ExactlyOneReporter | bgjob.go:253-298 | a settled job is reported inline or by the background path, never both; an inline answer means it was done, has no number and sends no notice; promoteCh is closed only for a promoted job, and not while a close is still due |
| JobProtocol.ClosedOnce | bgjob.go:221-294 | in no run is promoteCh or doneCh closed a second time |
| JobProtocol.SettledForever | bgjob.go:261-275 | once settled, no interleaving changes who reports or the job's number |
| JobProtocol.NumbersAreUnique | bgjob.go:277-286 | two promoted jobs never share a number, none has the number of a spilled output, and bgRun is never negative |
| JobProtocol.NumbersIncrease | bgjob.go:656-664 | numbers given to jobs and spills only ever extend the sequence 1, 2, 3, ... |
| JobProtocol.NoOutcomeLost | bgjob.go:239-251 | a finished background job has had its notice decided; if it was unmuted then, the notice was sent or a waiter counted then waits on or left with the outcome, and when nobody waits one of the two has spoken |
| JobProtocol.EarlyStopSuppressesNothing | jobs.go:293-317 | a wait that returned an early-stop note was never among the waiters that suppressed a notice |
| JobProtocol.BothSpeak | bgjob.go:242-251 | notice and waiter both speak exactly when the job was unmuted, nobody waited at the decision, and a waiter had already left with the outcome |
| JobProtocol.BothDoSpeak | jobs.go:309-316 | a run in which both do |
| JobProtocol.KillVerdict | bgjob.go:198-204 | a job's verdict is a kill exactly when it failed after one had asked while it ran |
| JobProtocol.FirstKillStands | bgkill.go:39-54 | after the first kill, or the end, no later kill changes who is named |
| JobProtocol.BgJob.Answer | bgjob.go:263-275 | settle's answer in hand: settled, one more inline answer, nothing else |
| JobProtocol.BgJob.Promote | bgjob.go:277-280 | settle's promotion: settled, background, numbered, promoteCh due to close |
| JobProtocol.BgJob.MarkDone | bgjob.go:199-205 | finish's first section: done, with the kill as verdict if the command failed |
| JobProtocol.BgJob.Note | bgjob.go:242-251 | the notice goes out exactly when the job is unmuted and nobody waits |
| JobProtocol.BgJob.Kill | bgkill.go:39-54 | false for a finished job; the first to ask is kept |
| JobProtocol.Harness.NewJob | bgjob.go:482-501 | a new provisional job, live |
| JobProtocol.Harness.Number | bgjob.go:278-286 | the next number, one more running, the job found under it |
| JobProtocol.Harness.Settle | bgjob.go:261-298 | settle is the Settle event and leaves the job settled; the result is in hand for a settled job that is not background, for an unsettled one that is done, and so exactly if it is not background afterwards |
| JobProtocol.Harness.ClosePromote | bgjob.go:290-294 | promoteCh, still open, is closed after the lock is released |
| JobProtocol.Harness.MarkDone | bgjob.go:199-213 | finish's mark, with bg read in the same section |
| JobProtocol.Harness.LeaveLive | bgjob.go:218-220 | the job leaves bgLive |
| JobProtocol.Harness.DecRun | bgjob.go:228-230 | bgRun goes down by one |
| JobProtocol.Harness.Decide | bgjob.go:234-251 | the notice is decided on the waiters counted then |
| JobProtocol.Harness.CloseDone | bgjob.go:221-227 | doneCh, still open, is closed last |
| JobProtocol.Harness.Kill | bgkill.go:39-54 | a kill on a job of the harness |
| JobProtocol.Harness.Wait | jobs.go:293-300 | a wait blocks exactly on a job not done, and is counted |
| JobProtocol.Harness.Leave | jobs.go:309-316 | a waiter leaves with the outcome exactly when the job is done |
| JobProtocol.Harness.Mute | jobs.go:340-343 | tuneJob's ignore |
| JobProtocol.Harness.Spill | bgjob.go:656-664 | a spilled output takes the next number |
| JobHistory.FirstSettleDecides | bgjob.go:253-298 | in every run, once a settle came the job is settled; it was answered inline exactly if its command had ended before the first settle, and otherwise it is background |
| JobHistory.SettleIsTold | bgjob.go:261-298 | in every run a job is done exactly if its command ended, settled exactly if a settle came, background exactly if one came before the end; a background job was never answered inline, any other once for each settle |
| JobHistory.EndIsTold | bgjob.go:198-213 | its killer is who first asked to end it while it ran, it failed if its command did, it is muted if the last word on it was so |
| JobHistory.StageIsTold | bgjob.go:198-251 | either channel is closed, the job off bgLive, off bgRun, or its notice decided, exactly if that step has happened |
| JobHistory.FinishGoesOn | bgjob.go:198-238 | in every run some step of finish may come next for a job until its doneCh is closed, and then none |
| JobHistory.WaitersAreTold | jobs.go:293-317 | the waiters are those who came before the command ended, and who left did so with its outcome exactly if it had ended by then |
| JobHistory.NoticeIsTold | bgjob.go:234-251 | in every run the notice went out exactly if, when it was decided, the last word had not muted the job and nobody waited for it |
| JobHistory.NumbersAreTold | bgjob.go:277-286 | the numbers went, in order, to the spills and to the jobs first settled before their commands ended |
| JobHistory.CountsAreTold | bgjob.go:218-286 | so a promoted job has its number and is found under it, bgRun counts the promoted jobs not yet taken off, and bgLive holds those that have not left it |
| JobOutput.EveryLineOnce | bgjob.go:121-150 | for a fixed monitor: what was drained plus what is pending is the monitor's lines of the whole output, each once and in order; partial is its unterminated tail, last its last non-blank complete line, written its length |
| JobOutput.ChunksDoNotMatter | bgjob.go:121-150 | two runs that wrote the same output in any chunks, read at any times, have reported and hold the same |
| JobOutput.NoReportIsLate | bgjob.go:181-192 | in every run, from a write on and until the monitor is tuned again, an unmuted monitor with a threshold has less than it pending |
| JobOutput.LogHoldsOutput | bgjob.go:306-323 | an opened log is a beginning of the output, at least min(total, bgEarlyMax) of it, then everything since, up to the end of the command, then at most the kill line |
| JobOutput.LinesConcat | bgjob.go:131-139 | the complete lines and the tail of text that comes in two parts |
| JobOutput.CutLines | bgjob.go:131-139 | cutting after the last newline leaves whole lines and the tail |
| JobOutput.LastNewline | bgjob.go:399-406 | the last newline's place, or -1 |
| JobOutput.LastLine | bgkill.go:217-225 | the last line that is not blank, trimmed |
| JobOutput.Filter | bgjob.go:165-176 | the lines the pattern matches, in order; all of them without one |
| JobOutput.JobStream.Tee | bgjob.go:123-128 | output goes to the log, or to early up to bgEarlyMax |
| JobOutput.JobStream.TakeLines | bgjob.go:131-139 | complete lines go to the monitor, the rest waits |
| JobOutput.JobStream.Report | bgjob.go:181-192 | a report is due on the threshold unless muted or forced, and clears what it reports |
| JobOutput.JobStream.Write | bgjob.go:121-150 | Write is the Write event, and returns the report it made due |
| JobOutput.JobStream.Promote | bgjob.go:306-323 | the log begins with early, if it can be created |
| JobOutput.JobStream.Ask | jobs.go:351-359 | reading a job drains what is pending |
| JobOutput.JobStream.Tune | jobs.go:337-343 | the threshold and the mute, where given |
| JobOutput.JobStream.Finish | bgjob.go:205-212 | the log gets the kill line, if any, and is closed |
| StreamHistory.ReportsIff | bgjob.go:181-192 | in every run a write reports, and then everything pending, exactly when the job is not muted, has a positive threshold, and what is pending with the write's lines has reached it |
| StreamHistory.SettingsAreTold | jobs.go:337-343 | threshold and mute are the last that were set; the job is promoted, or done, once it was |
| StreamHistory.AskDrains | jobs.go:351-359 | reading a job drains what is pending, muted or not, whatever the threshold |
| StreamHistory.EarlyStops | bgjob.go:123-128 | without a log, the output is kept whole until there are 0x100000 characters of it, and from then on what is kept no longer changes |
| StreamHistory.LogOpensAndEnds | bgjob.go:306-323 | a log that opens takes over what was in memory; it ends with the kill line, if any |
| StreamHistory.LinesAre | bgjob.go:131-139 | lines and tail make up the text; each line ends in its only newline, the tail has none |
| StreamHistory.LastIs | bgkill.go:217-225 | the last line is the latest that is not blank, trimmed, or empty when all are blank |
| HostShell.OneCommandPerShell | exec.go:277-281 | in every run no two calls read from one shell |
| HostShell.NeverReused | exec.go:371-395 | a shell that was made and is not current never becomes current again, and no call reads it that did not read it already |
| HostShell.LockReleasedOnce | exec.go:332-340 | a call holds the lock until promotion or return and releases it exactly once |
| HostShell.NextCallProceeds | exec.go:371-375 | after a promotion the next call gets the lock and a fresh shell while the promoted command runs on |
| HostShell.StateCarriesOver | exec.go:255-276 | a command that ended normally leaves its shell to the next call |
| HostShell.StaleMarkerNeverMatches | exec.go:352-359 | the line that ends a call with a smaller number never ends the wait of one with a larger |
| HostShell.NoShellLeaks | exec.go:376-395 | in every run a shell that is alive and was not signalled is the current one or still read by its owner |
| HostShell.RunInv | exec.go:331-396 | the lock, reader, current-shell and number invariants hold in every run |
| HostShell.HostShell.Start | exec.go:514-561 | start forgets the current shell and, if the process starts, has a new one |
| HostShell.HostShell.Teardown | exec.go:602-607 | the current shell is killed and forgotten |
| HostShell.HostShell.Unlock | exec.go:333-340 | the unlock closure releases the lock the first time only |
| HostShell.HostShell.WriteScript | exec.go:360-369 | the script is written, with one retry in a fresh shell |
| HostShell.HostShell.Begin | exec.go:331-369 | RunPromotable up to its wait: a live shell, the next number, the script |
| HostShell.HostShell.OnPromote | exec.go:371-375 | promotion drops the shell and unlocks |
| HostShell.HostShell.Return | exec.go:376-395 | a donated shell is killed, a cancelled one forgotten, a dead one torn down; the lock is free |
| HostShell.HostShell.Close | exec.go:595-599 | Close tears down under the lock |
| ShellHistory.CancelledShellIsGone | exec.go:382-390 | in every run, a call cancelled before it returned, and not promoted, leaves no current shell and its own dead or signalled; at the end of any later run that shell is not current and no call reads it |
| ShellHistory.ReturnLeaves | exec.go:376-395 | in every run: a promoted call's shell is signalled and nothing else changes; a cancelled call's is forgotten, and signalled unless dead; a dead one is forgotten; any other stays, the lock is free |
| ShellHistory.BeginComesTo | exec.go:342-369 | in every run: a call reads the current shell if that runs and takes the script, else a new one; if none takes it the call returns with the lock free; a shell replaced was signalled, and the call has the next number |
| ShellHistory.PromoteLeaves | exec.go:371-375 | a promotion gives the shell to its reader, which reads on, and frees the lock; no other shell changes |
| ShellHistory.CloseLeaves | exec.go:595-607 | the end signals the current shell and forgets it |
| ShellHistory.NoneSignalledInUse | exec.go:371-395 | in every run neither the current shell nor one that a call reads was signalled |
| ShellHistory.CallIsTold | exec.go:331-396 | a call is cancelled, donated, past the lock, or begun, exactly as the events say |
| ShellHistory.NoneIsStuck | exec.go:331-396 | in every run a call that has arrived and not returned can go on, or waits for the lock of one that can |
| ShellHistory.LockIsTold | exec.go:332-340 | in every run the lock is a call's exactly from when it took it until it was promoted or returned |
| ShellHistory.ArrivalsAreTold | exec.go:331 | the calls are those that arrived |
| ShellHistory.AliveIsTold | exec.go:342-346 | a shell runs until it dies |
| ShellReader.RunInv | exec.go:617-667 | in every run from the start: at most 4096 lines, first in first out, none lost; the pump sleeps only on a full buffer with the flag set that makes a pop wake it |
| ShellReader.PopWakes | exec.go:653-667 | a pop never leaves the waiting pump unsignalled |
| ShellReader.ScheduleIndependent | exec.go:424-428 | a read that has ended has the result the whole output gives, whatever the interleaving |
| ShellReader.WaitReturnsTheOutputIff | exec.go:408-430 | in every run the read has not ended, or returns exactly the command's output and code if and only if the output does not hold the command's marker |
| ShellReader.LineBuf.PumpLine | exec.go:636-650 | the pump puts a line in or sleeps with it |
| ShellReader.LineBuf.PumpResume | exec.go:636-650 | a woken pump tries again |
| ShellReader.LineBuf.PopLine | exec.go:653-667 | the oldest line, waking the pump |
| ShellReader.ReadUntil | exec.go:424-428 | the loop takes exactly the lines up to the first with the marker, or all there are, and returns their output and code |
| ReaderHistory.WaitIsTold | exec.go:408-430 | in every run in which the pump read what the shell wrote, the read has ended once the end line was taken, and when it has ended it gives the command's output and code if and only if the output does not hold the marker |
| ReaderHistory.NothingIsLost | exec.go:617-667 | in every run what the reader took, what is in the buffer, at most 4096 lines, and at most one line in the pump's hand, are the lines the pump read, in order |
| ReaderHistory.PopTakesTheNext | exec.go:653-667 | a pop takes the next line of what the pump read, unless the buffer is empty, and nothing else takes any |
| ReaderHistory.ScanPuts | exec.go:636-650 | a line goes into the buffer as it is read while fewer than 4096 are there; else the pump sleeps with it |
| ReaderHistory.NeverStuck | exec.go:636-667 | in every run the pump can go on, or the buffer is full and the next pop lets it go on and put its line in |
| ReaderHistory.CodeIs | exec.go:481-497 | the code after any marker, the command's own or not, is the number that follows, with or without a sign, and 0 when anything else or nothing does |
| Sentinel.SplitsAtMarker | exec.go:481-497 | the marker is found exactly where it was printed, with the text before it and the code after it |
| Sentinel.EarlierNeverMatches | exec.go:352-359 | an earlier command's end line never holds a later command's marker |
| Sentinel.ReadsCommandIff | exec.go:408-430 | reading up to the marker gives exactly the command's output and code if and only if no line of the output holds the marker |
| Sentinel.ReadsForged | exec.go:479-497 | if one does, the read ends with less than was written |
| Sentinel.EndedStays | exec.go:424-428 | more lines do not change a read that has ended |
| MessageQueue.RunInOrder | queue.go:225-275 | in every run from the start, within each kind, what left followed by what waits is what arrived, in order |
| MessageQueue.ExactlyOnce | queue.go:104-187 | every item is in the queue or left it once, in exactly one way |
| MessageQueue.StepDelivers | queue.go:225-350 | a step only adds deliveries: none published of a kind that causes no turn, none appended silently of one that does, none taken back but the user's, and a lift's record what the flag was |
| MessageQueue.LiftedIntoCutTurnIff | interrupt.go:132-135 | in every run an item is lifted into a turn that is being cut exactly when the flag was set between a passed test and its drain, not cleared before the drain, and the item was there at the drain |
| MessageQueue.LiftedIntoCutTurn | queue.go:225-234 | a run in which one is |
| MessageQueue.FlushesEmpty | queue.go:286-314 | flushQueued then flushSilent leaves the queue empty |
| MessageQueue.RunNoMissedWake | queue.go:129-163 | in every run from the start, while a user message or a waking peer message waits, every channel handed out is closed, and at most one open one exists |
| MessageQueue.AnswerIsReady | queue.go:151-163 | after every run, userWaiting's channel is closed at once exactly when such a message waits |
| MessageQueue.Harness.Notify | queue.go:104-112 | appends a notification |
| MessageQueue.Harness.Say | queue.go:129-138 | appends a user message and frees the blocking tools |
| MessageQueue.Harness.Aside | queue.go:183-187 | appends an aside |
| MessageQueue.Harness.PeerMessage | peers.go:168-186 | appends a peer message; a waking one frees the blocking tools |
| MessageQueue.Harness.ServiceNotice | peers.go:192-204 | appends a notice and frees the blocking tools |
| MessageQueue.Harness.UserWaiting | queue.go:151-163 | hands out the closed channel, or the one open one |
| MessageQueue.Harness.Drain | queue.go:262-275 | takes the items of some kinds, in order, and keeps the others |
| MessageQueue.Harness.LiftTest | queue.go:226-230 | the test of the flag, which lets the lift go on |
| MessageQueue.Harness.LiftTake | queue.go:231-257 | takes everything, in order, and writes it labelled after the result, whatever the flag is by then |
| MessageQueue.Harness.LiftQueued | queue.go:225-257 | with nothing in between: lifts everything, labelled, unless interrupting |
| MessageQueue.Harness.FlushQueued | queue.go:286-295 | publishes the kinds that cause a turn |
| MessageQueue.Harness.FlushSilent | queue.go:305-314 | appends the others |
| MessageQueue.Harness.Unqueue | queue.go:336-350 | takes the user's messages back |
| MessageQueue.Harness.Queued | queue.go:355-365 | counts what would cause a turn |
| QueueHistory.Labels | queue.go:69-90 | the label each kind is lifted under, and the entry it becomes: the user's own for the user's messages, a notification for the others |
| QueueHistory.DeliveredBy | queue.go:286-350 | in every run what was published is a notification, a message of the user's, a waking peer's or a notice; what was appended silently is an aside or a quiet peer's; only the user's messages were taken back |
| QueueHistory.TakesAll | queue.go:262-350 | each of the four ways out takes all that is queued of its kinds, and leaves the other kinds as they are |
| QueueHistory.TestIsTold | queue.go:225-230 | in every run the test of a lift passes exactly if the last change of the flag did not set it, and only a lift that passed drains, once |
| QueueHistory.ArrivalFrees | queue.go:104-204 | an arrival goes to the end of the queue; a user's, a waking peer's or a service's closes the channel handed out, the others leave it |
| QueueHistory.AskedAtOnce | queue.go:151-163 | the channel asked for is closed exactly if a message of the user's or a waking peer's is queued |
| Lifted.ParseInvertsLift | queue.go:225-257 | parsing a lift gives the labelled items in order, exactly when neither the trimmed result nor a text has a label after a blank line, and the result does not begin with one |
| Lifted.UserWordsComeBack | recap.go:220-232 | the user's words come back word for word, in order, and no others, exactly when no user item starts in the result, the user's texts have no label after a blank line, and others' have no user label after one |
| Lifted.CleanIsUserClean | recap.go:220-232 | so they do whenever parsing inverts the lift |
| Lifted.QuotedPrefixIsMisread | recap.go:235-261 | a text that quotes a lift does not come back as it went in |
| Lifted.UncleanMiscounts | recap.go:235-261 | any other lift is parsed into too many items |
| Lifted.FindPrefix | recap.go:238-246 | every place one label starts an item |
| Lifted.ItemStarts | recap.go:236-252 | the sorted starts, whatever order the table is walked in |
| Lifted.LiftedItems | recap.go:235-261 | the items between the starts |
| Lifted.LiftedUserWords | recap.go:223-232 | the texts of the items with the user's label |
| Recap.PlanSplits | recap.go:184-202 | what follows the anchor, minus citations, is split into kept and subsumed, each entry once |
| Recap.PlanInOrder | recap.go:184-202 | and each part keeps its order, at every cut |
| Recap.NoUserEntrySubsumed | recap.go:56-62 | no user entry is subsumed exactly when none follows the live call |
| Recap.LiveCallStays | recap.go:189-195 | the live call, the last without a result, and the assistant entry right before it stay |
| Recap.AwaitingCallRemains | recap.go:87-89 | a call without a result remains exactly when it is at or before the anchor, no call after it lacks one, or keep names it |
| Recap.RecapSubsumesItself | recap.go:279-292 | a history in which the recap call is subsumed |
| Recap.PairsKeptIff | recap.go:91-207 | what remains has no call without the result it had and no result without its call, exactly when no call at or before the anchor is answered after it |
| Recap.StraddlingSpanIsPlanned | recap.go:53-55 | a history and a phrase whose plan splits a pair |
| Recap.UserWordsCarried | recap.go:196-202 | a result of the span stays, or the words parsed from it are in Said in their place; they are the lifted ones, word for word, exactly when the lift is clean of other user items |
| Recap.KeptByPhrase | recap.go:138-178 | a term that is no tool's name keeps exactly the calls with that id or phrase |
| Recap.KeptByName | recap.go:150-161 | a bare tool name keeps that tool's most recent call alone |
| Recap.LiveCallID | recap.go:279-292 | the last call without a result |
| Recap.HasPendingCall | recap.go:296-307 | whether an entry comes right before the live call |
| Recap.FindLimit | recap.go:96-104 | where the search for the anchor ends |
| Recap.FindTurnStart | recap.go:211-218 | the latest user entry |
| Recap.FindQuoting | recap.go:116-126 | the latest entry that quotes a phrase |
| Recap.FindAnchor | recap.go:105-133 | the anchor, or which of the two errors |
| Recap.KeepTerms | recap.go:138-183 | the ids kept, the names for the confirmation, and the terms that named nothing |
| Recap.Partition | recap.go:184-202 | the loop over the span computes kept, subsumed, characters and said |
| Recap.PlanRecap | recap.go:91-207 | planRecap's loops compute the plan, with its three errors |
| RecapMeaning.PlanDecides | recap.go:91-207 | refused as the anchor is, or when nothing after it would go; else what stays is the entries after the anchor that are the live call, a call that keep names, a result of either, or the assistant entry before the live call; what goes is the others; citations do neither; the characters are those of what goes, and Said has the user's words parsed from its results; unmatched are the terms for which no call is kept |
| RecapMeaning.AnchorIs | recap.go:96-133 | the anchor is where the turn begins when the phrase is empty or quoted there, else the latest entry since, before the live call, that quotes it; with none, the error names an earlier one exactly when the turn has a beginning past the first entry and one before it quotes the phrase |
| RecapMeaning.LiveIs | recap.go:279-292 | the live call is the last call without a result, and without one there is none |
| RecapMeaning.HitsOfAre | recap.go:141-177 | a term keeps a call after the anchor, other than the live one, by its id, by a phrase of its text, or by its tool's name, unless a later such call of a tool of that name lacks the phrase |
| RecapMeaning.KeptCallsAre | recap.go:141-177 | the tools named in the confirmation are those of the calls that some term keeps |
| Gateway.RunInv | gateway.go:145-188 | in every run from the start: a key's upstream is its own and did not fail, timers belong to their upstreams, and a started current upstream nobody holds has a timer armed or a callback to run |
| Gateway.OnlyTheseRemove | gateway.go:281-296 | an upstream stops being current only by a failed start, its drop, Close, or the grace callback of its own timer with no client left |
| Gateway.HeldStays | gateway.go:269-315 | in every run from the start, while a client holds it, no timer takes an upstream away |
| Gateway.Reclaimed | gateway.go:281-296 | a started upstream nobody holds can be reclaimed by its timer alone |
| Gateway.GoneStaysGone | gateway.go:335-349 | an upstream that is not current never is again |
| Gateway.EngineReleased | gateway.go:318-330 | whatever comes between the releases of an engine's clients, none of those clients is left after the last |
| Gateway.Hub.ClientsOf | gateway.go:269-277 | the number of clients on a key |
| Gateway.Hub.ArmGrace | gateway.go:281-287 | the old timer is stopped and a new one armed |
| Gateway.Hub.FindOrMake | gateway.go:150-170 | the key's upstream, made if none runs |
| Gateway.Hub.Share | gateway.go:145-188 | Share's section is the Share event |
| Gateway.Hub.StartDone | gateway.go:229-266 | a failed upstream is forgotten, one whose askers gave up gets a grace timer |
| Gateway.Hub.Release | gateway.go:300-315 | the last client's release arms the grace timer of a started upstream |
| Gateway.Hub.ReleaseEngine | gateway.go:318-330 | with nothing in between: every client of the engine is released and no other |
| Gateway.Hub.GraceOver | gateway.go:286-296 | the callback stops the upstream exactly when it is still current and nobody holds it |
| Gateway.Hub.ForgetClients | gateway.go:335-349 | drop's loop removes exactly the key's clients |
| Gateway.Hub.Drop | gateway.go:335-349 | drop forgets a current upstream and its clients |
| Gateway.Hub.Close | gateway.go:374-389 | every current upstream's timer is stopped |
| GatewayHistory.ShareGives | gateway.go:156-170 | right after a share, in every run, the client holds its key, whose upstream has not failed and has no timer: the one that ran, or a new one |
| GatewayHistory.SharedStays | gateway.go:269-315 | so the client holds that very upstream through any run that does not release it, drop the upstream, fail its start or close the gateway, whatever timers fire |
| GatewayHistory.ClientIsTold | gateway.go:145-389 | in every run a bearer is a client's exactly if it was shared to it, and no release of it, no drop of its key's current upstream and no end of the gateway came since |
| GatewayHistory.UpstreamIff | gateway.go:145-389 | a key has an upstream after an event exactly if it had one that a failed start, a drop, the end, or its grace callback with no client left did not take, and then the same one, or the event shares the key |
| GatewayHistory.HeldIsNotTimed | gateway.go:166-169 | in every run, while a client holds a key its upstream has no timer and none of its timers is armed |
| GatewayHistory.StartIsTold | gateway.go:229-266 | a start has ended, or failed, exactly as the events say |
| GatewayHistory.TimerIsTold | gateway.go:281-296 | a timer fired, and its callback ran, exactly as the events say |
| GatewayHistory.CloseStops | gateway.go:374-389 | the end leaves no upstream, no client, and no armed timer of an upstream that was current |
| Glob.MeansWhatItReadsIff | rag_ignore.go:109-151 | an anchored pattern without escapes, classes or empty segments means its segment-wise reading on every path exactly when it is ASCII |
| Glob.AsciiMeaning | rag_ignore.go:78-83 | the compiled expression matches a path exactly when the pattern reads it |
| Glob.AnyDepthMeansIff | rag_ignore.go:78-80 | a pattern with no slash means its reading at any depth, on every path, exactly when it is ASCII |
| Glob.AnyDepthMeaning | rag_ignore.go:78-80 | a pattern of ASCII with no slash matches at any depth |
| Glob.BeyondAsciiMisses | rag_ignore.go:147-148 | an anchored pattern beyond ASCII misses a path it reads |
| Glob.AnyDepthMisses | rag_ignore.go:147-148 | and so does one that matches at any depth |
| Glob.PathMeaning | rag_ignore.go:109-126 | compiling segment by segment preserves the meaning of a star pair, a star and a question mark |
| Glob.CompileStart | rag_ignore.go:111-126 | the loop over the bytes compiles segment by segment |
| Glob.GlobRegex | rag_ignore.go:109-151 | the loop writes the compiled expression, a bracket that is never closed as a literal |
| GlobRules.LineMeaningIff | rag_ignore.go:61-106 | a line, read as bytes, of a pattern without escapes, classes or empty segments, matches exactly the paths the pattern reads, anchored or at any depth, on every path, exactly when it is ASCII |
| GlobRules.LineMeaning | rag_ignore.go:61-106 | a parsed line of ASCII has the negation, directory mark and base it was written with, and matches exactly the paths its pattern reads |
| GlobRules.LiteralLine | rag_ignore.go:81-92 | an anchored pattern without wildcards gives a rule that is the path it names, and opens what it names |
| GlobRules.ParseGlobRule | rag_ignore.go:61-106 | parseGlobRule, with its marks, trims and prefix |
| GlobRules.LastRuleWins | rag_ignore.go:155-173 | the last matching rule wins; without one a path is not ignored |
| GlobRules.ForeignRulesSilent | rag_ignore.go:155-187 | verdict and coverage of a path depend only on the rules of the root and of directories above it, wherever the others stand in the list |
| GlobRules.CoveredBelow | rag_ignore.go:175-187 | what covers a directory covers everything beneath it |
| GlobRules.OpenRulesReach | rag_ignore.go:189-206 | un-negated rules whose part after the literal start matches the first segment of whatever longer path it matches reach every directory on the way to what they cover |
| GlobRules.LineReachesIff | rag_ignore.go:78-92 | one un-negated line of ASCII, without escapes, classes or empty segments, reaches every directory on the way to what it covers exactly when it names no path, begins with a wildcard, has wildcards in its last segment only, or star pairs before a segment that any name is read by |
| GlobRules.Match | rag_ignore.go:155-173 | match is the verdict |
| GlobRules.IsCovered | rag_ignore.go:177-187 | matches is coverage by itself or through an ancestor |
| GlobRules.IsReached | rag_ignore.go:193-206 | reaches |
| GlobRules.AnchoredRules | rag_ignore.go:211-222 | the rules that name a path, in order |
| LineVerdicts.LineDecides | rag_ignore.go:155-173 | one line of ASCII, without escapes, classes or empty segments, in the file of a directory d: its rule applies to d/path exactly if the pattern reads the path, anchored or at any depth, and the path is a directory if it asks for one; and by itself ignores it exactly if, besides, it is not negated; for the root, of the path itself |
| LineVerdicts.SilentOutside | rag_ignore.go:163-169 | it has no say on any path that is not beneath d |
| LineVerdicts.LinesDecide | rag_ignore.go:155-173 | of such lines, in the files of any directories, a path is ignored by itself exactly if the last line that reads it, as its directory sees it, is not negated |
| LineVerdicts.LinesCover | rag_ignore.go:175-187 | and covered exactly if that is so of it or of a directory above it |
| LineVerdicts.CoverIs | rag_ignore.go:175-187 | any rules cover a path by the verdict on one of its beginnings, segment by segment |
| LineVerdicts.NoRules | rag_ignore.go:61-82 | an empty line, a slash or an exclamation mark alone, and a comment give no rule |
| LineVerdicts.TrimsEnd | rag_ignore.go:61-65 | a return at the end does not count, nor does a space after anything but a backslash |
| LineVerdicts.EscapedSpaceStays | rag_ignore.go:62-65 | an escaped space at the end stays |
| LineVerdicts.EscapedMark | rag_ignore.go:70-76 | an escaped mark is the first character of the pattern |
| Junk.CanBeJunkIff | rag_ingest.go:114-129 | a directory can be junk, by the tables and the two names that depend on what exists, exactly when it is in some file system |
| Junk.JunkJudge.Judge | rag_ingest.go:318-344 | reason gives why a directory is junk in this file system, and remembers it |
| Junk.JunkByFiles | rag_ingest.go:318-344 | an env is junk exactly when it has a pyvenv.cfg, a target exactly when a Cargo.toml or a pom.xml stands next to it; of other names nothing depends on what exists |
| SafePatterns.SafeOpens | rag_ignore.go:193-206 | a pattern with safe segments that reads something beneath a directory with one of the names reads that directory or one above it, or begins with it |
| SafePatterns.UnsafeStrays | rag_ignore.go:193-206 | a pattern without safe segments reads a path beneath a directory with one of the names, and neither that directory nor one above it, nor begins with it |
| SafePatterns.PassesOpens | rag_ingest.go:127-129 | likewise of one directory, as a copy of the workspace |
| SafePatterns.MatchedPossible | rag_ignore.go:109-151 | a pattern that matches the path of some file has possible segments |
| JunkLines.LineReachesJunkIff | rag_ignore.go:189-206 | one un-negated line of ASCII, without escapes, classes or empty segments, reaches every directory that can be junk on the way to a file it names exactly when it names no path, begins with a wildcard, no file's path is read by it, or its segments are safe: none before the last reads the name of junk off the literal start, and a star pair has only star pairs after it and a last segment that reads all such names; and likewise of the two copies of a workspace |
| JunkLines.LinesReachTogether | rag_ignore.go:193-206 | un-negated lines that reach the junk one by one reach it together |
| JunkLines.JunkNamesAre | rag_ingest.go:116-126 | the names in question are the table's, less .git, which is never entered, and env and target |
| Pruning.PruningIsLosslessIff | rag_ingest.go:195-225 | for all configurations around the include rules, all file systems and all listings, planning over the pruned walk gives the plan over everything exactly when the rules reach every directory that can be junk on the way to a file they name |
| Pruning.WalkIsLosslessIff | rag_ingest.go:393-437 | the same exact condition over all directory trees, each with the judge that looks at that tree |
| Pruning.RealIsLossless | rag_ingest.go:389-421 | for any one configuration and listing, such rules suffice |
| Pruning.UnreachedIsLost | rag_ingest.go:414-419 | where the rules do not reach a directory that can be junk, a file they name in it is planned and never listed |
| Pruning.UnreachedInTree | rag_ingest.go:414-419 | and that in a tree that holds what makes the directory junk |
| Pruning.LineIsLosslessIff | rag_ingest.go:195-225 | one line by itself loses no file, whatever the files, exactly when its text reaches the junk |
| Pruning.UnsafeIncludeIsLost | rag_ingest.go:414-419 | a line whose text does not loses a file |
| Pruning.NearIncludeLosesNothing | rag_ingest.go:414-419 | foo?/bar does not reach all it names and loses nothing |
| Pruning.WildcardIncludeIsLost | rag_ingest.go:414-419 | a/**/k loses a/dist/k |
| Pruning.NegatedIncludeIsLost | rag_ingest.go:414-419 | out/a/ and then !a lose out/a/build/f |
| Ingest.ListingIsLosslessIff | rag_ingest.go:195-225 | for one listing, nothing is lost exactly when the walk hides no included file of it |
| Ingest.ReachingIsLossless | rag_ingest.go:389-421 | rules that reach the junk on the way to each file of a listing lose none of them, whatever is judged junk |
| Ingest.PruningIsLossless | rag_ingest.go:389-421 | rules that reach all they name lose nothing, whatever is judged junk |
| Ingest.HiddenIncludeIsLost | rag_ingest.go:414-419 | a listed file that an include names in junk that is not reached is lost |
| Ingest.VisibleIncludes | rag_ingest.go:404-421 | the walk loses exactly the included files it hides |
| Ingest.SkippedApart | rag_ingest.go:227-230 | no directory skipped for its size lies in another |
| Ingest.TopOver | rag_ingest.go:260-269 | at or above every directory over a limit one is skipped |
| Ingest.SurvivorsFit | rag_ingest.go:227-268 | every directory that survives is within both limits |
| Ingest.EntriesConserved | rag_ingest.go:189-279 | with nothing pruned, every entry is excluded, kept, in one junk directory, too big, binary, or in one skipped directory |
| Ingest.FindTopJunk | rag_ingest.go:346-355 | the outermost junk directory |
| Ingest.Classify | rag_ingest.go:195-225 | planIngest's decisions on one entry, in their order |
| Ingest.SortEntries | rag_ingest.go:189-225 | the first loop sorts the entries and counts each junk directory's files and bytes |
| Ingest.Aggregate | rag_ingest.go:231-248 | files and bytes of every directory above a candidate |
| Ingest.SortByDepth | rag_ingest.go:249-259 | the directories, the shallower first and by name among the others |
| Ingest.OrderedOnce | rag_ingest.go:249-259 | so each comes once |
| PlanMeaning.DepthIs | rag_ingest.go:249-259 | the depth they are ordered by is the number of slashes |
| Ingest.SkipDirs | rag_ingest.go:260-269 | the top-down pass skips exactly the directories over a limit with none over a limit above them |
| Ingest.FindSkipped | rag_ingest.go:301-308 | whether a path is a skipped directory or in one |
| Ingest.KeepRest | rag_ingest.go:270-279 | candidates outside the skipped directories, by content |
| Ingest.PlanIngest | rag_ingest.go:167-298 | planIngest's loops compute the plan, with the bytes kept and its Huge mark, the junk list with reasons, files and bytes, and the kept files by name |
| PlanMeaning.KeptIff | rag_ingest.go:195-279 | a file is reported as too big exactly if it is listed, not excluded, not included, in no junk and larger than the limit; it is indexed exactly if it is listed, not excluded, and either an include wins or it is in no junk, within the limit, binary neither by name nor by content, and in no directory over a limit |
| PlanMeaning.PlanIs | rag_ingest.go:167-298 | the whole plan in these terms: what is kept and reported as too big, in order, how many are binary, the bytes kept and the Huge mark |
| PlanMeaning.ClassIs | rag_ingest.go:195-225 | which of the six one entry is, by what the rules, the junk above it, its size and its name say |
| PlanMeaning.SkippedIs | rag_ingest.go:227-269 | a directory is left out for its size exactly if the files in it that would otherwise be indexed are too many or too large together, and no directory above it is so |
| PlanMeaning.JunkListIs | rag_ingest.go:189-214 | the junk list has what the walk pruned and every outermost junk directory with a file neither excluded nor included, with how many and how much |
| IngestWalk.StopsAt | rag_ingest.go:411-419 | where the walk does not go in, and exactly what it lists as junk |
| IngestWalk.WalkEntries | rag_ingest.go:393-437 | the walk lists exactly the files that git would show under no directory it stops at, and as pruned exactly the outermost junk directories it comes to that no include reaches and no rule excludes |
| IngestWalk.RuleList.Add | rag_ignore.go:38-44 | the rules of a file come after those already read |
| IngestWalk.Walk | rag_ingest.go:396-430 | so it does below any directory, whatever rules it has read on the way |
| IngestWalk.WalkKid | rag_ingest.go:396-430 | one call of the walk's function: .git, ignored, a file or a directory |
| IngestWalk.WalkInto | rag_ingest.go:411-421 | a directory that is not ignored: in, after reading its .gitignore, or not |
| IngestWalk.ShownIff | rag_ingest.go:389-421 | reading .gitignore files as it comes to them, and none where it does not enter, the walk hides exactly the files in a .git and those that all the workspace's .gitignore files together cover |
| IngestWalk.WalkIsLossless | rag_ingest.go:393-437 | rules that reach all they name lose nothing in any tree |
| WalkMeaning.WalkLists | rag_ingest.go:389-437 | the walk lists exactly the files that are in no .git, that all the workspace's .gitignore files do not cover, and above which every directory is not excluded and is not junk or is reached |
| WalkMeaning.WalkPrunes | rag_ingest.go:411-421 | it prunes exactly the directories that it comes to likewise and does not enter for being junk, and that lie in no junk themselves, each with its reason |
| ShellWords.SplitShell | extcmd.go:462-514 | the splitter is the scanner, with its three errors |
| ShellWords.ScanDecides | extcmd.go:462-514 | a line is accepted exactly when it has a derivation in the grammar of quotes, and gives the words of every derivation |
| ShellWords.QuoteSplitRoundTrip | exec.go:609-612 | splitting the quoted forms of any words, joined by spaces, gives back those words |
| ShellWords.SingleEnd | extcmd.go:470-481 | the end of single-quoted text |
| ShellWords.DoubleEnd | extcmd.go:482-495 | the end and the text of double-quoted text |
| Clip.CapSound | exec.go:125-167 | over the cap: a beginning and an end of the output within the budget, the stated count is what is missing, and both ends of valid text are valid |
| Clip.DropBackExact | exec.go:186-196 | safeCut drops exactly the part of a character at the cut |
| Clip.DropFrontExact | exec.go:198-208 | safeCutFront likewise at the front |
| Clip.CutHead | exec.go:187-196 | of valid text, safeCut keeps all but part of one character |
| Clip.CutTail | exec.go:199-208 | and so does safeCutFront |
| Encoding.ValidIff | exec.go:182-208 | the grammar that the cuts decode by is the encoding of character numbers that are no surrogates, up to 0x10FFFF |
| Clip.SafeCut | exec.go:187-196 | the loop computes the cut |
| Clip.SafeCutFront | exec.go:199-208 | the loop computes the cut, an end of its input |
| Clip.CapExecOutput | exec.go:125-146 | capExecOutput keeps these ends and counts the rest |
| Clip.CapKeeps | exec.go:116-146 | up to 20000 bytes are kept whole; of more, a beginning of at most 6666 with every line that ends in those, an end of at most 13334 with every line after a line break in those, and nothing of a line that is cut; an end without a line break loses less than a character of valid text |
| IndexExcludes.ChosenIsBest | indexstate.go:549-572 | the choice is a shortest prefix that fits, no smaller set of candidates does, and nothing is chosen for an over-limit index exactly when all candidates together do not suffice |
| IndexExcludes.FirstAreHeaviest | indexstate.go:574-589 | no k candidates hold more files than the first k |
| IndexExcludes.CandidatesAre | indexstate.go:577-589 | the candidates are the obvious directories, each as often as listed, largest first |
| IndexExcludes.CandidatesMean | indexstate.go:574-589 | the candidates are the directories whose name is usable and that hold nested checkouts, or more than half of the index under a name that looks generated; the largest first, and those of one size as listed |
| IndexExcludes.ObviousExcludes | indexstate.go:577-589 | the loop and the sort compute them |
| IndexExcludes.TakeUntilFits | indexstate.go:559-571 | the loop takes them until the rest fits |
| IndexExcludes.ChooseExcludes | indexstate.go:557-572 | chooseExcludes returns the best choice when counts are not negative |

## Left out

- JobOutput.EveryLineOnce: the pattern is fixed for a run; tuneJob's change of grep in the middle of one is not modelled.
- JobOutput.JobStream.Ask: says that reading a job drains what is pending, not that it is shown; asking for a tail, or after the end, drains it without printing it.
- JunkLines.LineReachesJunkIff: of one un-negated line; of several rules that do not each reach the junk, or with negation, the exact condition is Junk.ReachesJunk (Pruning.PruningIsLosslessIff), which is not reduced to their text.
- GlobRules.ParseGlobRule: a line with a bracket class is answered ClassPattern, not parsed.
- Glob.GlobRegex: bracket classes are not modelled, so it asks for a pattern without one; GlobRules.Parse answers ClassPattern for such a line (GlobRules.ParseGlobRule).
- Glob.AsciiMeaning: says nothing of patterns with escapes, and paths have no empty segments and no newlines.
- Recap.PlanRecap: the wording of the errors and withSaid's text are not modelled.
- IndexExcludes.ChooseExcludes: names are two predicates, usable and looks-generated.
- Ingest.PlanIngest: the order of the report's lists of directories and big files, and absolute paths, are not modelled; binary checks are parameters, and so are junk reasons, which Pruning takes from Junk.
- IngestWalk.Walk: a .gitignore is its parsed rules; unreadable corners, and files that are not regular, are not in the tree; git's own listing is not modelled.
- ShellReader.ReadUntil: reads the lines that are in the buffer; promotion, cancellation and the shell's death are events of HostShell, and the drain grace is not modelled.
- ReaderHistory.CodeIs: numbers are unbounded; one beyond 64 bits is read as 0 by the program.
- Sentinel.SplitsAtMarker: the scanner's handling of a carriage return is not modelled.
- MessageQueue.Harness.LiftQueued: its test and its drain come one right after the other; LiftedIntoCutTurnIff is about what comes between.
- Gateway.Hub.ReleaseEngine: its releases come one right after the other; EngineReleased is about what comes between.
- Gateway.Hub.Share: bearers are fresh, as the random ones the gateway mints are; askers waiting for a start are not modelled beyond their clients.
- HostShell.OneCommandPerShell: speaks of commands whose output is still read; one that forged its own marker may run on unread.
- HostShell.HostShell.Begin: whether a process starts and a write succeeds are parameters; signals are a mark on the shell.
- Processes, signals, Docker, pipes, files, git, HTTP, OAuth, MCP and LLM calls: external effects.
- The gateway's manager, its notifications and listen's address check: the model has the maps and timers, and StopServer runs after the lock is released.
- Elapsed times, heartbeats, process usage and rates: time is reduced to timers that may fire.
- agentkit, taskgraph, store.go and store.recap's files: not part of this model.
- Scope and switch precedence, index selectors, counters and thresholds decided in one branch: they would only add easy members.
- pageOf's paging of a saved result: a rune at a page boundary is dropped from both pages.
- ForceToolCall and the merging of forced tool calls, Pending, and the UI callbacks after each change.
- Message wording, JSON, prompts, tables and the terminal and mobile interfaces.
