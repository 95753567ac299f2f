# Proofs about agpair

agpair hands coding tasks to external executors and brings their results back. This project models the parts of it
that carry the most state and the most cases, and proves what they keep:

- **The Hermes config editor** (the `Hermes` files): a line editor that installs and removes a managed hook
  in a YAML file by indentation. `HermesConfig` says what removing and installing mean on the division of a file into
  blocks; `HermesEditor` holds the loops and splices and proves them equal to that; `HermesLaws`, `HermesRemoval` and
  `HermesTexts` prove exactly when installing and removing twice changes nothing, and which lines survive a removal;
  `HermesBlockStyle` and `HermesFresh` settle the ordinary files, the second for every hook command; `HermesLosses` and
  `HermesCommands` hold the files and commands on which the editor loses or moves something; `HermesPatterns` says
  character by character what the line patterns match and what is written.
- **The message bus** (`AgentBus`, `BusLaws`, `LeaseLaws`, `BusDrain`, `IsoTime`, `IsoTables`, `MessageFormat`): one
  table whose rows two readers reserve under a lease, settle, acknowledge and pull. The laws hold over every run of
  commands.
- **Receipts in logs** (`Json`, `ReceiptScanner`, `ReceiptPrinting`, `Receipts`, `ReceiptLaws`, `ReceiptTables`): a
  one-pass scanner that cuts balanced JSON objects out of noise, and the four ways a terminal receipt is recognised.
- **The local executor** (`LocalCli`, `LocalCliLaws`, `LocalCliTables`, `ProcessTree`, `Clock`): polling, judging and
  putting down a process through SIGTERM, SIGKILL and giving up; and the search for a process's descendants.
- **The daemon** (`Scheduler`, `SchedulerLaws`, `Ingest`, `IngestLaws`): the dependency scheduler, and receipt ingestion
  over the bus, each step of which may be cut off by a crash.
- **The wait loop** (`WaitLoop`, `WaitLaws`): the adaptive poll behind `task wait`.
- **The decision pipeline** (`Artifacts`, `Adoption`, `Recovery`, `PipelineLaws`, `PipelineTables`): three layers that must
  agree.

Code that works by updating things is modelled by methods and classes and proved against functions; the laws are about
those functions. Laws in numbers, words and characters pin the constants, word lists and patterns that the others speak of
by name. Library calls and the outside world (`json.loads`, `str.lower`, regular expressions over commands,
`LIKE` filters, process liveness, `killpg`, clocks, git, executors) are parameters of the model and may behave in any way.

Some promises turned out to hold only under a condition. Each condition is proved exact, and a lemma gives an input on
which the promise fails:

- Installing the Hermes hook twice is the same as once exactly when `HermesLaws.InstallStable` holds, and so for every
  file in block style (`HermesBlockStyle.BlockStyleTwice`). It fails for an
  inline `pre_llm_call: []` with something after it (`HermesLosses.EmptyListMoves`, `EmptyListSwaps`), and for a last list
  item indented less than four, which the second install deletes (`ShallowItemIsLost`). On whole texts it also fails for
  some hook commands that hold a line separator such as a form feed (`HermesCommands.BrokenCommand`,
  `FormFeedInstallsTwice`); for files without hooks it is known for which (`HermesFresh.FreshInstallTwice`).
- Removing twice is the same as once exactly when `HermesRemoval.OneRemovalSuffices` holds: a second `pre_llm_call` key
  may come to light when the first goes (`HermesLosses.TwoManagedEvents`).
- Installing refuses to overwrite an inline `hooks:` value exactly when something other than blank lines is left of the
  lines under it; otherwise removal, which runs first, has overwritten the value already, and the user's hooks are lost
  (`HermesLosses.OverwrittenIff`, `GuardedIff`, `InlineHooksAreLost`).
- A receipt is for the expected task except when there is none inside and the body is a native envelope that names
  another task (`ReceiptLaws.ExpectedTask`, `EnvelopeIsTaken`).
- A message survives formatting and parsing exactly when its task id and its status have no line feed before their
  trailing blanks, and no body line looks like a header line (`MessageFormat.RoundTripIff`, `HeaderLikeBody`).
- The wait loop ends unless a controller lease runs out before the timeout on a task that does not detach: then it
  turns without sleeping (`WaitLaws.SpinIff`, `SpinsWithoutEnd`).
- A pass of the dependency scheduler over a store with nothing running is stuck exactly when every new task waits, and
  then some of them wait for each other in a circle (`SchedulerLaws.DeadlockIff`). This cannot happen unless a task id is
  used again after its task was deleted (`NoDeadlock`, `ReusedIdDeadlocks`). All this is for at most a hundred new tasks,
  the limit of a pass (`FullIff`, `LeftOutStays`).
- The daemon acts on each receipt at most once, as long as no receipt comes again after the cleanup has purged its row
  (`IngestLaws.EachReceiptOnce`, `AtMostOnce`); otherwise it may act twice (`RepeatedIff`, `PurgedIsRepeated`). It loses one for good if it dies between recording and acting
  (`DeathLosesReceipt`).
- What adoption wants inspected is not taken by recovery, provided that the stored result carries adoption's action.
  Without it such a result is taken exactly when its primary artifact is safe code and the policy is "report" or "auto";
  a refused result is taken in neither case (`PipelineLaws.OnlyAcceptableResultsAreTaken`, `WithoutAction`).

Where comments in the code say otherwise, the code is followed. `auto_advance_dependent_tasks` says that `stuck` is
still in progress and only `committed` satisfies a dependency; the code counts `stuck` as failure and
`ready_for_review` and `evidence_ready` as success. The handling of refused signals speaks of consecutive failures; the
count is never reset. `commit_missing` reads as if no commit were named; it is given to every named commit.

## Model

| member | source | states |
|---|---|---|
| HermesEditor.TopLevelBlock | agpair/cli/hermes.py:179-188 | finds a `hooks:` block exactly if the file divides around one, and then its first line and the line past its body |
| HermesEditor.Search | agpair/cli/hermes.py:211-223 | the first line number of a range that meets the search, or the range's end |
| HermesEditor.ItemEnd | agpair/cli/hermes.py:283-290 | the list item at a line ends before the next line, not blank, that is indented no deeper than the item |
| HermesEditor.DropManaged | agpair/cli/hermes.py:278-300 | deleting while walking leaves exactly the lines outside managed items, and everything outside the event as it was |
| HermesEditor.DropIdle | agpair/cli/hermes.py:309-322 | deleting while walking leaves the block body without its idle events, and everything outside it as it was |
| HermesEditor.PruneEmptyHooks | agpair/cli/hermes.py:304-325 | the written text is the file with idle events gone, and with `hooks: {}` when only blank lines remain |
| HermesEditor.RemoveManagedConfig | agpair/cli/hermes.py:267-301 | the editor's removal is the removal defined on the division of the text |
| HermesEditor.RemoveFromBlock | agpair/cli/hermes.py:273-301 | removal inside a found block is removal on the division |
| HermesEditor.MergeManagedConfig | agpair/cli/hermes.py:226-264 | the editor's merge is insertion into the division after removal, or one of the two inline errors |
| HermesEditor.InsertManaged | agpair/cli/hermes.py:229-264 | the splices put the managed block, event or item where the division says, or raise |
| HermesPatterns.TopLevelIff | agpair/cli/hermes.py:172-176 | a line is a top-level key exactly when a letter or underscore starts it, then letters, digits, underscores and hyphens follow up to a colon; it is the `hooks:` key exactly when it starts so |
| HermesPatterns.HeaderIff | agpair/cli/hermes.py:211-223 | a line is an event header exactly when two spaces and such a key start it, and the `pre_llm_call` header exactly when it starts so |
| HermesPatterns.ItemIff | agpair/cli/hermes.py:279-281 | a line starts a list item exactly when a hyphen and white space follow its indentation; a line is blank exactly when it holds white space only |
| HermesPatterns.OpenIff | agpair/cli/hermes.py:315-317 | an event header is open exactly when nothing but blanks and a comment follow its last colon |
| HermesPatterns.MarkerIff | agpair/cli/hermes.py:29-29 | a line is managed exactly when it is the command's or says `agpair_managed: true`, in any indentation, spacing and comment |
| HermesPatterns.InsertDecides | agpair/cli/hermes.py:234-263 | where the managed lines go, by what the `hooks:` line and the line of the event say between blanks and a comment |
| HermesPatterns.QuotedCommand | agpair/cli/hermes.py:149-152 | a reader of double-quoted text gets every command back from what is written |
| HermesPatterns.FreshFileText | agpair/cli/hermes.py:195-208 | the file that installing writes where there was none, letter by letter |
| Text.SpacesAre | agpair/cli/hermes.py:280-280 | the characters that count as white space and as line breaks, one by one |
| HermesShape.ParseUnique | agpair/cli/hermes.py:179-188 | a file has one division around its first `hooks:` block |
| HermesShape.FindUnique | agpair/cli/hermes.py:211-223 | a block has one division around its first `pre_llm_call` event |
| HermesShape.ManagedBehind | agpair/cli/hermes.py:262-301 | a managed item put behind a list is all that removal takes out exactly when the list is settled; otherwise foreign lines go with it |
| HermesRemoval.RemovalKeeps | agpair/cli/hermes.py:267-325 | removal takes only whole managed items, whole events left idle, and, when nothing but blanks is left, the block's content and the value of the `hooks:` line; every other line survives in order and nothing outside the block changes |
| HermesRemoval.UnmanagedParts | agpair/cli/hermes.py:278-300 | a list is a sequence of whole items and loose lines, of which exactly the managed items are dropped |
| HermesRemoval.PrunedEvents | agpair/cli/hermes.py:309-322 | a block body is a sequence of loose lines and whole events, each reaching to the next header, of which exactly the idle events are dropped |
| HermesRemoval.RemoveTwice | agpair/cli/hermes.py:267-325 | removing is idempotent exactly when one removal suffices |
| HermesLaws.InstallTwice | agpair/cli/hermes.py:226-325 | installing is idempotent on the lines of a file exactly when the file without managed lines is stable |
| HermesLaws.BackTwice | agpair/cli/hermes.py:262-264 | appending to an existing list is idempotent exactly when that list is settled |
| HermesLaws.FrontTwice | agpair/cli/hermes.py:239-256 | replacing an empty value in place is idempotent exactly when nothing follows it and no blank-only stretch precedes it |
| HermesBlockStyle.BlockStyleTwice | agpair/cli/hermes.py:226-325 | on every file that is in block style before the first install, installing succeeds and installing twice gives the lines of installing once |
| HermesBlockStyle.OwnFileIsBlockStyle | agpair/cli/hermes.py:195-208 | the file that the installer itself writes is in block style |
| HermesTexts.InstallTextTwice | agpair/cli/hermes.py:226-264 | the exact idempotence condition of installing, for whole texts through splitting, joining and the final newline, for commands whose separators the quoting escapes |
| HermesFresh.FreshInstallTwice | agpair/cli/hermes.py:226-264 | for every command: on a text without a `hooks:` block, or with an empty one, installing twice gives the text of installing once exactly when the managed item is read back as one list that removal takes out |
| HermesFresh.OneLineIsClean | agpair/cli/hermes.py:149-152 | a command whose separators the quoting escapes is read back so |
| HermesTexts.RemoveTextTwice | agpair/cli/hermes.py:267-301 | the exact idempotence condition of removing, for every text and every command |
| HermesTexts.MergedLines | agpair/cli/hermes.py:226-264 | for every text, the two passes over text do what the line model does, though the text is written and split again between them |
| HermesLosses.OverwrittenIff | agpair/cli/hermes.py:323-324 | removal overwrites the `hooks:` line, whatever its value, exactly when it leaves nothing but blank lines under it |
| HermesLosses.GuardedIff | agpair/cli/hermes.py:239-246 | an inline `hooks:` value is refused exactly when something is left under it; otherwise the managed block replaces it |
| HermesLosses.InlineHooksAreLost | agpair/cli/hermes.py:239-246 | a file that is one line `hooks: {post: [x]}` is replaced by the managed block without an error |
| HermesLosses.EmptyListMoves | agpair/cli/hermes.py:254-256 | an inline empty list followed by another event: the first install puts the managed event in its place, the second behind all other events |
| HermesLosses.EmptyListSwaps | agpair/cli/hermes.py:254-256 | a three-line file on which the second install swaps the two events |
| HermesLosses.ShallowItemIsLost | agpair/cli/hermes.py:283-295 | a list item indented by two stays in front of the managed item at the first install and is deleted with it at the second |
| HermesLosses.SecondEventReappears | agpair/cli/hermes.py:267-301 | with the managed event twice in a block, the first removal leaves one and the second leaves none |
| HermesLosses.TwoManagedEvents | agpair/cli/hermes.py:267-301 | such a file with both removals: the managed block is left first, then `hooks: {}` |
| HermesCommands.BrokenCommand | agpair/cli/hermes.py:226-264 | a command with an unescaped separator whose second half is a shallow plain line: the second install leaves the broken lines and adds the hook again |
| HermesCommands.FormFeedInstallsTwice | agpair/cli/hermes.py:226-264 | such a command: two letters with a form feed between them |
| AgentBus.Table.ReserveMessages | agpair/cli/agent_bus.py:259-330 | gives each selected row its own fresh claim and the same lease end, and changes nothing else |
| AgentBus.Table.SelectMessages | agpair/cli/agent_bus.py:298-302 | the query visits the rows in id order and collects the wanted ones up to the limit |
| AgentBus.Table.SettleClaims | agpair/cli/agent_bus.py:333-353 | the update marks exactly the unread rows that hold one of the claims, clears their leases, leaves every other row alone, and returns how many it marked |
| AgentBus.Table.AckMessages | agpair/cli/agent_bus.py:613-641 | the update marks exactly the unread rows among the ids, whatever their lease, leaves every other row alone, and returns how many it marked |
| AgentBus.Table.PullMessages | agpair/cli/agent_bus.py:189-256 | the two statements of the plain pull: what was selected, leases or not, is what was unread, is returned in order, and is read afterwards |
| AgentBus.Table.PullByReserving | agpair/cli/agent_bus.py:461-491 | the pull command is a reserve followed by a settle of just its claims |
| AgentBus.SelectShape | agpair/cli/agent_bus.py:298-302 | a selection lists matching rows in id order, none twice, within the limit |
| AgentBus.SelectComplete | agpair/cli/agent_bus.py:298-302 | a matching row is passed over only when the limit was used up on rows before it |
| BusLaws.LeasesNeverOverlap | agpair/cli/agent_bus.py:259-330 | in every run, of two leases of one message to one reader the earlier ends strictly before the later call's clock reading |
| LeaseLaws.LeaseHolds | agpair/cli/agent_bus.py:147-150 | once a call has reserved a row, then, over every run, no call of the same reader selects it while the clock is not past the start of the lease plus its length, at least one |
| LeaseLaws.LeaseEnds | agpair/cli/agent_bus.py:259-330 | as soon as the clock is past that, an unread row that passes the filters is selected again, unless the limit is used up on rows before it |
| LeaseLaws.SelectionIsDue | agpair/cli/agent_bus.py:289-302 | a reserve call takes due rows only, all of them up to the limit: twenty if none is given, never more than a hundred |
| BusLaws.SupersededSettles | agpair/cli/agent_bus.py:333-353 | settling a claim that a later lease replaced changes no row and returns 0 |
| BusLaws.StepRow | agpair/cli/agent_bus.py:189-353 | a command never touches the other reader's columns, a set read mark, or a message's text |
| BusLaws.ReadForever | agpair/cli/agent_bus.py:270-353 | over every run a read mark never changes and a read message is never leased again |
| BusLaws.ConsumedReads | agpair/cli/agent_bus.py:333-353 | the count a command returns is the number of messages it newly reads |
| BusLaws.Conservation | agpair/cli/agent_bus.py:270-353 | over every run the counts returned to a reader add up to the messages that reader has read |
| BusDrain.ReserveAndSettleRow | agpair/cli/agent_bus.py:461-491 | reserve then settle reads exactly the selected rows, leaves no lease on them and touches nothing else |
| BusDrain.PullsAgree | agpair/cli/agent_bus.py:189-353 | the two pulls return the same messages exactly when none of them is under a live lease, and then read the same ones |
| BusDrain.FifoDrain | agpair/cli/agent_bus.py:461-491 | with no other live leases, rounds deliver the backlog in id order, each message once |
| BusDrain.DrainRounds | agpair/cli/agent_bus.py:461-491 | the backlog is empty exactly after its size divided by the limit, rounded up, rounds |
| BusDrain.SentJoinsBacklog | agpair/cli/agent_bus.py:361-397 | a sent message joins the end of exactly the backlogs whose filters it passes |
| IsoTime.TextOrderIsTimeOrder | agpair/cli/agent_bus.py:63-64 | comparing two stored timestamps as texts compares the instants, though a zero fraction is left out |
| IsoTime.FractionOrder | agpair/cli/agent_bus.py:147-150 | a missing fraction sorts first, because '+' sorts before '.' |
| IsoTables.NextDay | agpair/cli/agent_bus.py:63-64 | a day later the instant is a day's microseconds later, across the ends of months, years and leap years |
| IsoTables.WithinDay | agpair/cli/agent_bus.py:63-64 | within a day the instants go by hours, minutes, seconds and microseconds |
| IsoTables.IsoReads | agpair/cli/agent_bus.py:147-150 | the text of a time is made of its fields, each in its digits, in the stated order |
| MessageFormat.ParseMessage | agpair/cli/agent_bus.py:125-140 | the loop over lines and the dropping of blank lines read the last header fields and the body after them |
| MessageFormat.RoundTripIff | agpair/cli/agent_bus.py:117-140 | for all inputs: task id, status and body come back stripped exactly when neither field has a line feed before its trailing blanks and no body line starts like a header line |
| MessageFormat.FieldsIff | agpair/cli/agent_bus.py:125-140 | the two fields alone come back exactly when each was written on one line |
| MessageFormat.HeaderLikeBody | agpair/cli/agent_bus.py:117-140 | a body that looks like a header line is lost, and its text comes back as the task id |
| ReceiptScanner.BalancedJsonObjectCandidates | agpair/terminal_receipts.py:281-312 | the one-pass machine returns the objects of the text |
| ReceiptScanner.FoundIffCut | agpair/terminal_receipts.py:281-312 | on every text the candidates are the objects of a cut: gaps without `{`, balanced objects with no shorter balanced prefix, and at most one never-closed rest; every cut has the same objects |
| ReceiptScanner.EveryTextIsCut | agpair/terminal_receipts.py:281-312 | every text has such a cut |
| ReceiptPrinting.ScannerUndoesPrinter | agpair/terminal_receipts.py:281-312 | printed objects among noise without `{` are found again, each exactly and in order, whatever layout and valid escapes the printer uses |
| ReceiptPrinting.MinimalIsValid | agpair/terminal_receipts.py:281-312 | the escapes of RFC 8259 are one of the printing styles that the law allows |
| ReceiptPrinting.PrintedIsBalanced | agpair/terminal_receipts.py:281-312 | a printed JSON object is balanced for the scanner, strings with braces and quotes included |
| Receipts.ReceiptFromJsonCandidates | agpair/terminal_receipts.py:315-329 | the reversed loop returns the last candidate that is a receipt |
| Receipts.WrappedTextCandidates | agpair/terminal_receipts.py:332-352 | recursion over an envelope gives its texts in the documented order |
| Receipts.SearchWrappedTexts | agpair/terminal_receipts.py:465-483 | the first text with a receipt gives the receipt on its last such line |
| Receipts.NormalizeTerminalReceipt | agpair/terminal_receipts.py:430-498 | the four ways of reading are tried in order; the three error results and the warnings of each way are as coded |
| Receipts.ProtocolForReceipt | agpair/terminal_receipts.py:246-271 | the warnings about source, schema alias, status alias and missing artifact, each once and in that order |
| ReceiptTables.StatusWords | agpair/terminal_receipts.py:54-93 | which words stand for which status: its name in capitals, or an alias in any case |
| ReceiptTables.AcceptedIff | agpair/terminal_receipts.py:168-215 | a value is a receipt exactly when it is a dictionary with the seven fields that say what the caller wants; the receipt carries them |
| ReceiptTables.NativeIff | agpair/terminal_receipts.py:355-408 | a dictionary is taken for a receipt of its own exactly when one of the signs of success is there, no error flag, a task, a report, and no other status is wanted |
| ReceiptTables.NativeSays | agpair/terminal_receipts.py:382-414 | what such a receipt says, field by field |
| ReceiptTables.SummaryIs | agpair/terminal_receipts.py:395-397 | the summary is the first line of the report that is not blank, cut at 180 characters |
| ReceiptTables.TextsInOrder | agpair/terminal_receipts.py:332-352 | the six known keys of an envelope are tried first, in their own order |
| ReceiptTables.OthersInOrder | agpair/terminal_receipts.py:332-352 | the other keys follow in the order they are written |
| ReceiptTables.WarningsAre | agpair/terminal_receipts.py:246-271 | each warning with its exact ground |
| ReceiptLaws.FailureMeans | agpair/terminal_receipts.py:430-498 | the three errors with their exact grounds |
| ReceiptLaws.EveryTextOnce | agpair/terminal_receipts.py:332-352 | the search through an envelope visits every text in it, and none twice |
| ReceiptLaws.ExpectedTask | agpair/terminal_receipts.py:355-498 | a receipt comes back for another task than expected exactly when no receipt is inside the body and the body is a native envelope naming that other task |
| ReceiptLaws.ExpectedStatus | agpair/terminal_receipts.py:168-215 | a receipt has the expected status exactly when that status is a known one; otherwise only a native envelope gets through |
| ReceiptLaws.EnvelopeIsTaken | agpair/terminal_receipts.py:382-384 | such an input: a successful envelope of another task is accepted for that task |
| ReceiptLaws.WrittenIsCanonical | agpair/terminal_receipts.py:246-271 | a receipt written out as a dictionary never raises an alias warning |
| ReceiptLaws.ReceiptRoundTrip | agpair/terminal_receipts.py:168-215 | a receipt written out as a dictionary is accepted with all its fields, by exactly the callers that want it |
| ReceiptLaws.AcceptedIsNormal | agpair/terminal_receipts.py:206-215 | every accepted receipt, written out again, is accepted as the same receipt |
| ReceiptLaws.LastPrintedReceiptWins | agpair/terminal_receipts.py:430-464 | in a log that is not JSON as a whole, the last printed receipt that fits is returned, or the log is malformed |
| LocalCli.Session.HandleSignalPermissionError | agpair/executors/local_cli.py:1404-1435 | counts a refusal unless the process is gone, and gives up at the sixtieth |
| LocalCli.Session.EnsureProcessDead | agpair/executors/local_cli.py:1352-1402 | one attempt changes only the escalation, delivers at most the next signal, and says whether the process counts as alive |
| LocalCli.Session.ObserveRepository | agpair/executors/local_cli.py:812-834 | a commit is noted once, with its date, only if it is real and names the task |
| LocalCli.Session.PollOnce | agpair/executors/local_cli.py:778-874 | a poll observes, judges once, puts the process down and only then reports |
| LocalCli.Session.Cancel | agpair/executors/local_cli.py:1501-1516 | cancelling is one attempt that leaves the verdict alone |
| LocalCli.Session.Cleanup | agpair/executors/local_cli.py:1518-1543 | cleaning up leaves a directory that is not named like one of its own alone, and removes its own only when the process counts as dead |
| LocalCliLaws.SignalsAreFew | agpair/executors/local_cli.py:1352-1402 | in any run at most one SIGTERM and one SIGKILL are delivered, in that order and more than four real seconds apart |
| LocalCliLaws.GivenUpAfterKill | agpair/executors/local_cli.py:1380-1402 | a process that is there, ours and open to signals is given up only after both signals were delivered, and more than a second after the second |
| LocalCliLaws.BoundedKill | agpair/executors/local_cli.py:1352-1435 | from any state, judged or not, in any run of polls, cancels and cleanups, the attempts to put the process down that it survives are at most a number that depends only on the clock's pace |
| LocalCliLaws.OnceASecond | agpair/executors/local_cli.py:1352-1435 | with at least a second between attempts that number is 69 |
| LocalCliLaws.PursuedIsDown | agpair/executors/local_cli.py:1501-1543 | so a session that is cancelled over and over before any verdict, or a judged one under any mixture of steps, is marked dead or removed |
| LocalCliLaws.AttemptCosts | agpair/executors/local_cli.py:1365-1402 | every attempt that leaves the process up uses up part of a measure of refusals and waits |
| LocalCliLaws.RefusalsAreCounted | agpair/executors/local_cli.py:1404-1435 | an attempt counts at most one refusal, and none is survived at the limit |
| LocalCliLaws.VerdictIsFinal | agpair/executors/local_cli.py:841-874 | once judged, the next completed poll reports that very receipt in every run; only removing the directory first loses it |
| LocalCliLaws.FirstVerdictStands | agpair/executors/local_cli.py:835-874 | from the poll that judges on: the first completed poll reports the receipt of that judgement in every run |
| LocalCliLaws.DoneLeavesNothing | agpair/executors/local_cli.py:850-874 | a completed poll leaves no verdict waiting and no process counted as alive |
| LocalCliLaws.CompletionMeansDown | agpair/executors/local_cli.py:850-874 | a judged session completes exactly when the exit code is known, no live process is left, or the attempt gives up |
| LocalCliLaws.StaysUnjudgedIff | agpair/executors/local_cli.py:778-866 | a poll leaves a session running and unjudged exactly if the executor lives, left no exit code, does not wait for input, and has not outstayed a commit that an earlier poll noted |
| LocalCliLaws.RunKeeps | agpair/executors/local_cli.py:796-834 | a detected commit, its date and a known exit code are never taken back |
| LocalCliLaws.CommittedIff | agpair/executors/local_cli.py:812-834 | over every run from the start, the session counts as committed exactly if some poll found the head moved, real changes and a commit that names the task |
| LocalCliLaws.CommitIsDated | agpair/executors/local_cli.py:812-834 | and it carries the second of the first such poll |
| LocalCliLaws.CommittedMeansCommit | agpair/executors/local_cli.py:1076-1338 | in any run from the start, a "committed" receipt that no structured log gave means that such a poll was made |
| LocalCliLaws.EvidenceMeansWork | agpair/executors/local_cli.py:1076-1338 | in any run from the start, an evidence pack that no structured log gave means a session that may salvage reports, or one that may write and exited with code 0 |
| LocalCliTables.UpIff | agpair/executors/local_cli.py:1352-1435 | in seconds and refusals: a process counts as up after an attempt exactly if it is there and withstood the signal, or SIGTERM is less than five seconds old, or SIGKILL no more than two |
| LocalCliTables.SixtiethRefusal | agpair/executors/local_cli.py:1404-1435 | a process that refuses every signal from the start counts as up until the sixtieth refusal, and then no more |
| LocalCliTables.DeliveredIff | agpair/executors/local_cli.py:1365-1402 | which attempts deliver a signal, and which one |
| LocalCliTables.RemovedIff | agpair/executors/local_cli.py:1518-1543 | cleaning up removes a directory exactly if it is agpair's own and no process is left |
| LocalCliTables.AttemptCode | agpair/executors/local_cli.py:1352-1402 | the code of an attempt: 137 at the stage of SIGKILL, 143 before it or when the process turned out to be gone |
| LocalCliTables.CodeKept | agpair/executors/local_cli.py:1501-1543 | whose code stays: a cancel's and a cleanup's over an older one, an older one over a poll's |
| LocalCliTables.ExitIsFirst | agpair/executors/local_cli.py:794-811 | over every run, the exit code is what the first poll that finds the file reads, 1 if it is no number |
| LocalCliTables.ReasonMeans | agpair/executors/local_cli.py:1076-1338 | what each reason of a verdict means for the session and for what was found, and which status goes with it |
| ProcessTree.GroupByParent | agpair/executors/claude_auth.py:357-367 | the dictionary lists every pid under its parent, in table order |
| ProcessTree.ProcessDescendants | agpair/executors/claude_auth.py:368-376 | the worklist ends and finds exactly the pids reachable by one or more lines, on any table |
| Scheduler.TaskRepository.JudgeDependencies | agpair/daemon/loop.py:197-211 | the loop stops at the first dependency that has not succeeded, and that one decides |
| Scheduler.TaskRepository.AutoAdvanceDependentTasks | agpair/daemon/loop.py:164-289 | a pass over the new tasks leaves the stated store and count |
| SchedulerLaws.HandedIffReady | agpair/daemon/loop.py:213-266 | a pass hands over exactly the scanned tasks whose dependencies had all succeeded when it began, each once |
| SchedulerLaws.TickDecides | agpair/daemon/loop.py:213-287 | a scanned task that is not waiting is blocked by a failed dependency, or handed over and then blocked, acknowledged or left new |
| SchedulerLaws.PassDecides | agpair/daemon/loop.py:160-289 | phase by phase: a scanned task is handed over exactly when all its dependencies are ready for review, have evidence ready or are committed; it is blocked without that exactly when one is missing, blocked, abandoned or stuck and those before it are fine |
| SchedulerLaws.AdvancedCounts | agpair/daemon/loop.py:266-289 | the number a pass returns is that of the tasks handed over and taken without an exception |
| SchedulerLaws.ListingExists | agpair/daemon/loop.py:186-186 | every store can be listed within the limit of a hundred |
| SchedulerLaws.TickEvolves | agpair/daemon/loop.py:164-289 | a pass moves scanned tasks from new to blocked or acknowledged and changes nothing else |
| SchedulerLaws.DispatchFollowsDependencies | agpair/cli/task.py:1941-1947 | whether the start command or the daemon hands a task over, all its dependencies exist and have succeeded at that moment |
| SchedulerLaws.StartDecides | agpair/cli/task.py:1859-1947 | phase by phase: what the start command accepts, hands over at once, and stores |
| SchedulerLaws.DeletedIsOver | agpair/storage/tasks.py:420-434 | only a task that has succeeded or failed can be deleted |
| SchedulerLaws.StepKeepsLayers | agpair/cli/task.py:1859-1872 | dependencies stay older than the tasks that name them, so the graph has no cycle |
| SchedulerLaws.RunKeepsLayers | agpair/cli/task.py:1859-1906 | the same over every run that never uses an id again |
| SchedulerLaws.MovesIff | agpair/daemon/loop.py:186-289 | with nothing running, a pass moves some task on exactly when some new task does not wait |
| SchedulerLaws.DeadlockIff | agpair/daemon/loop.py:186-289 | with nothing running and something new, a pass changes nothing exactly when every new task waits, and then there is a circle among them |
| SchedulerLaws.AllWaitingIsCircular | agpair/daemon/loop.py:197-211 | when every new task waits for one that is new, some wait for each other in a circle |
| SchedulerLaws.CircleStays | agpair/daemon/loop.py:164-289 | no pass ever opens such a circle |
| SchedulerLaws.NoDeadlock | agpair/daemon/loop.py:186-289 | when no dependency is younger than its task, nothing runs and at most a hundred tasks are new, a pass moves some waiting task on |
| SchedulerLaws.EverythingRuns | agpair/daemon/loop.py:186-289 | after as many rounds as there were waiting tasks, nothing waits |
| SchedulerLaws.NoSessionRepeats | agpair/daemon/loop.py:278-287 | an executor that returns no session is handed the same task in every pass |
| SchedulerLaws.FullIff | agpair/daemon/loop.py:186-186 | a pass leaves no new task out exactly when there are at most a hundred of them |
| SchedulerLaws.LeftOutStays | agpair/daemon/loop.py:186-186 | a new task is left out only behind a hundred others, and then stays as it is |
| SchedulerLaws.ReusedIdDeadlocks | agpair/cli/task.py:1870-1872 | reusing the id of a deleted task can make two tasks wait for each other for ever |
| Ingest.Daemon.Record | agpair/storage/receipts.py:31-62 | inserts a row unless its message id, or its task and delivery id, is there already; both stay unique in the table, and the message is known afterwards |
| Ingest.Daemon.SettleReservedClaim | agpair/daemon/loop.py:578-592 | settles the one claim or counts one bus error |
| Ingest.Daemon.IngestOne | agpair/daemon/loop.py:475-574 | one message is recorded, acted on and settled in that order, with every early exit |
| Ingest.Daemon.IngestNewReceipts | agpair/daemon/loop.py:456-575 | the loop handles the messages in turn; it counts and collects exactly those handled to the end, and counts failed reservations and settlings as bus errors |
| IngestLaws.EachReceiptOnce | agpair/daemon/loop.py:475-575 | in every interleaving of bus, other consumers, leases, daemon passes, crashes and cleanups, no message id and no delivery of a task is acted on twice, as long as the receipts table still knows what it ever knew of the messages that may come |
| IngestLaws.AtMostOnce | agpair/daemon/loop.py:475-575 | without cleanups nothing is ever acted on twice, whatever is sent, fetched, expired or redelivered |
| IngestLaws.ReadOnlyIfRecorded | agpair/daemon/loop.py:497-501 | in every interleaving without other consumers of the daemon's messages, a message read for the daemon is one that was entered in the receipts table; an expired or superseded claim never marks another |
| IngestLaws.FirstHandling | agpair/daemon/loop.py:485-566 | a message seen for the first time is recorded, and acted on exactly if it is an evidence pack, a block or a commit, its task exists, its number is greater than the last receipt's where both are numbers, and the daemon survives the recording |
| IngestLaws.FirstSettling | agpair/daemon/loop.py:497-574 | whether its row on the bus is read then, by status, task, session, failure and death; nothing else on the bus changes |
| IngestLaws.HandledIff | agpair/daemon/loop.py:485-575 | which messages count as handled |
| IngestLaws.UnsettledIff | agpair/daemon/loop.py:578-592 | which messages count as bus errors |
| IngestLaws.DeathLosesReceipt | agpair/daemon/loop.py:497-501 | a daemon that dies between recording and acting loses the receipt: no redelivery is ever acted on |
| IngestLaws.RedeliveryEnds | agpair/daemon/loop.py:499-501 | a redelivered message that is known has its row read once settling works, and every other row, the receipts and the actions stay as they are |
| IngestLaws.RepeatedIff | agpair/daemon/loop.py:475-575 | from any world in which nothing was acted on twice, the daemon can come to do so by just going on if and only if something like a message acted on may come that the table does not know |
| IngestLaws.PurgedIsRepeated | agpair/storage/receipts.py:14-21 | such a run: a receipt acted on but not settled, a cleanup, and a redelivery that is acted on again |
| WaitLoop.WaitForTerminalPhase | agpair/cli/wait.py:237-422 | rejects a non-positive interval before anything is registered, registers one waiter unless the task has one, follows the turns, and closes its own waiter when it ends, by a result or an exception; other waiters stay as they are |
| WaitLoop.WaiterRepository.StartWaiter | agpair/storage/waiters.py:21-45 | registers a waiter exactly when the task has no active one; afterwards it has one, and no task has two |
| WaitLaws.PauseFits | agpair/cli/wait.py:135-149 | a pause never exceeds the time left and is empty exactly when none is left |
| WaitLaws.PauseIs | agpair/cli/wait.py:135-149 | a pause is the interval, a second during the first ninety, or the time left, whichever is least |
| WaitLaws.NeverOversleeps | agpair/cli/wait.py:403-414 | a wait is never asleep past the nearer of its two deadlines |
| WaitLaws.WaitEnds | agpair/cli/wait.py:294-414 | without an early lease, or with a task that detaches, the wait is over after a known number of polls |
| WaitLaws.PollsAtMost | agpair/cli/wait.py:135-149 | that number: one a second for ninety seconds, then one an interval |
| WaitLaws.SpinIff | agpair/cli/wait.py:374-413 | a turn goes on without sleeping exactly when the lease has ended; then the timeout has not, and the task does not detach |
| WaitLaws.LateTurn | agpair/cli/wait.py:374-413 | a turn that begins past a deadline and goes on all the same is one past its lease, before its timeout, on a task that does not detach |
| WaitLaws.SpinsWithoutEnd | agpair/cli/wait.py:374-413 | then the loop turns any number of times with the clock standing still |
| WaitLaws.SuccessMeans | agpair/cli/wait.py:294-443 | a whole wait exits with code 0 exactly when some look of it showed a success phase waited for, or its last look a background task that may be left running, and with 1 else |
| WaitLaws.ApprovalMeans | agpair/cli/wait.py:294-450 | a whole wait for an approval exits with code 0 exactly when some look of it saw the task committed, and with 1 else |
| WaitLaws.WaitReports | agpair/cli/wait.py:294-422 | the phase, the timeout and the silence that a whole wait reports, from its last look |
| Artifacts.ClassifyDiff | agpair/artifact_classification.py:223-259 | the appended blockers and warnings of a worktree diff, and the state they give it |
| Artifacts.CollectArtifacts | agpair/artifact_classification.py:139-220 | the appended artifacts are report, salvage, diff, commit and evidence, each under its condition |
| Adoption.AppendScopeBlockers | agpair/adoption.py:397-407 | names each kind of scope violation, or the violation itself when none is named |
| Adoption.DecideEvidence | agpair/adoption.py:348-362 | the evidence policies' answer and list of blockers |
| Adoption.CollectBlockers | agpair/adoption.py:292-316 | the hard blockers of all artifacts in order, then the one of the receipt |
| PipelineLaws.BestIsBest | agpair/artifact_classification.py:273-286 | the primary artifact is a usable or reviewable one of least rank, and is missing only if there is none |
| PipelineLaws.ClassifyShape | agpair/artifact_classification.py:75-136 | a result is blocked exactly by a global blocker or for want of any safe artifact |
| PipelineLaws.RefusedIff | agpair/adoption.py:303-351 | "no" exactly for a blocked classification or, under the evidence policies, for nothing but validation notes |
| PipelineLaws.NoIffBlocked | agpair/adoption.py:62-96 | a result counts as "no" exactly when the agent result is "blocked" |
| PipelineLaws.EvidenceAcceptedIff | agpair/adoption.py:348-362 | under the evidence policies "yes" exactly for a usable classification with report or code, no blocker, files present, scope kept, diff applying, validation, and no risky warning |
| PipelineLaws.ReportAcceptedIff | agpair/adoption.py:318-335 | under the report policy "yes" exactly for a usable classification with a report and a receipt and without any blocker |
| PipelineTables.StateFromInput | agpair/artifact_classification.py:75-136 | the state of a classification from the fields of the receipt, the eleven fatal blockers spelt out |
| PipelineTables.PrimaryFromInput | agpair/artifact_classification.py:273-286 | which artifact is primary, from the input: what can be used first, then code before reports before notes |
| PipelineTables.BlockedFromInput | agpair/artifact_classification.py:94-136 | what a blocked classification names, and that it keeps the artifacts there are |
| PipelineTables.DiffNames | agpair/artifact_classification.py:223-259 | each blocker of a worktree diff with its exact ground, and its warning |
| PipelineTables.EvidenceAcceptedFromInput | agpair/adoption.py:199-362 | acceptance under the evidence policies, from the fields of the receipt, the diff, the scope check and the warnings |
| PipelineTables.ReportAcceptedFromInput | agpair/adoption.py:318-335 | acceptance under the report policy, from the input |
| PipelineTables.AdviceFromInput | agpair/adoption.py:99-116 | adoption's advice, from the input |
| PipelineTables.EvidenceNames | agpair/adoption.py:348-407 | each blocker that the evidence policies name, with its exact ground |
| PipelineTables.OtherNames | agpair/adoption.py:318-346 | each blocker that the report policy and the commit policy name, with its exact ground |
| PipelineTables.AgentBlockers | agpair/adoption.py:62-96 | which blockers the agent result carries |
| PipelineTables.ReceiptBlockersIff | agpair/adoption.py:313-316 | the receipt's own blocker: the one it names, else that it says "blocked" |
| PipelineTables.RecoveryIff | agpair/recovery.py:66-182 | for each of recovery's actions, the exact situations in which it is chosen, blockers spelt out |
| PipelineTables.NextGoesAlong | agpair/recovery.py:107-182 | the next executor is named with a retry, a repair, a switch or an inspection only |
| PipelineLaws.UsableIffAccepted | agpair/adoption.py:62-96 | the agent result is "usable" exactly for a "yes" that needed no major rework, and then carries no blocker |
| PipelineLaws.CommitPolicyNeverAccepts | agpair/adoption.py:337-346 | no input makes the commit policy say "yes" |
| PipelineLaws.NamedCommitIsMissing | agpair/adoption.py:337-346 | a named commit without a fatal blocker always comes out "partial" with `commit_missing` |
| PipelineLaws.CommitNeedsReview | agpair/artifact_classification.py:195-208 | a commit artifact keeps the whole classification from being usable |
| PipelineLaws.OnlyAcceptableResultsAreTaken | agpair/recovery.py:66-104 | from artifacts to recovery, a result is used or reviewed and applied exactly when adoption recommended it, and never when refused |
| PipelineLaws.OnlyRefusedResultsMove | agpair/recovery.py:160-175 | from artifacts to recovery, a task moves to another executor only when adoption refused its result and no executor was asked for, and then to the eligible one |
| PipelineLaws.WithoutAction | agpair/recovery.py:73-104 | stored without adoption's action, a refused result is still never taken, and one that adoption wanted inspected is taken exactly when its primary artifact is safe code under the policies "report" and "auto" |

## Left out

- HermesTexts.InstallTextTwice: the hook command must contain no line separator but line feed and carriage return, the two that the quoting escapes. For other commands the law is false (HermesCommands.FormFeedInstallsTwice); the exact condition for them is proved for files without hooks only (HermesFresh.FreshInstallTwice), not for files with hooks of their own. The law on lines, HermesLaws.InstallTwice, needs no such condition.
- BusLaws.LeasesNeverOverlap: the two clock readings of one reserve call must not run backwards between them; the clock may do anything between calls.
- WaitLaws.NeverOversleeps: the clock moves by sleeping only; the bound on polls allows any other delay.
- LocalCliLaws.BoundedKill: one process at a time reads and writes the session state; two pollers racing on the state file are not modelled.
- SchedulerLaws.NoDeadlock: a pass is one step; phase changes by others between reading a task and dispatching it are not modelled, and so the second look at the phase before dispatch decides nothing.
- IngestLaws.EachReceiptOnce: finalisation through the wait loop's inline poll does not go through that table and is outside the law.
- Retries dispatch a task without looking at its dependencies; they appear as phase changes by others.
- Everything after a receipt is accepted (payload validation, artifact files, phase texts).
- `json.loads` on nesting too deep for Python's stack.
- The texts of receipts, summaries and recovery commands, beyond which branch produced them; the dirtiness of the worktree; cleaning of git locks and reaping of children.
- Database locking and retries, schema migrations, `cmd_watch` and the read-only `cmd_fetch`.
- Classifying liveness for the watchdog: whether a task is silent is an input of the wait loop.
- The stdout heuristics that find a completed report, and the regular expressions that recognise the managed command: both are inputs.
- Authentication probes, worktrees, workflows, desktop lock, and all printing, status and doctor commands: no property as hard as those above.
