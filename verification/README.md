# MyClaw: verified models of its state machines, parsers and migrations

This project models the parts of MyClaw (an agent daemon and its data-migration scripts) whose correctness
is not obvious from one function body, and proves what they promise. File systems are maps from paths to
texts, clocks and randomness are parameters, and every text is a `string` handled character by character
unless "Left out" says otherwise. `dafny verify dfyconfig.toml` checks the whole project.

| file | models |
|---|---|
| `Text.dfy`, `Newlines.dfy` | trimming, searching and cutting text into lines as Python and Rust do |
| `MemoryFront.dfy`, `MemoryLinks.dfy`, `LinkRewriting.dfy`, `MemorySplit.dfy` | `scripts/migrate-memory-split.py`: front matter, links, and the crash-safe run with its rollback |
| `LayoutLog.dfy`, `LayoutMigration.dfy`, `LayoutRollback.dfy` | `scripts/migrate-layout.py`: moves on a tree, their undo log, the actions and their manifest, and rolling a whole run back |
| `Attachment.dfy` | `src/agents/attachment.rs`: reminders printed into the history and read back from it |
| `AskRouter.dfy` | `src/agents/ask_router.rs`: the concurrent table of outstanding asks as interleaved atomic steps |
| `Mention.dfy` | `src/agents/mention.rs`: references rendered whole and streamed, and the resolver they undo |
| `SkillFrontMatter.dfy`, `YamlReader.dfy` | `scripts/migrate_skill_frontmatter.py` and the readers of `src/str_utils.rs`: two parsers of one text |
| `LoopBreaker.dfy`, `LinkCode.dfy`, `InboxBudget.dfy` | `src/agents/loop_breaker.rs`, `src/commands/link.rs`, `src/agents/delegation.rs` |

Code that updates fields or runs loops is a class or a method proved against a specification function or
predicate; the laws are lemmas about that specification, over all inputs and all runs.

## What the proofs found

Where a promise of the code or its comments is false in general, the code is modelled as it is, a concrete
input shows the failure, and it is proved when the promise holds, for all inputs:

- A reference tag cut after its first, second or third character stays unrendered in a stream
  (src/agents/mention.rs:80-94), although the comment there allows cuts anywhere: `StreamingIff` gives the
  exact condition.
- De-linking the inner of two nested links can create a dangling link, because the rewrite goes line by line
  over matches that do not overlap (scripts/migrate-memory-split.py:505): `NestedDeadLinkDangles`. It happens
  exactly through links that only the rewritten text makes, those whose `](` belongs to no link that was
  written: `ResolvesIff`, `RewriteBodyTwice` and `RewriteKeepsReading` say exactly when such a body resolves,
  stays as it is and means the same. A body has none when no `[` outside a link is closed by a `](` outside a
  link (`GapFreeNoneLoose`).
- Dropping a wrong layer prefix from a name that starts with `#`, `mailto:`, `agent:` or `user:` loses the
  target: `TargetKeptIff` is exact.
- An attribution line ended by another line separator than a newline runs into the next line, which can lose
  the owner (`ExoticEndLosesOwner`) or swallow the closing fence. `AttributedIff` says on the source fields
  exactly when a normalised file is attributed, and `CompletedRunPasses` when a completed run passes.
- `detect_state` looks at names and not at texts (scripts/migrate-memory-split.py:567-598): a run cut while its
  links are rewritten is not told from a finished one (`StateAfterDispatch`); a run cut during dispatch is
  (`StateDuringDispatch`).
- Destinations that were absent and never at or below an earlier source do not make a layout log undoable:
  `NeverBelowIsNotEnough` is a run; `UndoIff` gives the exact condition for a log of moves.
- The rollback of the layout migration first unlinks the created paths, and with them an original file that a
  later move put there (`OriginalIsUnlinked`). `MigrateThenUndo` says exactly when every source is free and
  which files then come back, and `ClearRunsRollBack` gives a condition on the run under which all do.
- The reminder reader panics on the lines `- ~~` and `- ~~~` and on no other (`FatalIff`,
  `RebuildPanicsIff`). A skill announced with white space around its name can never be withdrawn
  (`UntrimmedNameStays`); `ReminderSynchronises` gives the exact condition. Headers in a server's instructions
  are read as the reader's own (`InstructionsNameServer`): `ServersAnnounced` is exact about the servers.
- The skill migrator loses list items that are not indented, which the daemon reads (`UnindentedListIsLost`),
  and escapes double quotes that the daemon does not unescape: `DaemonReadsSame` says exactly when the daemon
  reads a moved key as before.
- The daemon's block reader slices lines by bytes and panics inside a wide space (`WideSpacePanics`):
  `BlockPanicsIff` is exact.
- A link-code confirm needs no assumption on the clock, and the exhausted-attempts check is dead code:
  `ConfirmIff`, `NeverExhausted`. A link command whose code cannot be delivered withdraws a newer attempt of
  the same user when there is one: `NewerStartIsLost`, and exactly then: `FailureWithdraws`.

## Model

| member | source | states |
|---|---|---|
| MemorySplit.ForwardRunRollsBack | scripts/migrate-memory-split.py:686-754 | a forward run cut after any write or removal, or inside one, and then any rollbacks cut before the backup goes: the next rollback gives back exactly the owned texts and the foreign files, and no backup |
| MemorySplit.OwnedOpsRecoverable | scripts/migrate-memory-split.py:686-754 | operations on owned names, in any number and order, leave the world recoverable |
| MemorySplit.RecoverableRollsBack | scripts/migrate-memory-split.py:686-754 | from a recoverable world the rollback accepts the backup and restores the world the run started from |
| MemorySplit.Pool.DoRollback | scripts/migrate-memory-split.py:686-754 | the loops restore exactly the owned files, refuse an incomplete backup, touch only owned names, and warn exactly when a foreign file is gone |
| MemorySplit.Pool.TakeBackup | scripts/migrate-memory-split.py:945-988 | the backup holds every pool file, and the manifest its owned and foreign names |
| MemorySplit.Pool.DispatchOne | scripts/migrate-memory-split.py:776-803 | one name is dispatched as planned; a dry run writes nothing; every survivor stays in a layer after every single write |
| MemorySplit.Pool.DispatchAll | scripts/migrate-memory-split.py:776-803 | the dispatch loop reaches the planned layers, and fails exactly when a survivor has no front matter |
| MemorySplit.Pool.Merge | scripts/migrate-memory-split.py:808-822 | the deleted file's whole body, without the newlines around it, stands behind the target under the dated heading, and the log gets exactly the write of the target and then the removal of the source |
| MemorySplit.Pool.LinkAll | scripts/migrate-memory-split.py:824-837 | the link pass leaves the planned texts and reports the planned rewrites and dead links |
| MemorySplit.Pool.PlanAndExecute | scripts/migrate-memory-split.py:761-837 | a dry run returns the report of the real run and changes nothing; a real run ends in the planned texts, only touching owned names and holding every survivor at every step |
| MemorySplit.Pool.RunSteps | scripts/migrate-memory-split.py:945-1020 | an accepted run backs up first, reaches the planned layers, is detected as migrated, and succeeds exactly when every survivor is sound |
| MemorySplit.Pool.Migrate | scripts/migrate-memory-split.py:917-1020 | refusals, dry runs and re-runs of a finished run write nothing; an accepted run backs up, runs, is detected as migrated, and succeeds exactly when every survivor is sound |
| MemorySplit.NamesAfterRun | scripts/migrate-memory-split.py:567-598 | after a run memory/ holds the agent names, the user layer the user names and the foreign files, and no deleted name remains |
| MemorySplit.MergedIsNormalized | scripts/migrate-memory-split.py:808-822 | every survivor's text before link rewriting is the normalised form of its own source, the merge target's with the deleted file's body appended |
| MemorySplit.MergeKeepsBody | scripts/migrate-memory-split.py:808-837 | nothing of the deleted file is lost: the merged text is the target with its final newline, an empty line, the dated heading, an empty line and the deleted body without the newlines around it; the final text is the rewritten target, the same heading and that body rewritten |
| MemorySplit.FieldsAfterRun | scripts/migrate-memory-split.py:761-837 | link rewriting keeps each survivor's fields and rewrites its body, and it is attributed exactly when its source is attributable |
| MemorySplit.OtherFieldsAfterRun | scripts/migrate-memory-split.py:761-837 | a survivor ends with every other field of its source, in order, and the rewritten body of its source, when its attribution lines end in newlines |
| MemorySplit.CompletedFilesPass | scripts/migrate-memory-split.py:605-679 | after a completed run every surviving file resolves its links and is attributed to its layer exactly when every survivor is sound |
| MemorySplit.CompletedRunIsMigrated | scripts/migrate-memory-split.py:567-598 | whatever the texts, a completed run is detected as migrated with its names conserved |
| MemorySplit.StateDuringDispatch | scripts/migrate-memory-split.py:567-598 | a run cut during dispatch is detected as partial, until every name that leaves memory/ has gone and nothing is to merge |
| MemorySplit.StateAfterDispatch | scripts/migrate-memory-split.py:567-598 | from the merge on a run is detected as migrated whatever the texts hold, also when its links are not rewritten yet |
| MemorySplit.ReportAddsUp | scripts/migrate-memory-split.py:761-837 | the report counts every adjudicated name once, under what became of it, and lists one entry for each thing it counts |
| MemorySplit.OwnersIff | scripts/migrate-memory-split.py:397-446 | the precheck passes exactly when no memory bound for the user layer names another owner, and each names one unless that is acknowledged or the run is dry |
| MemorySplit.CompletedRunPasses | scripts/migrate-memory-split.py:605-679 | a completed run from a prechecked, backed-up pool passes all four invariants exactly when every survivor is sound |
| MemorySplit.PlainIsSound | scripts/migrate-memory-split.py:605-679 | attribution lines that end in newlines and bodies without gaps are always sound |
| MemoryFront.SplitOfWhole | scripts/migrate-memory-split.py:196-206 | parts put together split back into the same parts |
| MemoryFront.WholeOfSplit | scripts/migrate-memory-split.py:196-206 | splitting loses no character and yields parts that split back |
| MemoryFront.NormalizeFrontmatter | scripts/migrate-memory-split.py:453-477 | the loop over field lines computes the normalised text, or refuses a file without front matter |
| MemoryFront.NormalizedIsAttributed | scripts/migrate-memory-split.py:453-477 | normalised fields pass the attribution check of their layer, whatever they said before |
| MemoryFront.NormalizedLinesAre | scripts/migrate-memory-split.py:453-477 | every output line is an input line about something else, or `scope: <layer>` or, for the user layer, `user_id: "<owner>"` with one of the three line ends |
| MemoryFront.NormalizedKeepsOthers | scripts/migrate-memory-split.py:453-477 | the field lines about anything else all stay, in order |
| MemoryFront.NormalizedTextKeepsOthers | scripts/migrate-memory-split.py:453-477 | so they do in the normalised text read again, with the same fences and body, when the attribution lines end in newlines |
| MemoryFront.NormalizedSplits | scripts/migrate-memory-split.py:453-477 | how a normalised text splits again: around the normalised fields, joined where lines lost their ends, up to the closing fence or a later one |
| MemoryFront.AttributedIff | scripts/migrate-memory-split.py:453-477 | exactly when a normalised file is attributed to its layer, read off its source fields and the body behind a swallowed fence |
| MemoryFront.PlainIsAttributable | scripts/migrate-memory-split.py:453-477 | attribution lines that end in newlines are enough |
| MemoryFront.AppendKeepsFields | scripts/migrate-memory-split.py:808-822 | text appended by the merge lands behind the fields and leaves them alone |
| MemoryFront.ExoticEndLosesOwner | scripts/migrate-memory-split.py:453-477 | counterexample: an owner line ended by U+2028 loses the owner |
| MemoryLinks.PrintOfScan | scripts/migrate-memory-split.py:89 | scanning a line into characters and links loses nothing |
| MemoryLinks.ScanOfPrint | scripts/migrate-memory-split.py:89 | printed tokens scan back to themselves, joined at open brackets, exactly when no link is made by text alone |
| MemoryLinks.GapFreeNoneLoose | scripts/migrate-memory-split.py:89 | no link is made by text alone when no bracket outside a link is closed by a `](` outside a link |
| MemoryLinks.ReadBackQualified | scripts/migrate-memory-split.py:214-236 | a layer-qualified href is read back as its layer and name |
| MemoryLinks.ReadBackBare | scripts/migrate-memory-split.py:214-236 | a bare href of a safe name is read back as that name |
| MemoryLinks.NewHrefKeepsTarget | scripts/migrate-memory-split.py:480-535 | the href written for a surviving target names the same target and does not dangle |
| MemoryLinks.TargetKeptIff | scripts/migrate-memory-split.py:480-535 | exactly when the rewrite of one link keeps its target |
| MemoryLinks.LinesOfRewritten | scripts/migrate-memory-split.py:493-540 | rewriting changes no line structure: the lines of the result are the rewritten lines |
| MemoryLinks.ResolvesIff | scripts/migrate-memory-split.py:493-560 | zero dangling, exactly: a rewritten body resolves if and only if the links that only its text makes do |
| MemoryLinks.RewrittenBodyResolves | scripts/migrate-memory-split.py:493-560 | zero dangling: every memory link of a rewritten body without gaps resolves |
| MemoryLinks.RewriteLineKeepsReading | scripts/migrate-memory-split.py:505-533 | a rewritten line read back says the same text and names the same targets at the same places, exactly when no link is made by its text alone |
| MemoryLinks.RewriteKeepsReading | scripts/migrate-memory-split.py:493-560 | the same for a whole body read back at once |
| MemoryLinks.RewriteLineTwice | scripts/migrate-memory-split.py:505-533 | a second rewrite of a line reports nothing, and changes nothing, exactly when the links that only its text makes need no rewrite |
| MemoryLinks.RewriteBodyTwice | scripts/migrate-memory-split.py:493-540 | the same for every line of a body, of any shape |
| MemoryLinks.NestedDeadLinkDangles | scripts/migrate-memory-split.py:493-560 | counterexample: a nested dead link leaves a dangling one |
| MemoryLinks.RewriteOneLine | scripts/migrate-memory-split.py:505-533 | the loop over one line's matches computes the rewritten line and its reports |
| MemoryLinks.RewriteLinks | scripts/migrate-memory-split.py:493-540 | the front matter is kept, the body rewritten line by line, rewrites and dead links listed in order |
| LinkRewriting.HrefReads | scripts/migrate-memory-split.py:214-236 | an href names a memory exactly when it does not start like an outside link and the part behind its last slash, trimmed, is a stem with the suffix `.md` in any case and holds neither two dots in a row nor a newline; and then which stem and layer |
| LinkRewriting.HrefIsSpelled | scripts/migrate-memory-split.py:214-223 | every href is a directory part and a file part with white space around them, so that this covers all hrefs |
| LinkRewriting.PlainLine | scripts/migrate-memory-split.py:505-533 | a line without an opening bracket is left as it is and reports nothing |
| LinkRewriting.OutsideLink | scripts/migrate-memory-split.py:505-511 | a link that names no memory stays as it is, is not reported and never dangles |
| LinkRewriting.BareLink | scripts/migrate-memory-split.py:480-533 | a link without a layer, anywhere in a line: the printed text, the reported rewrite and the reported dead target, for a memory that is gone, lives here or lives in the other layer; and when it dangles |
| LinkRewriting.LayeredLink | scripts/migrate-memory-split.py:480-533 | the same for a link with a layer |
| LinkRewriting.PathLink | scripts/migrate-memory-split.py:480-533 | `[text](dir/stem.md)` alone on a line becomes the text with the removal note, itself, or `[text](layer:stem.md)` |
| LinkRewriting.LayeredPathLink | scripts/migrate-memory-split.py:480-533 | the same for `[text](dir/layer:stem.md)` |
| LinkRewriting.RewrittenAppend | scripts/migrate-memory-split.py:493-540 | text added behind the last line end of a file is rewritten as a body of its own |
| MemoryLinks.RewrittenSplits | scripts/migrate-memory-split.py:493-540 | a rewritten file splits into the same front matter and the rewritten body |
| MemoryLinks.RewrittenFields | scripts/migrate-memory-split.py:493-540 | fields and body after the rewrite, also of a text whose fences are gone: a rewrite makes no fence |
| LayoutLog.MovedWellFormed | scripts/migrate-layout.py:478-489 | a move of a file or directory to an absent place keeps the tree a tree |
| LayoutLog.UndoIff | scripts/migrate-layout.py:665-676 | undoing a log of moves skips nothing exactly when no source is a leftover directory of later moves, and then every file is back with what it holds now |
| LayoutLog.ApartLogsUndo | scripts/migrate-layout.py:665-676 | a log is undoable when nothing later is put below a source or taken from at or above it |
| LayoutLog.UnlinkTakesCreated | scripts/migrate-layout.py:643-649 | unlinking that raises nothing takes exactly the created files and at most emptied directories |
| LayoutLog.NeverBelowIsNotEnough | scripts/migrate-layout.py:665-676 | counterexample, a run: absent destinations never at or below earlier sources still block the undo |
| LayoutMigration.InjectKeeps | scripts/migrate-layout.py:63-94 | injection only appends fields, or only prepends a block; the rest of the text is kept |
| LayoutMigration.InjectTwice | scripts/migrate-layout.py:63-94 | a second injection finds every key present |
| LayoutMigration.InjectGives | scripts/migrate-layout.py:63-94 | an injection stops exactly on an unclosed front matter and does nothing exactly when every given attribute has a line; otherwise `scope`, `user_id` and `type` each get the line `key: "value"` with their own value exactly when they are given and had none, nothing else is added, and fences and body stay |
| LayoutMigration.AnnotateGives | scripts/migrate-layout.py:510-522 | an annotation writes so the scope and the owner, never a type, into that file alone, and logs it exactly when something was added |
| LayoutMigration.MoveGives | scripts/migrate-layout.py:478-500 | a move takes everything at or below the source along, leaves all other files, and writes so the scope, owner and type into a moved file; a directory with attributes raises |
| LayoutMigration.CreateGives | scripts/migrate-layout.py:501-509 | a creation writes its entry exactly where nothing is and nothing above is a file |
| LayoutMigration.MakeDirGives | scripts/migrate-layout.py:523-528 | a directory is made with those above it exactly where nothing is and nothing above is a file |
| LayoutMigration.RemoveGives | scripts/migrate-layout.py:463-473 | of the directories at or below the path exactly those with a file below are left, and the path is logged exactly when it goes |
| LayoutMigration.PerformConserves | scripts/migrate-layout.py:476-541 | every action, also one that raises half-way, keeps the tree a tree and loses, overwrites or merges no file |
| LayoutMigration.RunConserves | scripts/migrate-layout.py:418-460 | the same for every run of actions, finished or cut short; file contents are kept up to injected front matter |
| LayoutMigration.Migration.RemoveEmptyTree | scripts/migrate-layout.py:463-473 | bottom-up removal deletes exactly the directories without a file below, and answers whether the top went |
| LayoutMigration.Migration.MoveInto | scripts/migrate-layout.py:478-503 | a move with its skips, failures, log entry and injected attributes |
| LayoutMigration.Migration.ExecuteAction | scripts/migrate-layout.py:476-541 | each action's effect on the tree, the manifest, the count and whether it raises |
| LayoutMigration.Migration.Apply | scripts/migrate-layout.py:434-447 | the plan's actions in order up to the first that raises, with their manifest |
| LayoutMigration.Migration.UndoMoves | scripts/migrate-layout.py:665-676 | the reversed loop over the log computes the undone tree, or what is left when a move raises |
| LayoutMigration.Migration.UnlinkCreated | scripts/migrate-layout.py:643-649 | the reversed loop over the created paths computes the unlinked tree, or what is left when a directory raises |
| LayoutMigration.Migration.RestoreModified | scripts/migrate-layout.py:653-664 | the loop over the modified paths writes the archived texts of those that still exist, or stops at a directory |
| LayoutMigration.RestoreWritesTexts | scripts/migrate-layout.py:653-664 | restoring moves nothing, and leaves each file with its archived text if it was modified there and its own otherwise |
| LayoutMigration.Migration.Rollback | scripts/migrate-layout.py:634-676 | the created files go first, then archived texts are written back, then the moves are undone; what is left, also when something raises |
| LayoutMigration.MovesUndoIff | scripts/migrate-layout.py:418-676 | after a finished run of moves and annotations, the undo skips nothing exactly on undoable logs |
| LayoutRollback.TraceIsLogged | scripts/migrate-layout.py:476-541 | the manifest's moves and created paths are those of the run's entries, in order |
| LayoutRollback.FreesIff | scripts/migrate-layout.py:665-676 | every source is free when its move is undone exactly when none is among the directories left by the later undos, nor at or below a file left; and exactly which paths are left |
| LayoutRollback.MigrateThenUndo | scripts/migrate-layout.py:418-676 | after any finished run of any actions, every source is free when its move is undone exactly when nothing left over blocks it; then nothing raises, exactly the stated paths are left, and each original file is back at its path exactly when it did not end at a created path, with its archived text or its own up to injected front matter |
| LayoutRollback.SafeRunsFree | scripts/migrate-layout.py:418-676 | a condition on the entries of the run alone under which every source is free |
| LayoutRollback.ClearRunsRollBack | scripts/migrate-layout.py:418-676 | when no entry of the run disturbs an earlier one, every original file is back |
| LayoutRollback.OriginalIsUnlinked | scripts/migrate-layout.py:643-649 | counterexample, a run: the first step of the rollback unlinks an original file that was moved to a created path |
| Attachment.RebuildFromHistory | src/agents/attachment.rs:81-186 | the nested loops read what the history announces, or panic |
| Attachment.FatalIff | src/agents/attachment.rs:119-125 | the only two lines that make the reader panic |
| Attachment.RebuildPanicsIff | src/agents/attachment.rs:81-186 | reading panics exactly when some reminder holds such a line |
| Attachment.RebuiltIsWellNamed | src/agents/attachment.rs:81-186 | announced skills are never empty, agents are trimmed, servers both; all on one line |
| Attachment.ReadSkills | src/agents/attachment.rs:540-582 | a rendered skill section reads back as withdrawing its removed and adding its added names |
| Attachment.ReadAgents | src/agents/attachment.rs:584-605 | the same for agents, whose bullets also hold descriptions |
| Attachment.ReadMcp | src/agents/attachment.rs:648-664 | the same for servers with their instructions |
| Attachment.SyncIff | src/agents/attachment.rs:189-219 | striking what is gone and adding what is new gives the current names exactly when the gone ones are trimmed and not empty |
| Attachment.ReminderSynchronises | src/agents/attachment.rs:81-272 | from any readable history, reading it back with the new reminder gives exactly the current skills and agents (with the exact condition), every server with instructions and only current servers |
| Attachment.ReminderTells | src/agents/attachment.rs:421-605 | what a built reminder says: each new skill as `- **name**`, then the words of its summary behind a colon and its trigger in brackets, each new agent with its last description, each new server with its instructions, a struck line for everything gone, and the other sections; there is no reminder only when there is nothing to tell |
| Attachment.FoldIsWords | src/agents/attachment.rs:556-566 | folding a summary keeps exactly its words, defined character by character, with one space between any two |
| Attachment.WordsOfJoined | src/agents/attachment.rs:556-566 | cut at white space, words joined by spaces are the same words |
| Attachment.ServersAnnounced | src/agents/attachment.rs:81-272 | exactly which servers are announced after a turn, whatever headers, bullets and struck lines their instructions hold, and exactly when these stay within the current ones |
| Attachment.InstructionsNameServer | src/agents/attachment.rs:168-174 | counterexample: a server whose instructions say `### X` announces X, which the next turn strikes |
| Attachment.StaysSilent | src/agents/attachment.rs:189-272 | once synchronised, unchanged lists produce no section |
| Attachment.UntrimmedNameStays | src/agents/attachment.rs:119-137 | counterexample: a skill name with white space around it is never withdrawn |
| Attachment.AttachmentManager.DiffSkills | src/agents/attachment.rs:189-219 | a skill section is pending exactly when announced and current skills differ, and lists the two differences |
| Attachment.AttachmentManager.DiffAgents | src/agents/attachment.rs:224-250 | the same for agents, with their descriptions |
| Attachment.AttachmentManager.DiffMcp | src/agents/attachment.rs:256-272 | the new servers with instructions in order, and the servers gone |
| Attachment.AttachmentManager.BuildText | src/agents/attachment.rs:421-454 | the pending sections in order between the marks, or nothing |
| Attachment.AttachmentManager.Turn | src/agents/attachment.rs:189-502 | compare, build, clear: whatever quiet text follows, the next turn reads the current lists back; and the text describes everything new as `ReminderTells` says |
| AskRouter.StepKeepsInv | src/agents/ask_router.rs:55-120 | every atomic step of every waiter and fulfiller keeps: entries belong to live waiters of their session, every sender has one owner, no sender that can still be used is lost, outcomes come from channels |
| AskRouter.RunKeepsInv | src/agents/ask_router.rs:55-120 | the same over every interleaving |
| AskRouter.NoWaiterNoEntry | src/agents/ask_router.rs:55-60 | with no live waiter the table is empty |
| AskRouter.GuardRemovesOnlyItsOwn | src/agents/ask_router.rs:55-60 | a dropped guard removes the entry of its own wait, when it is still there, and no other |
| AskRouter.GuardSparesOthers | src/agents/ask_router.rs:55-60 | dropping a guard leaves every other waiter's sender where it is |
| AskRouter.BlockedCanProceed | src/agents/ask_router.rs:72-100 | a blocked waiter can wake, is in the table, or is held by a call or a newcomer that has a step to take |
| AskRouter.QuietTableIsTheBlocked | src/agents/ask_router.rs:72-120 | with no step half-done, the blocked waiters that can be answered are exactly the table |
| AskRouter.TableShowsLatestAsk | src/agents/ask_router.rs:72-85 | a session's entry is always the ask inserted last |
| AskRouter.LatestAskIsAnswerable | src/agents/ask_router.rs:72-120 | the latest ask, while it waits, is in the table or in a fulfil about to send |
| AskRouter.FulfilTargetsLatestAsk | src/agents/ask_router.rs:108-120 | a fulfil returns true exactly when the session had an entry, and is then bound to the latest ask |
| AskRouter.WaitIsFixed | src/agents/ask_router.rs:72-100 | a sent reply is never changed, nor the session of a wait |
| AskRouter.ReplyDelivery | src/agents/ask_router.rs:72-120 | a returned reply came from one fulfil of the same session made while the waiter was the newest ask, and reached nobody else |
| AskRouter.FulfilDelivers | src/agents/ask_router.rs:108-120 | every reply reaches its ask: over every run, a fulfil that found an entry sends its own reply to the latest ask of its session, which holds it for good unless it was cancelled before the send, and returns it when it ends without being cancelled |
| AskRouter.FulfilledHasSent | src/agents/ask_router.rs:108-120 | a fulfil that found an entry is over only when it has sent |
| AskRouter.CancelledIff | src/agents/ask_router.rs:86-100 | an ask ends as cancelled exactly when it was cancelled from outside |
| AskRouter.SupersededIff | src/agents/ask_router.rs:72-100 | an ask that ended was superseded exactly when it was not cancelled and an insert of its session found its entry; in all other cases that end without a cancel it returned a reply |
| AskRouter.ReplacementIsLater | src/agents/ask_router.rs:72-85 | the insert that supersedes an ask is of another ask and comes after its own |
| AskRouter.AskCanBeAnswered | src/agents/ask_router.rs:72-120 | at any point of any run a new ask can be put and answered with any reply, which it returns, leaving no entry behind |
| AskRouter.Router.InsertPending | src/agents/ask_router.rs:75-85 | inserting displaces at most the session's older entry, as one step of the model |
| AskRouter.Router.RemovePending | src/agents/ask_router.rs:108-120 | the result of a fulfil is decided by its removal |
| AskRouter.Router.SendReply | src/agents/ask_router.rs:108-120 | the send leaves the reply in the channel of the bound ask, unless that ask was cancelled |
| AskRouter.Router.DropPendingGuard | src/agents/ask_router.rs:55-60 | the conditional removal of the guard, as one step of the model |
| Mention.StreamingIff | src/agents/mention.rs:80-99 | for every chunking of a well-formed text the stream equals the whole rendering exactly when no cut falls after the first three characters of a tag that rendering changes |
| Mention.RenderRefs | src/agents/mention.rs:22-52 | the loop over tags computes the whole-text rendering |
| Mention.ReferenceIsRendered | src/agents/mention.rs:22-65 | a reference behind text without one becomes `@` and the username of a known user of this namespace, and stays a tag otherwise |
| Mention.RefRenderer.Push | src/agents/mention.rs:80-94 | what is pushed now and what stays pending |
| Mention.ResolveMentions | src/agents/mention.rs:119-149 | the loop over `@` computes the resolved text, or the first unknown mention |
| Mention.EmailIsText | src/agents/mention.rs:119-136 | an `@` behind a character of an email address, or with no name behind it, is text |
| Mention.MentionIsResolved | src/agents/mention.rs:119-166 | any other `@` with a name becomes the reference of the user found under that name, or the whole message is refused with the reply for that name |
| Mention.ResolveThenRender | src/agents/mention.rs:119-180 | rendering a resolved text gives it back with each mention in the registry's spelling |
| Mention.CanonicalIff | src/agents/mention.rs:119-180 | that spelling is the text's own exactly when all its mentions are canonical |
| Mention.ResolveRenderIdentity | src/agents/mention.rs:119-180 | resolve then render is the identity exactly on canonical mentions, emails included |
| SkillFrontMatter.Parse | scripts/migrate_skill_frontmatter.py:44-75 | the nested loops compute the field list |
| SkillFrontMatter.ParseOfPrint | scripts/migrate_skill_frontmatter.py:44-75 | printed fields parse back to themselves |
| SkillFrontMatter.DedentOfIndented | scripts/migrate_skill_frontmatter.py:78-89 | dedenting what was indented gives the lines back, blank ones apart |
| SkillFrontMatter.MergeIs | scripts/migrate_skill_frontmatter.py:126-138 | merged keys are those of both lists, top-level values override, other sub-fields stay in order |
| SkillFrontMatter.MigrateRoundTrip | scripts/migrate_skill_frontmatter.py:105-154 | the output parses to name, description and a metadata field that parses to the merged list, blank continuation lines apart |
| SkillFrontMatter.MigratedParts | scripts/migrate_skill_frontmatter.py:105-154 | the output holds the last name and the last description of the source, in this order, and one metadata field; every other key of the source is under it, next to those that were |
| SkillFrontMatter.MigrateTwice | scripts/migrate_skill_frontmatter.py:105-154 | migrating the output again reports no change |
| SkillFrontMatter.MigrateFrontMatter | scripts/migrate_skill_frontmatter.py:105-154 | the loops over fields, moves and output lines compute the migration |
| YamlReader.ParsersAgree | src/str_utils.rs:123-288 | the daemon reads a moved key's string from the migrated block as from its own lines exactly when no quote had to be escaped, and always the same list |
| YamlReader.BlockReads | src/str_utils.rs:248-288 | the daemon finds the metadata block of every migrated text and reads it as the printed merged fields |
| YamlReader.StripKeepsOutside | src/str_utils.rs:209-236 | stripping keeps exactly the lines outside the blocks of a key, in order |
| YamlReader.StrippedHasNoBlock | src/str_utils.rs:209-288 | after stripping, no block of that key is found |
| YamlReader.DaemonReadsSame | src/str_utils.rs:123-288 | for a moved key that one line opens, the daemon reads the string it read before exactly when no quote had to be escaped, and the list exactly when all of it was in the field's own lines |
| YamlReader.UnindentedListIsLost | scripts/migrate_skill_frontmatter.py:44-75 | counterexample: list items that are not indented are dropped by the migration |
| YamlReader.ExtractString | src/str_utils.rs:123-140 | the first line opening with the key decides: missing, a value without its quotes, or a panic on a lone quote |
| YamlReader.ExtractList | src/str_utils.rs:145-186 | the two-state loop computes inline or multi-line items |
| YamlReader.CommaItemsOfJoined | src/str_utils.rs:170-177 | pieces joined by commas read as the items wrapped in white space and quotes, empty ones dropped |
| YamlReader.InlineListReads | src/str_utils.rs:145-186 | `key: [pieces]` reads as those items, whatever follows |
| YamlReader.ExtractBlock | src/str_utils.rs:248-288 | the nested loops find and dedent the block by bytes, or panic |
| YamlReader.BlockPanicsIff | src/str_utils.rs:263-279 | reading a block panics exactly when a line of it has the end of the first line's indentation inside a character |
| YamlReader.WideSpacePanics | src/str_utils.rs:263-279 | counterexample: two spaces, then a line indented by one three-byte space |
| YamlReader.StripBlock | src/str_utils.rs:209-236 | the nested loops drop the block lines |
| LoopBreaker.RecordedWindow | src/agents/loop_breaker.rs:125-143 | the window is the last calls since the reset, as many as fit and at least one |
| LoopBreaker.CheckExactRepeat | src/agents/loop_breaker.rs:186-234 | fires exactly on a long enough maximal streak of equal calls without timeouts, all within the rapid window |
| LoopBreaker.CheckPingPong | src/agents/loop_breaker.rs:240-288 | fires exactly when the last calls alternate two tools and repeat some arguments |
| LoopBreaker.CheckNoProgress | src/agents/loop_breaker.rs:294-336 | fires exactly on a suffix of one tool and one result with enough other arguments |
| LoopBreaker.StallsIff | src/agents/loop_breaker.rs:318-336 | enough other arguments are as many as the threshold, and for a relaxed tool twice that and at least eight |
| LoopBreaker.Counter.RecordAndCheck | src/agents/loop_breaker.rs:125-166 | the verdict on the whole history since the reset, in the stated priority |
| LoopBreaker.VerdictUnique | src/agents/loop_breaker.rs:125-166 | the history determines the verdict |
| LoopBreaker.CapIsHard | src/agents/loop_breaker.rs:145-150 | with a positive cap every call past it is refused |
| LoopBreaker.SmallWindowSilences | src/agents/loop_breaker.rs:186-336 | a detector that needs more calls than the window keeps never fires |
| LinkCode.TableIsHistory | src/commands/link.rs:70-116 | the table holds exactly the living starts, with their codes, targets and attempts |
| LinkCode.ConfirmIff | src/commands/link.rs:88-116 | a confirm succeeds exactly when the newest start was not cancelled or consumed, is in time, saw fewer than three wrong codes, and the code matches |
| LinkCode.AnswerIs | src/commands/link.rs:88-116 | which answer a confirm gets for every history, and that everything but a wrong code with tries left takes the entry away |
| LinkCode.NeverExhausted | src/commands/link.rs:97-100 | the exhausted check never fires |
| LinkCode.CodeWorksOnce | src/commands/link.rs:110-115 | a code confirms once |
| LinkCode.OthersDoNotInterfere | src/commands/link.rs:70-116 | events of other keys change nothing |
| LinkCode.PendingLinks.ConsumeConfirm | src/commands/link.rs:88-116 | the checks in their order answer as the history says |
| LinkCode.PendingLinks.CancelLink | src/commands/link.rs:161-164 | whatever is pending under the key is withdrawn when a code could not be delivered |
| LinkCode.FailureWithdraws | src/commands/link.rs:147-164 | a failed delivery withdraws another start exactly when a newer one of the key is alive, and leaves other keys alone |
| LinkCode.NewerStartIsLost | src/commands/link.rs:147-164 | counterexample: a delivered code that no confirm can use any more |
| InboxBudget.SelectWithinBudget | src/agents/delegation.rs:130-147 | deferred then kept is the input, and kept is the longest suffix within budget or the newest message |
| InboxBudget.FitInTokens | src/agents/delegation.rs:130-147 | in tokens: what is kept, with a separator for each message, is at most 2048 or a single message, and one more would be over |
| InboxBudget.LongestFitUnique | src/agents/delegation.rs:130-147 | there is one such split |
| InboxBudget.DeliverAll | src/agents/delegation.rs:130-147 | every inbox has rounds: the selection run again on what it defers |
| InboxBudget.RoundsUnique | src/agents/delegation.rs:130-147 | the inbox determines its rounds |
| InboxBudget.RoundsDeliverAll | src/agents/delegation.rs:130-147 | these rounds deliver every message exactly once, in at most as many rounds as messages |

## Left out

- MemoryLinks.ResolvesIff: names that start with `agent:` or `user:`, which a bare href gives a layer, are excluded (`LinkNames`); what happens to a link to such a name is exact in `TargetKeptIff`.
- MemorySplit.CompletedRunPasses: the same names are excluded; names and detection do not need that (`CompletedRunIsMigrated`).
- MemoryLinks.RewriteKeepsReading: names that start with `#` or `mailto:` are excluded as well, because a bare href to one is an outside link.
- LayoutRollback.MigrateThenUndo: the archive is given as a map from paths to texts; how it is made is not modelled.
- YamlReader.ParsersAgree: texts with U+001C to U+001F, which only Python takes for white space, and continuation lines that look like the key are excluded.
- YamlReader.BlockReads: the same texts are excluded.
- YamlReader.DaemonReadsSame: the same texts are excluded, and keys that several lines look like.
- Attachment.ReminderSynchronises: agent descriptions and skill triggers are on one line, names hold no two stars and instructions no headers or struck lines, as the listings assume; for servers any instructions are covered by `ServersAnnounced`.
- Mention.StreamingIff: texts in which some `<ref id="` does not start a complete tag are excluded; there a malformed tag ends the whole-text rendering early.
- AskRouter: generations are unbounded, not 64-bit; teardown of the router is not modelled.
- LoopBreaker: calls carry argument and result hashes; hash collisions and the saturating conversion of the configured seconds are not modelled.
- InboxBudget: the token estimate of a message is a function of the message.
- Carriage returns: Python's universal newlines have already removed them; Rust's `lines` would drop one before a newline.
- The daemon guard, locks, TSV and command-line parsing, hashing and console reports of the scripts; the plan builder of the layout migration, whose actions are a parameter.
- A partially deleted backup directory: deleting the backup is one step of the model.
- The date, autonomy, memory and draft sections of reminders, which are opaque texts without the reader's headers.
- The envelope of a skill file around its front matter (`migrate_file`) and `parse_front_matter`.
- Process control, signals, LLM calls, tool loops and configuration: no property beyond single branches.
