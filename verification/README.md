# Verification of Doubango's demo client, bindings and CPU probe

A Dafny model of the parts of the Doubango repository that hold real algorithms, with proofs about
every input, run or schedule. `dafny verify dfyconfig.toml` checks all of it.

| file | models |
|---|---|
| `PendingException.dfy` | the exception store of the C# bindings: one slot per thread, one counter for all, read without the lock; a machine with one atomic action per step, for any number of threads and every schedule |
| `DsslTables.dfy` | the tables of the DSSL scanner: their layout as a predicate, alphabet widening, the two binary searches |
| `TokenMachine.dfy` | what a token and a longest match are, apart from any table; why reading ahead and backing up finds it |
| `DsslScanner.dfy` | the scanner loop of `dssl_parse`, for all tables that meet a condition on single transitions |
| `DsslExample.dfy` | three-state tables that meet the condition |
| `DsslParams.dfy` | `$$name` and `$$(name)` parameters: the rewriting loop and the single pass it amounts to |
| `Continuation.dfy` | the in-place pass that joins continued lines of a scenario file |
| `Scenario.dfy` | the scenario runner: a cursor over a growing buffer, against an interpreter of nested texts |
| `ScenarioScript.dfy` | what a run executes and where it stops, in terms of the lines of the files |
| `ScenarioDepth.dfy` | when the runner ends, in terms of what the files include |
| `CpuLists.dfy` | the CPU list parser, its 32-bit mask, the CPU count |
| `CpuInfo.dfy` | the field search, the item search and the ARM feature word |
| `Sessions.dfy`, `SessionIds.dfy` | the session table over all runs; a session id that is stored, substituted, parsed and looked up |
| `StackConfig.dfy` | the option loop of `stack_config` against a declarative reading of the option list |
| `DirectorOwnership.dfy`, `DisposeChain.dfy`, `BigEndian.dfy` | who deletes a native object that has a Java or C# proxy; how a 64-bit number reaches Java |
| `Text.dfy`, `Wrappers.dfy` | C string routines as functions on sequences; `Option` |

Code that changes state is a class or a method with loops; its contract equates the new state with a
function of the old one, and the lemmas are about that function. For each such function there are laws
that say what it means without naming it: in terms of the characters of the text, the arrays of the
tables, the calls made before, or the lines of the files.

## What the code does not do

Some properties one would expect do not hold of the code. For these there is a lemma with an input
that shows it, and the exact condition:

- The rewriting loop never replaces a text by the empty text, because the copy routine allocates
  nothing then. So it differs from the single pass exactly on values that are nothing but references
  to empty parameters (`DsslParams.RewriteIsExpand`, `DsslParams.EmptyLeavesLastReference`).
- The rewriting loop need not end (`DsslParams.RewritingMayDiverge`). With one parameter it ends on
  every text exactly when the parameter's value does not begin its references with the parameter's
  own name (`DsslParams.EndsOnEveryTextExactly`); otherwise it never ends on the value
  itself (`DsslParams.SelfReferenceTurns`). With any number of parameters it ends on every text when no
  value begins its references with a known name (`DsslParams.EndsWhenSettled`), and so whenever no
  value holds `$$`, however many single `$` there are.
- A scenario that includes itself never ends (`Scenario.SelfIncludeNeverEnds`). The runner ends
  exactly when the files nest to a finite depth (`Scenario.EndsIffFiniteDepth`); in terms of the
  files, it ends when a rank on them falls with every include (`ScenarioDepth.AcyclicEnds`), and in
  a world where no line stops the run or depends on the context exactly then
  (`ScenarioDepth.EndsExactlyWhenRanked`).
- The field search skips a whole field length after an occurrence in the middle of a line. It
  misses nothing exactly when the field has no proper suffix, starting just after one of its
  newlines, that is also its prefix (`CpuInfo.SearchIsRightExactly`).
- Its comment speaks of the first colon followed by a space; the code takes the first colon and
  gives up if no space follows (`CpuInfo.EarlierColonHidesValue`). The two agree exactly when the
  first colon has a space after it or none has (`CpuInfo.CommentIsRightExactly`).
- The colon need not be on the line of the field: a line without one takes the value of a later line
  (`CpuInfo.ValueOfNextLine`). The value is that of the field's own line exactly when that line has a
  colon, or the next colon has no space after it (`CpuInfo.FieldIsOnItsLineExactly`).
- A session lookup compares ids modulo 2^32. With more ids than that, the end of one call can remove
  another one's session (`Sessions.WrongSessionTerminated`; exactly when: `Sessions.TerminationIsExact`).
- A director connected with a strong flag but without Java owning the object gets a weak reference,
  which is later released as a strong one (`DirectorOwnership.SetAgreesExactly`). Every proxy of the
  repository connects with a weak flag, so none of them comes to this.

## Model

| member | source | states |
|---|---|---|
| PendingException.SWIGPendingException.Pending | bindings/csharp/tinyWRAPPINVOKE.cs:133-141 | one uninterrupted call answers whether the own slot is filled, whatever the other threads have pending |
| PendingException.SWIGPendingException.Set | bindings/csharp/tinyWRAPPINVOKE.cs:143-150 | an empty slot is filled and counted; a filled one is kept and reported as FATAL |
| PendingException.SWIGPendingException.Retrieve | bindings/csharp/tinyWRAPPINVOKE.cs:152-164 | empties the slot, answers what it held, and keeps the counter equal to the pending exceptions of all threads |
| PendingException.SWIGPendingException.SetPending | bindings/csharp/tinyWRAPPINVOKE.cs:57-103 | always succeeds, and leaves in the slot what `PendingAfterCall` says |
| PendingException.StepKeepsInv | bindings/csharp/tinyWRAPPINVOKE.cs:128-164 | any atomic action of any thread keeps: the counter is the number of threads stored and counted or cleared and not yet subtracted; the lock has one holder; each thread is on the way to the right answer |
| PendingException.ThreadsCannotTell | bindings/csharp/tinyWRAPPINVOKE.cs:128-164 | under every schedule each thread gets the answers it would get alone |
| PendingException.CounterCounts | bindings/csharp/tinyWRAPPINVOKE.cs:128-164 | the counter is never negative, and with all threads between calls it is the number of filled slots |
| PendingException.PendingIsExact | bindings/csharp/tinyWRAPPINVOKE.cs:133-141 | despite the unlocked read, every finished `Pending` was true exactly when the own slot was filled |
| PendingException.FatalExactlyOnDoubleSet | bindings/csharp/tinyWRAPPINVOKE.cs:143-150 | FATAL comes exactly from a direct `Set` on a filled slot, never from a `SetPending*` callback |
| PendingException.MutualExclusion | bindings/csharp/tinyWRAPPINVOKE.cs:147-149 | at most one thread is inside a locked section |
| PendingException.SomebodyMoves | bindings/csharp/tinyWRAPPINVOKE.cs:147-161 | a thread that cannot move waits for a lock whose holder can |
| PendingException.ChainIsNewestFirst | bindings/csharp/tinyWRAPPINVOKE.cs:57-103 | after any `SetPending*` calls the inner chain holds the exceptions since the last folding one, newest first |
| PendingException.PendingAfterCall | bindings/csharp/tinyWRAPPINVOKE.cs:57-103 | the pending exception after a call: its own kind, message and parameter, with the earlier one inside; for two kinds with the earlier message behind its own, and none inside |
| PendingException.FoldedMessages | bindings/csharp/tinyWRAPPINVOKE.cs:94-103 | after a run of folding calls the message is all their messages, newest first, then the one that was pending before |
| PendingException.SlotAfterOther | bindings/csharp/tinyWRAPPINVOKE.cs:133-164 | `Set` fills an empty slot only, `Retrieve` empties it, `Pending` leaves it |
| PendingException.RetrieveIsExact | bindings/csharp/tinyWRAPPINVOKE.cs:152-164 | under every schedule a finished `Retrieve` was answered the exception pending before it |
| PendingException.SetIsExact | bindings/csharp/tinyWRAPPINVOKE.cs:143-150 | under every schedule a finished `Set` is done, or reports the pending exception and the one it could not store |
| DsslTables.SearchSingles | tinyDEMO/dssl.c:4538-4558 | the binary search finds what a linear scan of the single keys finds |
| DsslTables.SearchRanges | tinyDEMO/dssl.c:4560-4580 | so does the search of the ranges, whose halving keeps to the first bound of a pair |
| DsslTables.WidenAt | tinyDEMO/dssl.c:4487-4532 | the condition search and the widening give the character of the state's alphabet, as `WideningReadsText` describes it |
| DsslTables.WideningReadsText | tinyDEMO/dssl.c:4487-4532 | the character moves to the alphabet of its condition range's space; in space 0 the condition fails at a newline, a `#` and a doubled `-`, `@`, `%` or `>`, in space 1 at a newline only |
| DsslTables.UnconditionalIsPlain | tinyDEMO/dssl.c:4490-4532 | a character that no condition range holds stays as it is |
| DsslTables.FindSlot | tinyDEMO/dssl.c:4534-4583 | singles, then ranges, then the default, inside the state's slice |
| DsslTables.SingleKeyTransition | tinyDEMO/dssl.c:4537-4558 | a single key takes its own entry, whatever the ranges say |
| DsslTables.RangeTransition | tinyDEMO/dssl.c:4560-4580 | without one, the range that holds the character takes the entry behind those of the single keys |
| DsslTables.DefaultTransition | tinyDEMO/dssl.c:4556-4583 | without either, the last entry of the state |
| DsslTables.WideningIsInjective | tinyDEMO/dssl.c:4504-4528 | character, condition space and condition value can be read back from the widened character, which fits a `short` |
| DsslTables.MatchingRangeIsUnique | tinyDEMO/dssl.c:4560-4580 | with sorted disjoint ranges any range that holds the character is the first one that does |
| TokenMachine.MunchIsUnique | tinyDEMO/dssl.c:4470-5054 | there is one way to cut an input into longest tokens, up to where none starts |
| TokenMachine.ReadOn | tinyDEMO/dssl.c:4982-4985 | reading on keeps `te` at the longest match whenever the match can be lost |
| TokenMachine.CloseIsLongest | tinyDEMO/dssl.c:4986-5022 | each of the three ways to close a token ends it at its longest match |
| TokenMachine.GiveUp | tinyDEMO/dssl.c:5041-5052 | an error, or the end of input without an exit, proves that no token starts there |
| DsslScanner.TablesAreSound | tinyDEMO/dssl.c:4474-5050 | a condition on single transitions of the tables implies what the longest-match argument needs |
| DsslScanner.RunActions | tinyDEMO/dssl.c:4590-5024 | the action loop performs the codes of a list in order, on `p`, `ts` and `te` |
| DsslScanner.ActionCodes | tinyDEMO/dssl.c:4978-5024 | what each action code does to `p`, `ts`, `te` and the tokens, code by code |
| DsslScanner.DeedsInOrder | tinyDEMO/dssl.c:4590-4595 | the semantic codes of a list are all performed, in order, where the cursor stands, and no others |
| DsslScanner.Scan | tinyDEMO/dssl.c:4449-5064 | the loop ends, though it steps back; its tokens are the longest ones and tile the line up to where none starts; the final state is accepting exactly when that is the end of the line; the semantic actions are those due on the way |
| DsslParams.UpdateParam | tinyDEMO/main.c:243-259 | an existing parameter has the new value afterwards, all others are kept; a missing one is never added |
| DsslParams.ReplaceParam | tinyDEMO/dssl.c:37-68 | the first reference is replaced by its value, unless the name is unknown or nothing would be left |
| DsslParams.PlainReference | tinyDEMO/dssl.c:53-61 | a name without parentheses ends at the first blank or with the text; known, it is replaced by its value, unknown, nothing is |
| DsslParams.ParenthesisedReference | tinyDEMO/dssl.c:47-61 | a name in parentheses ends at the first closing one, whatever follows |
| DsslParams.NothingToReplace | tinyDEMO/dssl.c:4635-4641 | a text without `$$` stays |
| DsslParams.ValueByName | tinyDEMO/dssl.c:57-59 | the value is that of the first parameter whose name agrees but for the case of its letters |
| DsslParams.ReplaceParams | tinyDEMO/dssl.c:4633-4650 | on any text on which the loop ends, it goes by its turns to a text with nothing left to replace |
| DsslParams.EndIsUnique | tinyDEMO/dssl.c:4633-4650 | there is only one such text |
| DsslParams.EndsWhenSettled | tinyDEMO/dssl.c:4633-4650 | when no value, taken by itself, begins its references with a known name, the loop ends on every text |
| DsslParams.NoMarksIsSettled | tinyDEMO/dssl.c:4633-4650 | that is so whenever no value holds `$$` |
| DsslParams.TurnsForward | tinyDEMO/dssl.c:4633-4650 | every turn then leaves less text after the first reference |
| DsslParams.SelfReferenceTurns | tinyDEMO/dssl.c:4633-4650 | a value whose first reference names its own parameter, with B before that reference and A after it, has become, after k turns, k times B, the value, k times A |
| DsslParams.EndsOnEveryTextExactly | tinyDEMO/dssl.c:4633-4650 | with one parameter the loop ends on every text exactly when the value is not of that form |
| DsslParams.StepShrinks | tinyDEMO/dssl.c:57-61 | every turn trades the `$` of the reference, two at least, for those of the value |
| DsslParams.RewritingMayDiverge | tinyDEMO/dssl.c:4633-4650 | on the value `$$a` of the parameter `a` the loop never ends |
| DsslParams.RewriteIsExpand | tinyDEMO/dssl.c:4633-4650 | with `$`-free values the rescanning loop equals one pass from left to right that stops at the first unknown name, exactly when the text is not only references to empty values |
| DsslParams.EmptyLeavesLastReference | tinyDEMO/dssl.c:57-61 | in that case the last reference stays in the text |
| Continuation.RemoveContinuations | tinyDEMO/main.c:146-156 | the in-place pass computes `Continued` of what was read and touches nothing else |
| Continuation.ContinuedCharacters | tinyDEMO/main.c:146-156 | the length stays, no backslash is left, and a newline becomes a blank exactly when a backslash occurred since the previous newline |
| Continuation.LinesOfContinued | tinyDEMO/main.c:146-156 | the lines of the result are the original lines, each one that holds a backslash joined with its successor |
| Scenario.FlatNext | tinyDEMO/main.c:158-211 | on a text with more text behind it, the flat cursor does what the nested reading does with the text and then goes on behind it |
| Scenario.RunnerFollowsNesting | tinyDEMO/main.c:104-212 | whenever the nesting is finite the runner ends, with the state, commands and outcome of the depth-first reading |
| Scenario.EndsIffFiniteDepth | tinyDEMO/main.c:104-212 | the runner ends exactly when the nested reading stays within some depth |
| ScenarioDepth.NextStart | tinyDEMO/main.c:199-207 | from a position the runner goes to the first line start after it, and the line starts from there on are the others |
| ScenarioDepth.FittingBuffer | tinyDEMO/main.c:104-212 | the nested reading stays within the depth to which the includes on the lines of the texts nest, in every context |
| ScenarioDepth.AcyclicEnds | tinyDEMO/main.c:104-212 | a rank on the files that every include lowers keeps the runner within a depth |
| ScenarioDepth.RunAcyclic | tinyDEMO/main.c:104-212 | on such files the loop ends, with the outcome of the nested reading |
| ScenarioDepth.EndsExactlyWhenRanked | tinyDEMO/main.c:104-212 | where lines mean the same in every context and none stops the run, the runner ends exactly when there is such a rank |
| Scenario.SelfIncludeNeverEnds | tinyDEMO/main.c:125-177 | a scenario that includes itself runs for ever |
| Scenario.Run | tinyDEMO/main.c:104-212 | the loop over buffer and cursor has the outcome of the nested reading; its buffer is the original with texts inserted, each later than the one before |
| ScenarioScript.EffectOfLine | tinyDEMO/main.c:112-211 | what one line does: nothing, one command in the context after the parse, an exit, an include, or the end of the buffer |
| ScenarioScript.ScenarioIsExecuted | tinyDEMO/main.c:104-212 | a scenario that stops nowhere leaves the runner ready; its commands, those of a file at the place of its include, are executed in order, each in the context the lines before it left |
| ScenarioScript.ScenarioStops | tinyDEMO/main.c:115-123 | at an exit or an unreadable line, in a file or not, what came before is executed and nothing behind it |
| ScenarioScript.RunScenario | tinyDEMO/main.c:104-212 | the loop over the buffer does so |
| ScenarioScript.BlanksBetweenLines | tinyDEMO/main.c:199-204 | white space before a line does not matter |
| ScenarioScript.ShortEndIsDropped | tinyDEMO/main.c:205-210 | two characters or fewer at the end are not run |
| Scenario.NextLine | tinyDEMO/main.c:199-211 | the cursor advances strictly, to the first non-blank after the newline |
| Scenario.Buffer.Insert | tinySAK/src/tsk_buffer.c:246-277 | what is before and after the position is kept; the two error cases |
| Scenario.SplicingKeepsText | tinyDEMO/main.c:159-177 | after any insertions every character of the original text is still there, in order |
| CpuLists.ParseDecimal | android-utils/cpu-features.c:227-244 | the value and the end of the longest run of digits, or nothing when there is no digit |
| CpuLists.CpuList.Parse | android-utils/cpu-features.c:288-337 | adds to the mask the CPUs below 32 of all items before the first bad one |
| CpuLists.CpusByItem | android-utils/cpu-features.c:278-337 | a CPU is in the result exactly when some item lists it and no item up to there is bad |
| CpuLists.BadItemExactly | android-utils/cpu-features.c:308-323 | an item is bad exactly when it begins with no digit, or its first number is followed by a dash without a number |
| CpuLists.CpusOfJoined | android-utils/cpu-features.c:288-337 | two lists joined by a comma are the union, unless a bad item of the first hides the second |
| CpuLists.PrintThenParse | android-utils/cpu-features.c:278-337 | printing numbers and ranges, with or without a final newline, and parsing gives their union |
| CpuLists.CpuList.Count | android-utils/cpu-features.c:273-276 | the bit count is the cardinality of the set of CPUs |
| CpuLists.GetCpuCount | android-utils/cpu-features.c:340-378 | the number of CPUs below 32 that both lists name, each read up to 64 characters |
| CpuLists.CpuCount | android-utils/cpu-features.c:388-402 | that number raised to one; always between 1 and 32 |
| CpuLists.CountOfPrinted | android-utils/cpu-features.c:363-378 | for two printed lists that fit the buffer, the CPUs counted are those listed by both |
| CpuInfo.ExtractField | android-utils/cpu-features.c:131-178 | the pointer loop finds the field at the anchor and takes the value behind the colon |
| CpuInfo.AnchorIsFirst | android-utils/cpu-features.c:140-152 | for a field that does not overlap itself after a newline, the anchor is the first line that begins with it |
| CpuInfo.SearchIsRightExactly | android-utils/cpu-features.c:140-152 | and for no other field is that so in every text |
| CpuInfo.SkippingMisses | android-utils/cpu-features.c:151-151 | a text, for every such other field, in which the search goes wrong |
| CpuInfo.CommentIsRightExactly | android-utils/cpu-features.c:154-158 | the code takes the value behind the first colon with a blank exactly when the first colon has one or none has |
| CpuInfo.EarlierColonHidesValue | android-utils/cpu-features.c:154-158 | a text in which an earlier colon hides the value |
| CpuInfo.FieldIsOnItsLineExactly | android-utils/cpu-features.c:154-164 | the value is that of the line that begins with the field exactly when the first colon behind the name comes before the first newline, or has no blank behind it |
| CpuInfo.ValueOfNextLine | android-utils/cpu-features.c:154-164 | a text in which the value comes from the next line |
| CpuInfo.ExtractFromPrinted | android-utils/cpu-features.c:131-178 | from printed lines, a key gives the value of the first line whose name begins with it, and nothing when there is none |
| CpuInfo.HasListItem | android-utils/cpu-features.c:187-215 | true exactly when the item stands between blanks or ends of the list; the empty item exactly in a list ending with a blank |
| CpuInfo.HoldsIsWord | android-utils/cpu-features.c:184-215 | for an item without blanks this is membership in the list split at blanks and tabs |
| CpuInfo.WordsAt | android-utils/cpu-features.c:184-215 | a word ends at the first blank or tab, and the rest are the words behind it |
| CpuInfo.LeadingNumberReads | android-utils/cpu-features.c:429-440 | blanks, a sign, digits, anything else: the number of the digits, none without digits |
| CpuInfo.ArchitectureOfPrinted | android-utils/cpu-features.c:419-474 | in printed lines the architecture is at least n exactly when the number at the start of the first `CPU architecture` value is |
| CpuInfo.FieldOfPrintedHolds | android-utils/cpu-features.c:449-496 | a field of printed lines holds an item exactly when it is a word of that line's value |
| CpuInfo.ArmFeatures | android-utils/cpu-features.c:406-499 | exactly when each flag is set; NEON implies VFPv3, ARMv7 implies LDREX/STREX, no ARMv7 when `(v6l)` is a Processor item |
| Sessions.Context.HandleCommand | tinyDEMO/common.c:583-640 | the new table and the session worked on; by `CommandHasSession` that session is in the table, and a new one has a fresh id |
| Sessions.Context.HandleInvite | tinyDEMO/invite.c:32-68 | the new table and the return code of a call event, as `InviteExactly` gives them |
| Sessions.Context.HandleMessage | tinyDEMO/message.c:34-62 | the new table and the return code of a message event, as `MessageExactly` gives them |
| Sessions.Context.HandleDialog | tinyDEMO/common.c:540-581 | the new table after a dialog event, as `DialogExactly` gives it; it takes away its own session and no other, below 2^32 |
| Sessions.StepChanges | tinyDEMO/common.c:540-640 | any event keeps ids distinct, owned and given out, and brings in only ids never owned before |
| Sessions.RunKeepsInv | tinyDEMO/common.c:540-640 | so does every run |
| Sessions.TerminatedStaysAway | tinyDEMO/common.c:562-570 | an id that was in the table and left it never comes back |
| Sessions.LiveStays | tinyDEMO/common.c:540-640 | over every run a session stays in the table until a termination event matches its id |
| Sessions.LookupIsExact | tinyDEMO/common.c:441-495 | below 2^32 a lookup finds the session with the id, and nothing exactly when there is none |
| Sessions.TerminationIsExact | tinyDEMO/common.c:562-570 | a termination removes just its session exactly when the first session that matches is that one or none matches |
| Sessions.TerminationRemovesItsSession | tinyDEMO/common.c:562-570 | below 2^32 it always does, and the id is absent afterwards |
| Sessions.WrongSessionTerminated | tinyDEMO/common.c:441-450 | a run after which the end of session 2^32 + 1 removes session 1 |
| Sessions.CommandHasSession | tinyDEMO/common.c:598-640 | a creating command always has a session of the table, an old one only if found; a new one has the kind of the command and a fresh id |
| Sessions.NewCallIsAddedOnce | tinyDEMO/invite.c:40-62 | a new call is in the table after its event, once, however often events for it come |
| Sessions.InviteExactly | tinyDEMO/invite.c:40-62 | below 2^32: nothing for a known session; -2 for an event that is no new call; an owned new call is ignored; any other is added |
| Sessions.MessageExactly | tinyDEMO/message.c:42-62 | below 2^32: nothing for a known session; -2 exactly for an owned one that is not in the table; any other is added |
| Sessions.NewMessageIsAddedOnce | tinyDEMO/message.c:42-62 | an incoming message's session is added at the end, once, however often events for it come |
| Sessions.DialogExactly | tinyDEMO/common.c:549-578 | a connected session is marked, a terminated one taken out, and no other event changes anything |
| Sessions.CommandKinds | tinyDEMO/common.c:598-634 | which kind of session each command creates, and that the others create none |
| Sessions.CommandFindsSession | tinyDEMO/common.c:592-596 | a command with the number of a session of the table works on it and changes nothing |
| Sessions.MatchesExactly | tinyDEMO/common.c:441-450 | two ids match exactly when they differ by a multiple of 2^32 |
| SessionIds.StoredSidFindsSession | tinyDEMO/main.c:279-284 | printed, stored, substituted, parsed and looked up, an id below 2^31 leads back to its session |
| SessionIds.StoredSidReachesSession | tinyDEMO/common.c:592-596 | a later command with that reference works on the session and leaves the table alone |
| SessionIds.StoredSidSurvives | tinyDEMO/common.c:592-596 | also after any run in which no termination event matches the session |
| SessionIds.StoreAndUse | tinyDEMO/main.c:279-284 | the same, as the two commands and the update and the rewriting between them |
| StackConfig.Context.Config | tinyDEMO/common.c:236-423 | the option loop against the declarative reading: last proxy option wins, first STUN option of any level wins, calls in order |
| StackConfig.ProxyNeedsLevel | tinyDEMO/common.c:252-254 | options of other levels do not touch the proxy settings |
| StackConfig.AppliedAtMostOnce | tinyDEMO/common.c:371-420 | server, credentials and proxy are set at most once, and exactly when |
| StackConfig.SingleOption | tinyDEMO/common.c:256-414 | the calls one option makes and what it leaves in network and identity, kind by kind |
| StackConfig.OtherLevel | tinyDEMO/common.c:252-254 | an option of the session or action level does nothing |
| StackConfig.OneAfterTheOther | tinyDEMO/common.c:248-414 | options for neither proxy nor STUN make their calls one after the other |
| StackConfig.StunComesThere | tinyDEMO/common.c:371-408 | the STUN settings of the whole list are made where the first eligible STUN option stands |
| StackConfig.StunServerExactly | tinyDEMO/common.c:382-399 | the server set has the address of the first address option and the number of the first port option |
| StackConfig.StunCredentialsExactly | tinyDEMO/common.c:388-404 | the credentials set are the first user and the first password |
| StackConfig.NumberReads | tinyDEMO/common.c:322-348 | a port is read from blanks, a sign and digits, and cut to its width |
| DirectorOwnership.Director.Destroy | bindings/java/tinyWRAP_wrap.cxx:462-464 | the destructor with its call back into the proxy comes to one destruction and one release |
| DirectorOwnership.Director.DeleteProxy | bindings/java/DDebugCallback.java:28-41 | `delete`, entered again from inside, destroys an owned object once and clears the pointer |
| DirectorOwnership.OwnershipIsSafe | android-utils/utils_wrap.cxx:239-305 | over every run from the constructor: at most one live reference, of the flag's kind; no wrong delete; destroyed once if at all, leaving no reference; Java owns exactly while the reference is weak |
| DirectorOwnership.NoStaleReference | android-utils/utils_wrap.cxx:268-283 | a proxy that may be collected destroys the object first, so no weak reference outlives it |
| DirectorOwnership.OwnershipMoves | bindings/java/DDebugCallback.java:43-51 | taking makes Java the owner and the reference weak, giving up the opposite; nothing is destroyed |
| DirectorOwnership.OwnerIsLastSaid | bindings/java/DDebugCallback.java:28-56 | over every run the owner is who was said last, as long as nobody deletes |
| DirectorOwnership.DeleteExactly | bindings/java/DDebugCallback.java:28-36 | a delete destroys the object exactly when Java owns it, and always clears the pointer |
| DirectorOwnership.NativeDestroyExactly | android-utils/utils_wrap.cxx:354-386 | destruction by the native side takes pointer and ownership from Java first |
| DirectorOwnership.SetAgreesExactly | android-utils/utils_wrap.cxx:239-254 | after `set` reference and flag agree, and release is right, exactly when the flag is weak or Java owns |
| BigEndian.Encode | android-utils/utils_wrap.cxx:450-466 | the nine signed bytes, read as a two's complement number, are the unsigned 64-bit number |
| DisposeChain.Proxy.DisposeFrom | bindings/csharp/CallSession.cs:29-41 | from any level down: all pointers null, one native delete at the most derived level that had one, exactly when owned |
| DisposeChain.Proxy.DisposeTimes | bindings/csharp/InviteSession.cs:29-41 | any number of calls amounts to one |
| DisposeChain.DisposedTwice | bindings/csharp/SipSession.cs:31-42 | a dispose after a dispose changes nothing |
| DisposeChain.ConsistentProxy | bindings/csharp/CallSession.cs:29-41 | for a proxy as built by its constructors: one delete at the most derived level if owned, none if not |

## Left out

- DsslScanner.Scan: does not model what the semantic actions build; the record of actions and cursor positions stands for the command, its options and its parameters.
- StackConfig.Context.Config: does not model the return value, which is that of the last call into the stack.
- ScenarioDepth.EndsExactlyWhenRanked: does not give the converse where lines stop the run or depend on the context; which files are reached is then up to the commands themselves.
- DsslParams.ReplaceParams: does not model the trimming of the value that comes first.
- The literal tables of the scanner (tinyDEMO/dssl.c:109-4427): machine generated; a predicate on tables stands for them.
- The parser and the commands as the scenario runner sees them are parameters (`Scenario.World`): any parse and any execution, with a context both may change.
- Reading files and the console: the bytes read are inputs; files do not change during a run and hold no null character. Joining the program arguments and reading several buffers in turn are not modelled.
- SIP, media and network calls: events and fresh ids stand for them. A port option without a value, which the source would hand to `atoi` as null, counts as zero.
- Integer overflow in `parse_decimal`, `atoi` and `strtol`, and ids beyond 64 bits: numbers are unbounded, with truncation written out where the code truncates on purpose.
- `extract_cpuinfo_field` reads one byte past the text when a colon is the last character; here the field is not found then. `has_list_item` on a null list answers false; the model takes a list.
- The 32-bit CPU mask is a sequence of 32 bits, the feature word the set of its flags.
- The .NET runtime's addition of the parameter name to an argument exception's message, and memory visibility of the unlocked counter: memory is sequentially consistent.
- The Java VM's references to one proxy are modelled; several proxies share nothing but the VM and are independent.
- `register.c`, `publish.c`, `subscribe.c`, `options.c`, the other proxies, 7-bit SMS packing: lookups, forwarders and foreign code.
