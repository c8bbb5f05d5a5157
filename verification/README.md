# Zetta: models and proofs

Zetta is a terminal emulator whose interface is mostly drawing and wiring.  A few of
its parts are small algorithms and protocols with properties that a reader cannot see
in any one function.  This project models those parts in Dafny, in the form the
program has them (loops over scanners and vectors, objects whose methods update
fields), proves each method against a specification, and proves what the
specifications mean.

- **Command templates** (`BraceScanner`, `BraceExpansion`, `BraceTemplates`,
  `TemplateLabels`).  A template such as `ssh {{a,b}}.example.com` is expanded into
  commands by scanners that know quotes and escapes and by rewriters that keep explicit
  stacks and give up early.  The rewriters are proved equal to recursive meanings, the early aborts are
  proved exact, and the expansion of any template written as a syntax tree is proved
  to be the tree's Cartesian product, in order, with labels that show what was picked.
- **Pasting into overlays** (`PasteQueue`).  Clipboard reads finish in any order while
  keys keep arriving.  Over every interleaving the queue dispatches keys in the order
  of arrival, each once and with its own text.  Once all reads have finished, a run that
  nothing else disturbed has dropped nothing *exactly* when Escape came only while
  nothing was queued and no waiting key closed the field in front of another, and then
  it has done what a synchronous editor would have done.  A late read never edits
  another field.
- **Completion** (`TextField`, `CompletionPrompt`, `PromptRuns`, `PromptKeys`,
  `BoundedSelection`).  The prompt keeps a span into the text being edited, while results arrive late.  Over
  every sequence of keys, clicks and results the span is never stale, and what each key
  and each result does to the query is said in terms of the query alone.  The scans for
  candidates keep exactly the smallest ones.
- **The managed desktop entry** (`ManagedBlocks`, `DesktopEntry`, `DesktopActions`,
  `TextLines`, `DesktopFile`, `ExecQuoting`).  Two managed blocks and one main `Exec=`
  line are rewritten, and nothing else changes; the actions listed are the groups
  written.  The last rewriting wins and rewriting is
  idempotent, *except* when the actions block lies inside the groups block: such an
  entry is accepted once, loses its actions block, and is refused for ever after.  The
  condition is exact.  Likewise, the quoting of `Exec=` arguments is undone by the
  quoting rule alone, but a command survives being read from the file, where the rule
  for strings applies first, exactly when no argument has a backslash, double quote,
  backtick or dollar sign; and an escaped name survives exactly when it has no semicolon
  and does not start with a space.
- **Terminal preferences** (`Sectioned`, `LineText`, `IniFile`, `IniText`,
  `XdgTerminals`).  Updating keys of an INI section reads back and leaves every other
  lookup and line as it was.  When the update of a text is idempotent is settled for all
  texts, names and updates.  The update that the program makes always has keys that can
  be set; on texts without carriage returns it is idempotent exactly when the path of the
  executable holds no newline and does not end in a carriage return, and with a newline
  in the path the file grows each time.  The preference list puts Zetta first, once.
- **The output benchmark** (`OutputStream`): payloads written in turn are one seamless
  stream.
- **Tabs** (`TabOrder`): pinned tabs stay first over every run of operations.
- **Fuzzy matching** (`FuzzyMatch`): greedy matching is complete and leftmost.  The
  bonus for consecutive matches counts bytes: it is given for exactly the consecutive
  matches if and only if all characters of the candidate have UTF-8 forms of the same
  length.  When highlighted ranges can start inside a character is settled too.
- **Launches and backoff** (`LaunchQueue`, `AuthBackoff`): bounded launches lose
  nothing; failed authentications of one session are spaced out.
- **PowerShell scopes** (`PowerShell`): quoted values read back, and for every request
  that the decoder accepts the command sees its variables and the environment is restored whatever the command does, except
  that a variable that was empty is lost where setting the empty text removes a variable.
  The decoder refuses names that differ only in case; that check is exactly what
  PowerShell's case-insensitive tables need.

`Text` and `Arithmetic` hold shared vocabulary.  A text is a sequence of Unicode scalar
values; lengths in bytes are written out where the program compares them.

Two words recur.  A *run* is any sequence of states in which each state follows from the
one before by an enabled step.  A *denotation* is a recursive function that says what
the program's loop computes without its stack or indices.

## Model

| member | source | states |
|---|---|---|
| BraceScanner.FirstDoubleBraceList | src/multi_command.rs:913-1008 | the one-pass scanner with its stack of groups returns the list that parsing the active delimiters of the text finds |
| BraceScanner.FirstListIsLeftmost | src/multi_command.rs:961-997 | that list is, said without a stack, the group with a comma at its own level whose opener stands furthest left among all groups that are closed; none is returned exactly when there is no such group |
| BraceScanner.FirstListIsTiled | src/multi_command.rs:976-997 | the alternatives lie side by side between the list's braces, one comma apart, at least two of them |
| BraceScanner.AlternativesRebuildList | src/multi_command.rs:999-1007 | the alternatives, joined by commas inside double braces, are exactly the slice of the text that the list occupies |
| BraceScanner.SpliceShortens | src/multi_command.rs:868-875 | replacing a list by one of its alternatives shortens the text by at least five, so both rewriters terminate |
| BraceScanner.HasActiveDoubleBraceOpener | src/multi_command.rs:879-911 | although it steps over closing braces one at a time, this scanner finds an opener exactly when the list scanner meets one |
| BraceScanner.ListHasOpener | src/multi_command.rs:838-843 | a text with a list has an active opener |
| BraceScanner.InsideDoubleBraceGroup | src/multi_command.rs:379-424 | counting depth only, it answers whether the text before the cursor leaves a group on the list scanner's stack, that is, whether some opener is never closed |
| BraceScanner.GroupsLeftOpen | src/multi_command.rs:379-424 | the stack is not empty exactly when some opener has no matching closer |
| BraceExpansion.ExpandFragment | src/multi_command.rs:847-877 | the explicit-stack rewriter of a fragment returns the recursive expansion, in order, and fails exactly when that has more than the limit |
| BraceExpansion.ExpansionsAreFinal | src/multi_command.rs:847-877 | no expansion holds another list; without a list a fragment expands to itself alone, otherwise to shorter texts |
| BraceExpansion.RewriteTemplate | src/multi_command.rs:786-837 | the labelled rewriter, which expands each alternative separately and only counts finished and pending items, returns the recursive labelled expansion and fails exactly when that has more than the limit |
| BraceExpansion.ChoicesAreFinal | src/multi_command.rs:786-837 | no command of a template holds a list |
| BraceExpansion.ChooseLength | src/multi_command.rs:838-843 | a template with a list gives at least two commands |
| BraceExpansion.ExpandTemplate | src/multi_command.rs:773-845 | the whole expansion, with its refusals of blank and long templates and of unused openers |
| BraceExpansion.AbortIsExact | src/multi_command.rs:790-818 | a template that is not blank, too long or left with an unused opener expands if and only if its complete recursive expansion has at most the limit |
| BraceExpansion.SingleIsVerbatim | src/multi_command.rs:838-843 | a single command is the template itself with an empty label, and comes exactly from templates without lists, which then have no opener |
| BraceTemplates.AtomsAreInert | src/multi_command.rs:935-960 | any sequence of plain characters, lone braces, escaped characters and quoted texts is a literal that no scanner looks into |
| BraceTemplates.FirstListOfTree | src/multi_command.rs:913-1008 | in the text of a syntax tree the scanner finds the tree's first list |
| BraceTemplates.ExpandIsProduct | src/multi_command.rs:847-877 | the expansion of the text of any tree is the tree's Cartesian product in left-to-right order |
| BraceTemplates.ChooseIsProduct | src/multi_command.rs:773-837 | with labels, it is the product labelled with the alternative taken of each outermost list |
| BraceTemplates.TemplateIsCartesianProduct | src/multi_command.rs:773-845 | rendering any tree of literals and nested lists and expanding the text gives exactly the tree's product with its labels, and is refused exactly when the product exceeds the limit |
| TemplateLabels.ExpansionsArePicks | src/multi_command.rs:786-837 | the commands of a template that expands are, in order, all ways to pick a text of the product of each of its outermost lists and put it in the list's place; the label shows the picks between dots, each without the whitespace around it, or as "(empty)" exactly when it is all whitespace |
| TemplateLabels.PlainLabels | src/multi_command.rs:829-834 | with lists of non-blank literals without outer whitespace, every label is the literals that were picked, joined by dots |
| TemplateLabels.ChoicesAreMade | src/multi_command.rs:786-837 | of any text: every command is the text with its first list replaced by an expansion of one of its alternatives, and so on until no list is left, and its parameters show those expansions in order |
| TemplateLabels.RefusalsAreExact | src/multi_command.rs:773-845 | exactly which templates are refused as blank, as too long, as expanding too far, and for an unused opener |
| PasteQueue.Overlay.Clear | src/overlay_clipboard.rs:50-53 | nothing is queued and nothing is the target |
| PasteQueue.Overlay.CompleteEvent | src/overlay_clipboard.rs:55-59 | the first event with the id gets its text, everything else stays |
| PasteQueue.Overlay.DrainEvents | src/overlay_clipboard.rs:114-140 | the drain loop does what draining means: dispatch up to the first unfinished paste, stop when the field closes, clear when the field is not the target |
| PasteQueue.Overlay.Queue | src/overlay_clipboard.rs:63-112 | whether a key is taken into the queue, and the state after it is |
| PasteQueue.Overlay.OnKeyDown | src/command_palette_ui.rs:167-176 | a key that is not queued is dispatched at once |
| PasteQueue.Overlay.OnReadFinished | src/overlay_clipboard.rs:98-106 | a finished read resolves its event and drains the queue |
| PasteQueue.KeyArrives | src/overlay_clipboard.rs:63-140 | what becomes of every arriving key: behind others that it does not send away it waits; a paste into an open field waits for its read or, if that is ready, is dispatched with its text; any other key is dispatched at once |
| PasteQueue.PasteWaits | src/overlay_clipboard.rs:77-108 | in every run a paste into an open field whose read is not ready is put last in the queue, unfinished, under a new id whose read is outstanding, with the open field as the target, and nothing is dispatched |
| PasteQueue.BypassesExactly | src/overlay_clipboard.rs:73-87 | in every run a key goes past the queue if and only if nothing waits there that it does not send away and it is no paste into an open field |
| PasteQueue.StepKeepsInv | src/overlay_clipboard.rs:63-140 | every key, finished read or outside change keeps the account of what was dispatched, queued and dropped |
| PasteQueue.QueueShape | src/overlay_clipboard.rs:63-140 | after every step of every run the queue is empty exactly when it has no target, starts with a paste whose read is outstanding, and has increasing ids |
| PasteQueue.DispatchInOrder | src/overlay_clipboard.rs:114-140 | the keys dispatched so far are the arrivals that were not dropped, in order, up to the first unfinished paste, each once and each paste with its own read's text |
| PasteQueue.DroppedIsNeverDispatched | src/overlay_clipboard.rs:73-87 | a key that was dropped is never dispatched, before or after |
| PasteQueue.InvalidationDropsAll | src/overlay_clipboard.rs:73-79 | Escape, and any change of the open field behind the queue's back, drop everything queued at the next step, be it a key or a finished read |
| PasteQueue.LateReadEditsNoOtherField | src/overlay_clipboard.rs:114-119 | a read that finishes while the open field is not the queue's target dispatches nothing, changes nothing else and drops the queue |
| PasteQueue.InvalidatedIsNeverDispatched | src/overlay_clipboard.rs:73-119 | over every run, nothing that was queued when the queue was invalidated is dispatched at that step or ever after |
| PasteQueue.LateReadChangesNothing | src/overlay_clipboard.rs:55-59 | the late read of a paste that has already left the queue dispatches nothing and changes nothing |
| PasteQueue.RunReplaysLog | src/overlay_clipboard.rs:114-140 | the application's state is always the effect of the dispatched keys |
| PasteQueue.RefinesSynchronousEditor | src/overlay_clipboard.rs:63-140 | once all reads have finished, in whatever order, a run without drops has done exactly what dispatching every key on arrival would have done, each paste into an open field with the text that its read gave |
| PasteQueue.NothingElseDrops | src/overlay_clipboard.rs:73-134 | in a run without outside changes, with Escape only while nothing is queued, and in which no waiting key closes the field in front of another, nothing is ever dropped |
| PasteQueue.DropsNothingExactly | src/overlay_clipboard.rs:73-134 | once all reads have finished, a run without outside changes has dropped nothing if and only if Escape arrived only while nothing was queued and no waiting key closed the field in front of another |
| PasteQueue.UndisturbedRefines | src/overlay_clipboard.rs:63-140 | so once all reads have finished, every such run has done exactly what dispatching every key on arrival would have done |
| TextField.PressKeepsCursor | src/text_edit.rs:324-366 | no key takes the cursor out of the text, and keys that report no edit leave the text alone |
| PromptKeys.RemovingKeys | src/text_edit.rs:324-366 | backspace removes the character before the cursor, delete the one behind it, cut everything, and copying changes nothing |
| PromptKeys.InsertingKeys | src/text_edit.rs:324-366 | typed and pasted text goes in at the cursor, which ends up behind it |
| PromptKeys.OneLineKeeps | src/text_edit.rs:324-366 | text that is inserted loses its line breaks and nothing else |
| PromptKeys.MovingKeys | src/text_edit.rs:324-366 | where left, right, home, end and selecting everything put the cursor |
| PromptKeys.RemovingSelection | src/text_edit.rs:324-366 | with everything selected, what removes text removes all of it |
| PromptKeys.ReplacingSelection | src/text_edit.rs:324-366 | with everything selected, what inserts text replaces all of it |
| PromptKeys.LeavingSelection | src/text_edit.rs:324-366 | with everything selected, what moves the cursor moves it to an end |
| CompletionPrompt.LongestCommonPrefix | src/multi_command.rs:515-528 | the loop computes the common prefix of the candidates |
| CompletionPrompt.CommonPrefixIsLongest | src/multi_command.rs:515-528 | the prefixes shared by all candidates are exactly the prefixes of the common prefix |
| CompletionPrompt.WordStart | src/multi_command.rs:439-448 | the word before the cursor starts after the last whitespace, brace, comma or quote and holds none |
| CompletionPrompt.MultiCommandPrompt.ClearCompletion | src/multi_command.rs:163-172 | the prompt moves to a new generation without candidates |
| CompletionPrompt.MultiCommandPrompt.AcceptCompletion | src/multi_command.rs:174-194 | the state after accepting, with or without a space |
| CompletionPrompt.MultiCommandPrompt.BeginCompletionRequest | src/multi_command.rs:204-246 | the request captures query, cursor, word start and a new generation |
| CompletionPrompt.MultiCommandPrompt.ApplyCompletionResult | src/multi_command.rs:248-276 | the state after a result: unchanged if stale, extended to the common prefix if that is longer in bytes, otherwise moved to a candidate |
| CompletionPrompt.MultiCommandPrompt.NavigateCompletion | src/multi_command.rs:278-290 | the next or previous candidate, round the list, is selected |
| CompletionPrompt.MultiCommandPrompt.SelectCompletion | src/multi_command.rs:292-298 | the candidate takes the place of the span |
| CompletionPrompt.MultiCommandPrompt.DeletePreviousWord | src/multi_command.rs:313-348 | the whitespace and the item before the cursor are removed, or everything that is selected |
| CompletionPrompt.MultiCommandPrompt.RenderedQueryParts | src/multi_command.rs:350-361 | the parts returned are cached for the current query generation |
| CompletionPrompt.MultiCommandPrompt.ReplaceCompletion | src/multi_command.rs:363-372 | the span becomes the replacement, with the cursor after it |
| PromptRuns.KeyDown | src/multi_command_ui.rs:331-458 | what each key does to the prompt, and which request it leaves to a background scan |
| PromptKeys.TabRequests | src/multi_command_ui.rs:331-356 | tab in a prompt without candidates makes one request, which remembers the query, the cursor, the direction and where the word before the cursor starts, and no other is current |
| PromptKeys.TabAtOnce | src/multi_command_ui.rs:356-361 | candidates at hand are applied as their late result would be; while a request is out tab does nothing |
| PromptKeys.ResultMeans | src/multi_command.rs:248-276 | what a current result does to the query: if the longest prefix that all candidates share is longer than the word, the word becomes it, with the cursor behind it and nothing selected, and a lone directory ends the completion; otherwise the first candidate, or backwards the last, replaces the word and is selected |
| PromptKeys.ExtendsExactly | src/multi_command.rs:263-272 | where all candidates extend the word, that is exactly when some longer text is a prefix of them all |
| PromptKeys.EmptyResult | src/multi_command.rs:253-257 | a current result without candidates only ends the waiting |
| PromptKeys.NothingSelectedYet | src/multi_command_ui.rs:331-398 | in every run nothing is selected and nothing offered when a current result arrives |
| PromptKeys.ArrowKeys | src/multi_command_ui.rs:335-444 | down and tab select the next candidate, up and shift-tab the one before, round the list, or the first and the last when none is selected; it replaces the word |
| PromptKeys.ClickPicks | src/multi_command_ui.rs:318-329 | a click selects the candidate clicked on |
| PromptKeys.EnterAccepts | src/multi_command.rs:174-194 | enter ends the completion, with a space after the word exactly outside brace groups, after no directory and before no whitespace |
| PromptKeys.DeletesWord | src/multi_command.rs:313-348 | deleting a word removes the whitespace before the cursor and the item before that, back to whitespace or a comma |
| PromptRuns.AppliedIsSafe | src/multi_command.rs:248-276 | whatever candidates a current result brings, the span stays inside the query and the text around it is what the request captured |
| PromptRuns.StepKeepsInv | src/multi_command_ui.rs:318-458 | every key, click, report, drawing and result keeps the invariant, and no generation is used twice |
| PromptRuns.RunKeepsInv | src/multi_command_ui.rs:318-458 | over every run, while candidates exist: start <= end <= length, the text outside the span is what the request captured, the span is the selected candidate or the common prefix, the cursor is at its end, and cached parts are never stale |
| PromptRuns.StaleForever | src/multi_command.rs:504-513 | once the prompt has moved past a request, its result changes nothing however late it comes |
| PromptRuns.EditsInvalidate | src/multi_command_ui.rs:396-456 | any key that edits the query or moves the cursor makes every outstanding request stale |
| PromptRuns.OneCurrent | src/multi_command.rs:504-513 | never are two outstanding requests current |
| PromptRuns.NextThenPrevious | src/multi_command.rs:278-298 | from a selection, next and previous undo each other, text and cursor included |
| PromptRuns.MovesRound | src/multi_command.rs:278-290 | after n steps the candidate n further round the list is selected |
| PromptRuns.AcceptSplices | src/multi_command.rs:174-194 | accepting gives the captured query with the candidate in place of the word, and a space exactly outside brace groups, after no directory and before no whitespace |
| PromptRuns.CandidatesExtendTheWord | src/multi_command.rs:263-274 | candidates that extend the typed word never lose a typed character |
| BoundedSelection.SortedSorts | src/multi_command.rs:744-746 | sorting puts the same items in order |
| BoundedSelection.BoundedSortedCandidates | src/multi_command.rs:723-747 | the heap scan returns the first `limit` of the sorted items consumed before it was cancelled, duplicates kept |
| BoundedSelection.KeptAreSmallest | src/multi_command.rs:723-747 | nothing left out is smaller than anything kept |
| BoundedSelection.DistinctSorts | src/multi_command.rs:753-760 | the ordered set holds each item once, in order |
| BoundedSelection.BoundedSortedUniqueCandidates | src/multi_command.rs:749-761 | the set scan returns the `limit` smallest distinct items in order |
| ManagedBlocks.LastWriterWins | src/linux_desktop.rs:112-235 | of two rewritings the second wins, failure included, exactly when the actions block is not nested in the groups block or the lines around the groups block hold no single main line before their first heading |
| ManagedBlocks.LastAlikeWins | src/linux_desktop.rs:112-235 | when both write headings, or both none, the second wins exactly when the actions block is not nested |
| ManagedBlocks.NestedIsLost | src/linux_desktop.rs:200-217 | a nested document is rewritten once and refused ever after |
| ManagedBlocks.RewriteKeepsTheRest | src/linux_desktop.rs:174-217 | outside the blocks exactly one line changes, from one main line to the new one; this holds of nested documents too, whose actions block is lost with the groups block around it |
| ManagedBlocks.ReplaceBlockExactly | src/linux_desktop.rs:200-217 | a block is replaced exactly where each of its markers stands once and in order |
| ManagedBlocks.ReplaceMainExactly | src/linux_desktop.rs:174-198 | the main line is replaced exactly in documents with an action group after their first line and one main line before the first of them, and nothing else changes |
| DesktopEntry.ContentIsProper | src/linux_desktop.rs:118-158 | what is generated for any executable and profiles has each marker once, headings only where profiles are, and one main line |
| DesktopActions.ActionsAreGroups | src/linux_desktop.rs:126-144 | cut at its semicolons, the actions list of any launch is a new window and then the groups of the groups block, in their order, each once and numbered from one |
| DesktopActions.GroupsDescribeNames | src/linux_desktop.rs:118-144 | the groups are those of all names that are not empty and hold no control character, in their order, each with its action, its name and its command |
| DesktopActions.DigitsReadBack | src/linux_desktop.rs:126-144 | the numbers in the actions are written in decimal |
| DesktopEntry.LastRenderingWins | src/linux_desktop.rs:112-159 | rendering for p and then for q is rendering for q, failure included, exactly on entries that are not nested, or for an executable that cannot be written, or with lines around the blocks that refuse q |
| DesktopEntry.LastAlikeRenderingWins | src/linux_desktop.rs:112-159 | if both have profiles, or both have none, exactly on entries that are not nested |
| DesktopEntry.RenderingIsIdempotent | src/linux_desktop.rs:112-159 | rendering twice is rendering once exactly on entries that are not nested |
| DesktopEntry.RenderingKeepsTheRest | src/linux_desktop.rs:112-159 | everything outside the blocks and the one main line is unchanged, in nested entries too |
| DesktopEntry.NestedEntryIsLost | src/linux_desktop.rs:200-217 | a concrete nested entry that is rendered once and whose result is refused |
| DesktopFile.ManagedMarkerLine | src/linux_desktop.rs:219-235 | the byte loop finds where the only line that is the marker starts and ends, or nothing |
| DesktopFile.ReplaceManagedBlock | src/linux_desktop.rs:200-217 | cutting the text is replacing the lines from the begin to the end marker |
| DesktopFile.FindsLine | src/linux_desktop.rs:175-176 | searching for a newline and a heading finds the first heading line but for the very first line |
| DesktopFile.ReplaceMainExec | src/linux_desktop.rs:174-198 | the only `Exec=` line before the first action group is replaced, and anything else is refused |
| DesktopFile.ProfileGroups | src/linux_desktop.rs:130-139 | the string built in the loop is the groups block |
| DesktopFile.RenderManagedDesktopEntry | src/linux_desktop.rs:112-159 | the whole rendering on text is the rendering of its lines |
| DesktopFile.LastRenderingOfTextWins | src/linux_desktop.rs:112-159 | the law of the last writer, with its exact condition, holds of the texts |
| DesktopFile.RenderingOfTextIsIdempotent | src/linux_desktop.rs:112-159 | rendering a text twice is rendering it once exactly on entries that are not nested |
| ExecQuoting.QuoteExecArgument | src/linux_desktop.rs:260-283 | the loop computes the quoted form |
| ExecQuoting.EscapeDesktopString | src/linux_desktop.rs:245-258 | the loop computes the escaped form |
| ExecQuoting.CommandReadsBack | src/linux_desktop.rs:260-283 | the quoting rule of the Desktop Entry Specification, section "The Exec key", reads any quoted arguments joined by spaces back |
| ExecQuoting.QuotesExactly | src/linux_desktop.rs:260-269 | an argument is written as it is exactly when it is not empty and none of its characters is reserved |
| ExecQuoting.FileReadsBack | src/linux_desktop.rs:260-283 | read from the file, where the rule for strings applies first, a command of quoted arguments gives its arguments exactly when none has a backslash, double quote, backtick or dollar sign |
| ExecQuoting.ProfileCommandReadsBack | src/linux_desktop.rs:133-141 | the whole command of a profile is read from the entry as the executable, its options and the name exactly when neither path nor name has such a character |
| ExecQuoting.MainCommandReadsBack | src/linux_desktop.rs:190-198 | likewise the main command with its generation |
| ExecQuoting.NameReadsBack | src/linux_desktop.rs:245-258 | an escaped name is read from its entry without the spaces it starts with: as a string it is itself exactly when it has no semicolon and does not start with a space, at the start of a list exactly when it does not start with a space |
| ExecQuoting.LeadingSpaceIsLost | src/linux_desktop.rs:245-258 | a concrete name that loses its first character |
| IniFile.UpdateLines | src/default_terminal.rs:498-541 | the loop with its flags computes the updated lines |
| IniFile.AppendIniUpdates | src/default_terminal.rs:551-557 | the rows not seen are appended in order |
| IniText.UpdateIniSection | src/default_terminal.rs:485-548 | the same on a text, its newline style and its last newline |
| IniFile.UpdatedDocumentIs | src/default_terminal.rs:498-541 | as a document, every section of the name is updated and nothing else, or a section is added at the end |
| IniFile.NewSectionIsApart | src/default_terminal.rs:533-541 | a new section stands at the end, one blank line apart from other text, with its rows in their order |
| IniFile.ReadsBack | src/default_terminal.rs:516-541 | afterwards every section of the name, and there is one, gives every updated key its new value, trimmed as it is read, and no other |
| IniFile.OtherLookupsUnchanged | src/default_terminal.rs:498-541 | every other lookup, in this section and in others, gives what it gave |
| IniFile.OtherLinesUnchanged | src/default_terminal.rs:498-541 | no line outside the section changes, and inside it none that sets no updated key |
| IniFile.UpdatingIsIdempotent | src/default_terminal.rs:498-541 | of the lines, a row being one line: a second update is the identity if and only if every key is trimmed, without an equals sign and given once, and no row looks like a heading |
| IniFile.UnmatchableKeyGrows | src/default_terminal.rs:516-541 | with a key that is untrimmed, has an equals sign or is given twice, every update of a text that has the section makes it longer |
| IniFile.UnsettableGrows | src/default_terminal.rs:516-541 | whenever the condition fails, the second update makes the text longer, whether it had the section or not |
| IniText.UpdatingTextIsIdempotent | src/default_terminal.rs:485-548 | for every text, section name and updates, whatever line breaks they hold: a second update is the identity if and only if that condition holds and the lines written can be read back, that is, none holds a newline, and none ends in a carriage return that its newline would absorb (a single heading may) |
| IniText.UpdatesDecide | src/default_terminal.rs:485-548 | for texts with plain newlines the updates alone decide: no newline in the name or a row, and no row that ends in a carriage return; for other texts without stray carriage returns this suffices |
| IniText.KdePreferenceIsIdempotent | src/default_terminal.rs:378-394 | the program's own update is idempotent on texts without carriage returns if and only if the path of the executable holds no newline and does not end in a carriage return |
| IniText.BrokenRowGrows | src/default_terminal.rs:516-548 | with a newline in a row every update makes a text longer |
| IniText.BrokenPathGrows | src/default_terminal.rs:378-394 | a concrete path with which the program's own update grows the text each time |
| IniText.TextReadsBack | src/default_terminal.rs:542-548 | lines that can be read back are read back from the updated text, in either newline style |
| LineText.LinesReadBack | src/default_terminal.rs:542-548 | lines joined into a text in either newline style are the lines of the text, with its newline style and last newline |
| Sectioned.UpdateIsBySection | src/default_terminal.rs:498-541 | one pass over the lines updates section by section |
| Sectioned.UpdateTwice | src/default_terminal.rs:498-541 | setting rows again changes nothing, if rows match themselves |
| Sectioned.UnfindableGrows | src/default_terminal.rs:498-541 | setting rows again makes the text longer, if some row is matched by none |
| XdgTerminals.ZettaIsPreferred | src/default_terminal.rs:320-376 | after an update of the lines the first preferred entry is Zetta, Zetta is listed once, and all other lines keep their order |
| XdgTerminals.UpdateKeepsOthers | src/default_terminal.rs:320-340 | the list is Zetta and then, in order, exactly the other lines that are no entry of Zetta |
| XdgTerminals.ZettaEntriesNameZetta | src/default_terminal.rs:342-376 | the lines taken out are exactly those that name Zetta after whitespace and perhaps a mark, with options or without; those that are not marked with a minus sign prefer it |
| XdgTerminals.TextPrefersZetta | src/default_terminal.rs:320-376 | the same of the text that is written, as it is read again, without carriage returns; only an empty last line that had no newline is not read again |
| XdgTerminals.UpdatingTextIsIdempotent | src/default_terminal.rs:320-340 | the update of a text without carriage returns is idempotent |
| OutputStream.RepeatedPayloads | src/output_benchmark.rs:92-106 | the loop ends after five payloads, each starting in the column where the one before ended |
| OutputStream.WritePayloads | src/output_benchmark.rs:119-136 | writing in turn gives exactly the bytes asked for, cycling through the payloads, in writes of bounded size that add up to them |
| OutputStream.RepeatedIsSeamless | src/output_benchmark.rs:50-106 | byte i of the repeated output depends only on its column, across all seams |
| OutputStream.FillLine | src/output_benchmark.rs:67-85 | the array of one numbered line |
| OutputStream.UniquePayload | src/output_benchmark.rs:63-90 | the unique payload is the stream of numbered lines, cut to size |
| OutputStream.UniqueLinesDiffer | src/output_benchmark.rs:70-75 | lines with different 64-bit numbers differ |
| OutputStream.CompleteLinesDiffer | src/output_benchmark.rs:63-90 | all complete lines of the unique output differ pairwise |
| OutputStream.WriteOutputBenchmark | src/output_benchmark.rs:108-142 | for every size and type exactly that many bytes are written, each the byte of the stream at its place |
| OutputStream.LinesWritten | src/output_benchmark.rs:50-90 | the complete lines of the output: all the text and its beginning again, or each the line of its number; a newline ends every eightieth byte and no other byte is one |
| OutputStream.UniqueLineReads | src/output_benchmark.rs:67-85 | a unique line reads as its number in sixteen hexadecimal digits and the text from there |
| TabOrder.TabBar.ReorderItemsById | src/app.rs:67-104 | the new order and the index of the active tab, or no change |
| TabOrder.TabBar.MoveItemById | src/app.rs:106-134 | a move is a reorder next to the neighbour |
| TabOrder.TabBar.InsertTabInPinOrder | src/app.rs:178-186 | the tab is put after the pinned ones or last |
| TabOrder.TabBar.ToggleTabPinningInOrder | src/app.rs:188-197 | the toggled tab is put back after the pinned ones |
| TabOrder.InsertPlaces | src/app.rs:178-186 | where pinned tabs come first, a new pinned tab goes right after them and any other last |
| TabOrder.TogglePlaces | src/app.rs:188-197 | a toggled tab becomes the last of the pinned ones or the first of the rest |
| TabOrder.ReorderPermutes | src/app.rs:67-104 | a reorder permutes the tabs, changes their order, and still finds the active one |
| TabOrder.ReorderLandsNextTo | src/app.rs:84-104 | the moved tab lands next to its target on the side asked for, and all others keep their order |
| TabOrder.NothingToReorder | src/app.rs:74-97 | no change is reported exactly when a tab is missing, is its own target, or already is where it should go |
| TabOrder.MoveExchanges | src/app.rs:106-134 | a move exchanges two neighbours |
| TabOrder.MoveBack | src/app.rs:106-134 | moving one way and then the other restores the order |
| TabOrder.DropKeepsPinned | src/app.rs:144-163 | a guarded drop keeps pinned tabs first |
| TabOrder.MoveKeepsPinned | src/app.rs:165-176 | a guarded move keeps pinned tabs first |
| TabOrder.ToggleKeepsPinned | src/app.rs:188-197 | toggling keeps pinned tabs first and all other tabs in order |
| TabOrder.InsertKeepsPinned | src/app.rs:178-186 | inserting keeps pinned tabs first |
| TabOrder.PinnedStayFirst | src/app.rs:140-197 | pinned tabs stay first over every run of inserts, toggles, drops, moves and closings |
| TabOrder.StepKeepsInv | src/app/tabs.rs:604-660 | every step keeps pinned tabs first and ids distinct, and toggles, drops and moves keep the active tab active |
| TabOrder.DropMoves | src/app.rs:67-104 | a drop between tabs of one kind, unless the tab is there already, puts it next to its target and keeps the order of all others |
| TabOrder.DropsNothing | src/app.rs:144-163 | any other drop of a tab on a tab changes nothing |
| TabOrder.MoveMoves | src/app.rs:106-176 | a move exchanges the active tab with its neighbour if there is one of its kind, and otherwise does nothing |
| TabOrder.InsertActivates | src/app.rs:178-186 | a new tab becomes the active one |
| FuzzyMatch.Walk | src/fuzzy_match.rs:51-87 | the walk succeeds exactly when the query is a subsequence, and reports the leftmost places and their score |
| FuzzyMatch.GreedyIsComplete | src/fuzzy_match.rs:51-87 | greedy matching succeeds whenever any matching does |
| FuzzyMatch.LeftmostIsLeast | src/fuzzy_match.rs:51-87 | no other embedding has any place further left |
| FuzzyMatch.ScoreBounds | src/fuzzy_match.rs:63-84 | a match of n characters scores between 10 n and 23 n - 8 before an eighth of the length is taken off |
| FuzzyMatch.ScoreCounts | src/fuzzy_match.rs:63-84 | a match scores ten for every character, eight for every one as many bytes after the one before as it has itself, and five for every one at the start of the candidate or after a space, colon, underscore or hyphen |
| FuzzyMatch.BonusIsExactWhenSameWidth | src/fuzzy_match.rs:68-70 | for every candidate, the bonus is given for exactly the consecutive matches if and only if all its characters have UTF-8 forms of the same length |
| FuzzyMatch.FollowsMeans | src/fuzzy_match.rs:68-70 | a match gets the bonus exactly when the bytes since the previous match are as many as its own |
| FuzzyMatch.FollowsInAscii | src/fuzzy_match.rs:68-70 | in ASCII text these are the consecutive matches |
| FuzzyMatch.FollowsNext | src/fuzzy_match.rs:68-70 | in other text a consecutive match gets it exactly when it is as wide as the character before |
| FuzzyMatch.SkippedCharacterCounts | src/fuzzy_match.rs:68-70 | a concrete match that is not consecutive and gets the bonus |
| FuzzyMatch.MatchedRanges | src/fuzzy_match.rs:28-47 | the ranges are in order, separated, end between characters of the candidate and spell the query, or there are none; a match is highlighted exactly when its ranges pass the boundary check, and always if lower case keeps the characters' widths; in a shadowed text they also start between characters |
| FuzzyMatch.StartsFitExactly | src/fuzzy_match.rs:34-45 | the check looks at ends only; every accepted range of every query also starts between characters if and only if every character of the lower case that starts inside one of the candidate also occurs between any boundary before it and itself |
| FuzzyMatch.StartInsideCharacter | src/fuzzy_match.rs:39-45 | a concrete candidate and query whose accepted range starts inside a character |
| FuzzyMatch.WidthsKeepBoundaries | src/fuzzy_match.rs:39-45 | if lower case keeps the characters' widths, every range starts and ends between characters of the candidate |
| LaunchQueue.BoundedLaunchQueue.PopReady | src/pane.rs:297-304 | the first launch is taken exactly when a slot is free and one is pending |
| LaunchQueue.BoundedLaunchQueue.StartReady | src/multi_command_ui.rs:281-308 | the pump loop starts launches whose pane exists and drops the others |
| LaunchQueue.PumpIs | src/multi_command_ui.rs:281-308 | a pump takes launches from the front and goes on until none is pending or all slots are used |
| LaunchQueue.NoUnderflow | src/pane.rs:306-311 | whenever a started launch finishes, a slot is in use |
| LaunchQueue.NothingIsLost | src/pane.rs:283-312 | over every run: the limit holds, queued = pending + in flight + finished + dropped, and launches leave the queue in order |
| LaunchQueue.StartsOnce | src/multi_command_ui.rs:281-308 | a launch is started or dropped once and for all |
| AuthBackoff.Delays | src/local_sessions.rs:19-24 | the delays are 1, 2, 4, 8 and 16 seconds, then 30 |
| AuthBackoff.BackgroundSessionRunner.RecordFailedAuthenticationAt | src/background_sessions.rs:147-156 | the failure is counted and the next window opened for this session alone |
| AuthBackoff.BackgroundSessionRunner.ReconnectAt | src/background_sessions.rs:165-167 | one session is removed, the others keep their order |
| AuthBackoff.FailuresAreBounded | src/background_sessions.rs:135-156 | over every run the failures evaluated for one session take at least the sum of their delays, so there are at most 6 + t / 30 in t seconds |
| AuthBackoff.AttemptsAreJudged | src/background_sessions.rs:135-163 | in every run an attempt is refused exactly in the window after the last wrong one and then changes nothing; otherwise a right one forgets all wrong ones and a wrong one is counted and opens the next window |
| AuthBackoff.WindowStands | src/background_sessions.rs:135-167 | over every run a session stays exactly as it is while its window lasts, whatever attempts are made on it, and while no attempt is made on it, whatever is done with other sessions |
| PowerShell.QuotePowershellLiteral | src/command_panes.rs:180-191 | the loop computes the literal with every kind of single quote doubled |
| PowerShell.LiteralReadsBack | src/command_panes.rs:176-191 | a reader that takes two quotes as one reads the value back |
| PowerShell.QuoteShellValue | src/command_panes.rs:149-174 | with curly quotes in the value, both paths give the literal |
| PowerShell.BuildScript | src/command_panes.rs:281-304 | the script is all snapshots, then all assignments, then all restorations, in the order of the request |
| PowerShell.CommandSeesRequest | src/command_panes.rs:281-304 | what the scope is for: with every accepted request the command starts with every variable of the request set to its value, and all others as they were |
| PowerShell.AcceptEnvironment | src/process_control.rs:577-590 | the decoder's loop with its set of names accepts exactly the environments whose entries are valid and whose names differ in upper case |
| PowerShell.AcceptedIsApart | src/process_control.rs:586 | no two names of an accepted request share a key of a table that folds ASCII case |
| PowerShell.ScopeRestores | src/command_panes.rs:281-310 | for every accepted request, whatever the command does and wherever the scope fails, a variable of the request is afterwards as it was if and only if it was not empty or the host can set a variable to the empty text |
| PowerShell.ScopeKeepsOthers | src/command_panes.rs:281-310 | every other variable is as the command left it |
| PowerShell.RestoresExactlyWhenApart | src/command_panes.rs:281-304 | why requests are checked: where names of one variable share a table key, the scope of an unchecked request restores its variables exactly when no two different ones share a key and the host keeps empty variables |

## Left out

- DesktopEntry.RenderingIsIdempotent: not stated for all entries, because it is false of an actions block nested in the groups block; the exact condition is proved instead.
- IniFile.UpdatingIsIdempotent: not stated for all updates, because it is false of keys that no line can set and of rows that look like headings; the exact condition is proved instead.
- IniText.UpdatesDecide: only sufficient for texts with `\r\n`, and silent on texts that end in a lone carriage return; there IniText.UpdatingTextIsIdempotent decides by the lines that are written.
- XdgTerminals.UpdatingTextIsIdempotent: for texts without carriage returns.
- PowerShell.BuildScript: the statements of the scope are a datatype, not the text they are written as; the scope's tables are assumed not to be touched by the command.
- PowerShell.AcceptEnvironment: the decoder's checks of the command, the arguments and the total size are not part of the model.
- PowerShell.QuoteShellValue: the upstream quoting it corrects is a parameter with the behaviour that its comment describes.
- FuzzyMatch.MatchedRanges: lower-casing and trimming are parameters, so FuzzyMatch.StartsFitExactly ranges over queries that trimming would shorten too; ranges count characters of the lower-cased text.
- ExecQuoting.NameReadsBack: the entry is read by the Desktop Entry Specification's rules for entries and strings; a reader that also drops other blanks in front of a value is not modelled.
- AuthBackoff.FailuresAreBounded: an attempt is checked, evaluated and recorded at one instant; evaluations that overlap are not modelled, nor clocks that overflow.
- PromptRuns.RunKeepsInv: candidates are arbitrary; how they are found (catalogs, directories, SSH hosts) is not part of the model, and a prompt ends when it is dismissed or submitted.
- OutputStream.WriteOutputBenchmark: a writer that fails, and the time measured, are not modelled.
- BoundedSelection.BoundedSortedCandidates: the heap is a store from which a largest item can be removed; its internal order is not modelled.  Cancellation is stopping at an arbitrary point.
- Positions count scalar values where the program counts bytes; all delimiters are ASCII, so they denote the same places.
- Counters of 64 bits (generations, ids) do not wrap.
- The number that stands for the profile list in the main `Exec=` line is a parameter; which profiles are hidden is decided before rendering.
- Reading and replacing files, the environment, the clipboard itself, processes and windows are parameters or absent.
- Drawing, focus, dialogs, palettes, the multiplexer client and daemon, configuration and keymap files, the Mosh option table, pane geometry and the other shells' scopes: no part of the model.
