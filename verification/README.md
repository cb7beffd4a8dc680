# Verified models of AusweisApp2's stateful cores

A Dafny project about the parts of the repository whose correctness is hard to see from
reading them: the unified diff engine, the remote card reader protocol, and five small
objects with long-lived state. `dafny verify dfyconfig.toml` checks all of it.

The imperative code is modelled in its own form. Loops are methods with invariants, objects
that slots change in place are classes, and each such method is proved equal to a function
of the state before it. The theorems are then about these functions: over every input, every
interleaving of events, or every run. Methods that do one assignment or one call are tied to
their step in the same way and have no row of their own below.

**patch/** follows `libs/patch.py`. A patch is parsed by a line-driven machine with six mode
flags (`Parser`, and the loop itself in `ParseLoop`), printed (`Dumper`), reversed
(`Revert`), checked against a file (`Scanner`, `Matcher`) and applied (`Rewriter`,
`Applier`). Lines are strings with their line ends; contents are compared without trailing
`\r` and `\n`, as the program does. The format is the unified format of POSIX.1-2008,
utility `diff`, section "Diff -u or -U Output Format". The main results: printing and
parsing are inverse in both directions, up to the text after a start line; the scan accepts
exactly the files it should on ordered hunks, except that it never looks at the last line of
a window; what it accepts is rewritten as a splice inside the file, exactly when no line
outside the windows comes after a hunk with a `\` line; and revert undoes apply exactly when
that holds and every window had matched in full. `Pipeline` joins them: what
a successful parse stores meets the theorems, as soon as its hunks are in order. `StartLines`,
`ParserErrors`, `ParserCounts`, `LineEnds` and `DiffCounts` say in terms of the text itself what
a start line declares, what counts as an error or a warning, how every line is written, and
what the statistics count.

**remote/** models the server session (context handshake, gate, slot table, asynchronous
commands), the two threads of the client, its strike counters, and the expiring list of
devices, each as steps over unbounded runs with the environment's choices as events.
`ServerAnswers` lists for every answer when it is sent and with which contents. Error
minors are those of section 4.2 of BSI TR-03112 as far as the handlers use them.

**core/** models the downloader with its updatable files, the shared instances of `Env`, the
window around the first critical log message, and the assembly of HTTP header fields
(section 3.2 of RFC 7230).

## What turned out not to hold

Each of these has a concrete input and the exact condition under which the code does what it
promises.

- A start line that declares both counts 0 can set two mode flags at once and store its hunk
  twice (`EmptyHead.TwoModes`, `ParserProofs.ModesExact`).
- The dry run never compares the last line of a window (`Applier.LastLineUnchecked`), so
  revert restores a file only if that line matched (`Revert.ApplyThenRevert`).
- Insertions before the first line of a file keep the line ends of the patch
  (`RewriterProofs.TopInsertionKeepsPatchEol`, `RewriterProofs.LineEndsKept`, and for files of
  mixed line ends `LineEnds.FileIsVerbatim`).
- A hunk without source lines, an insertion with no lines around it, is never applied, unless
  it creates a file (`Applier.EmptySourceLeftAlone`, `Scanner.CanPatchExact`). The one that
  creates a file is applied to a file with content too, and its reverse removes that content
  (`NewFiles.CreatedStream`, `NewFiles.CreateThenRevert`).
- Two connects for one reader that overlap can both be granted, and then one handle outlives
  the card (`ServerTable.OverlapLeavesHandle`). Over every run: there is one handle per reader
  exactly when each granted connect finds its reader free (`ServerTable.OneHandlePerReader`),
  and the table is exact exactly when each card that goes finds at most one entry
  (`ServerTable.TableExact`).
- A request can stay unanswered when another one for an equal descriptor is being built at
  the moment its connection finishes (`ClientProofs.SecondRequestLost`). Two requests for one
  device at a time are answered otherwise: over every run, exactly the requests dropped beside
  a finished connection are lost (`ClientLosses.EveryRunAccounts`, `ClientLosses.AllAnsweredExact`).
- Two requests for one device can get the outcomes of each other without any loss
  (`ClientOrder.OutcomesSwapped`): answers are given in the order of asking, so each is the
  request's own exactly when the outcomes come back in that order (`ClientOrder.OwnExact`).
- A device that vanishes is reported with a reference to its slot in the vector, read after the
  removal. With a second device behind it, that one is reported instead and the first leaves
  untold (`DeviceSignals.WrongDeviceVanishes`); at the end of the list the slot is destroyed,
  and reading it is undefined. Even if it still reads as what it held, the signals are right
  exactly when no tick finds a stale entry in front of another one (`DeviceSignals.SignalsExact`,
  and over every run `DeviceSignals.RunTells` and `DeviceSignals.RunSignals`).
- Around midnight the device list drops fresh devices or keeps stale ones
  (`DeviceListProofs.FreshDeviceDropped`, `DeviceListProofs.VerdictExact`, and over every run
  `DeviceListProofs.HistoryExact`).
- The critical log window is cut off when its last message is longer in the file than as text
  (`LogProofs.CriticalCut`, `LogProofs.WindowReadExact`).
- A header without a value is lost and its name runs into the next one
  (`HttpHeaders.EmptyValueMerges`, `HttpHeaders.MergedExact`, `HttpHeaders.FoldedExact`).
- A `\` line in a hunk makes the rewriter read one line more, and lose it
  (`Backslash.LineLost`), exactly when a line outside the windows comes after that hunk
  (`RewriterProofs.StreamIsSplice`); at the end of a file, where such a remark belongs, nothing
  is lost (`Backslash.RemarkAtEnd`). A patched file is then not recognised as patched: the
  check takes the remark for a line of the file (`Matcher.PatchedIsRecognised`). A file that
  has lost a line can be, if the next line reads like the remark (`Backslash.LossRecognised`).

The branches that comments in the parser call dead or unreachable are indeed never taken
(`ParserProofs.DeadBranches`).

## Model

| member | source | states |
|---|---|---|
| `Text.ReplaceEol` | libs/patch.py:1104-1106 | Replacing the line end of a line keeps its text and gives it exactly the new line end |
| `Hunks.WindowsExact` | libs/patch.py:890-944 | Ordered source windows lie inside a file one after the other exactly when each of them does |
| `Hunks.SpliceIsReplacement` | libs/patch.py:1085-1111 | The one-pass splice equals replacing one window at a time, the last one first |
| `Hunks.SpliceLength` | libs/patch.py:1085-1111 | The splice is as long as the file plus the sum of linestgt - linessrc |
| `Rewriter.GetLine` | libs/patch.py:1070-1083 | Reads one line and counts its line end; the counters say exactly which kinds occurred so far |
| `Rewriter.CopyUpTo` | libs/patch.py:1088-1090 | Copies the lines before a hunk and keeps the statistics of line ends |
| `Rewriter.WriteBody` | libs/patch.py:1092-1108 | Writes one hunk body: exactly the specified lines, with the line end detected from what was read before each of them |
| `Rewriter.PatchStream` | libs/patch.py:1054-1111 | The generator yields exactly the specified stream, for every file and every hunk list, `\` lines and windows past the end included |
| `RewriterProofs.ConsumedExact` | libs/patch.py:1092-1101 | A body reads one line of the file for each line of its source side, and one for each `\` line |
| `RewriterProofs.BodyIsTargetSide` | libs/patch.py:1092-1108 | A body writes exactly its target side, up to line ends, `\` lines or not |
| `RewriterProofs.Geometry` | libs/patch.py:1085-1101 | On ordered windows the generator starts each body at its window unless it has already read past it, and has then read the window and one line more for each `\` line |
| `RewriterProofs.LengthBound` | libs/patch.py:1085-1111 | A generator that has read lines too many writes as many too few, or misses every line outside the windows |
| `RewriterProofs.LinesLost` | libs/patch.py:1085-1111 | When a line outside the windows comes after a hunk with a `\` line, the result is shorter than the headers declare |
| `RewriterProofs.StreamIsSplice` | libs/patch.py:1085-1111 | On ordered windows inside the file the rewriter is the splice of the target sides, up to line ends, if and only if no line outside the windows comes after a hunk with a `\` line; without such lines nothing is read past the end of the file inside a hunk |
| `RewriterProofs.PatchIsReplacement` | libs/patch.py:1085-1111 | Under the same condition, and only then, the rewritten file equals the window-by-window replacement and is as long as the source plus the sum of linestgt - linessrc; it is never longer |
| `RewriterProofs.LineEndsKept` | libs/patch.py:1069-1108 | In a file with one kind of line end the result has that kind throughout if and only if the lines written before the first line is read have it |
| `LineEnds.WrittenLine` | libs/patch.py:1104-1108 | A written line is the hunk's own line unless exactly one kind of line end has been read by then; then it is its text with that kind |
| `LineEnds.BodyIsRendition` | libs/patch.py:1092-1108 | Every body, line by line, over the line ends of the lines read before each of them |
| `LineEnds.FileIsVerbatim` | libs/patch.py:1085-1111 | For every file: if no line outside the windows comes after a hunk with a `\` line, the lines outside the windows are those of the file, character by character, and the bodies are written as above |
| `RewriterProofs.TopInsertionKeepsPatchEol` | libs/patch.py:1104-1108 | A concrete `\r\n` file and hunk for which the result mixes line ends |
| `Backslash.LineLost` | libs/patch.py:1094-1097 | For all lines: a replacement with a `\` remark loses the line after the replaced one |
| `Backslash.LossRecognised` | libs/patch.py:1014-1111 | For all lines: if the line after the lost one reads like the remark, the result passes for already patched |
| `Backslash.RemarkAtEnd` | libs/patch.py:1014-1111 | For all lines: at the end of a file the same hunk loses nothing, and the result is still not recognised as already patched |
| `Scanner.ScanFile` | libs/patch.py:883-944 | The dry run loop computes exactly the specified verdict, for every file and hunk list, its index errors included |
| `Scanner.NewFileAlwaysAccepted` | libs/patch.py:937-941 | A single hunk with startsrc and linessrc 0 is accepted for every file, whatever it holds |
| `Scanner.EmptySourceRefused` | libs/patch.py:890-944 | Any other hunk without source lines is never accepted, among ordered hunks or first at line 0 |
| `Scanner.RunExact` | libs/patch.py:890-936 | From every reachable point of the scan: it accepts exactly when all hunks so far were valid and all later ones are, and counts all hunks as valid only then |
| `Scanner.CanPatchExact` | libs/patch.py:881-944 | On ordered hunks with the source lines they declare the scan never fails with an index error, and canpatch holds if and only if every window is non-empty, lies in the file, and all its source lines but the last match; canpatch means all hunks were counted valid and the file did not end early |
| `Scanner.PrematureExact` | libs/patch.py:890-944 | On the same hunks the file counts as ended too early if and only if a hunk has no source lines, or has a window that ends behind the file while no compared line that is there differs |
| `Scanner.EmptyLineFails` | libs/patch.py:894-895 | An empty string in the body of the first hunk makes the scan fail when the file reaches that hunk |
| `Scanner.OverlapFails` | libs/patch.py:902-914 | Two hunks that overlap in one line can make the scan fail with an index error |
| `Applier.ApplyToFile` | libs/patch.py:881-970 | Dry run, already-patched check and rewrite of one file: content, error count and notice as specified, the abort included |
| `Applier.ApplyExact` | libs/patch.py:881-970 | On ordered, sourced hunks: the file is written, or removed, exactly when all hunks are ready and no backup is in the way; one error for a hunk the file is too short for, one for hunks neither ready nor already applied |
| `Applier.BackupProtects` | libs/patch.py:957-959 | With a backup of the same name in place no file is ever changed, whatever it and the hunks are |
| `Applier.ScanProtectsRewriter` | libs/patch.py:881-970 | canpatch implies windows inside the file; then the result is the window-by-window replacement and obeys the length law if and only if no line outside the windows comes after a hunk with a `\` line |
| `Applier.LastLineUnchecked` | libs/patch.py:902-936 | Any text in the last line of any window leaves the verdict positive: that line is never compared |
| `Applier.FullMatchIsAccepted` | libs/patch.py:881-944 | A file matched in full by ordered hunks with non-empty windows passes the scan with every hunk valid |
| `Applier.RevertUndoesApply` | libs/patch.py:993-997 | Applying a fully matching patch succeeds without errors; applying its reverse then succeeds and gives every line back, up to line ends, when no line outside the windows comes after a hunk with a `\` line; otherwise no revert that rewrites the file does |
| `Applier.SecondApply` | libs/patch.py:948-953 | When the windows fit the file, no line outside them comes after a hunk with a `\` line, and target starts are as counted (one line less where nothing is left), applying a patch again to its own result: when the scan accepts it the file is patched twice; otherwise it is left alone, and noticed as already patched if and only if no hunk has a `\` line |
| `Applier.EmptySourceLeftAlone` | libs/patch.py:881-970 | A patch with a hunk without source lines never changes the file, among ordered hunks or first at line 0, unless it is the one hunk that creates it; it is reported as an error or as already patched |
| `NewFiles.CreatedStream` | libs/patch.py:1085-1111 | Creating a file that already holds lines writes the target side and behind it the old lines, less one for every `\` line |
| `NewFiles.CreateThenRevert` | libs/patch.py:937-997 | Creating a file of at least one line succeeds, and reverting that removes the file, whatever it held before |
| `NewFiles.RevertRemovesExact` | libs/patch.py:881-970 | With any target start the reverse removes the created file if and only if the scan finds the target side at that start, and leaves it otherwise |
| `Matcher.MatchBody` | libs/patch.py:1033-1044 | One body matches if and only if its non-deletion lines stand in the file from the current line on |
| `Matcher.SkipTo` | libs/patch.py:1027-1032 | Skipping to a target start succeeds if and only if the file is long enough |
| `Matcher.MatchFileHunks` | libs/patch.py:1014-1051 | The walk returns exactly the specified truth value for every file and hunk list |
| `Matcher.AgreesExact` | libs/patch.py:1033-1044 | The line-by-line comparison holds if and only if the expected lines stand there as a block |
| `Matcher.MatchExact` | libs/patch.py:1014-1051 | On ordered target windows the walk succeeds if and only if every hunk stands at its own target start |
| `Matcher.ExpectedIsTargetSide` | libs/patch.py:1033-1044 | The expected lines of a body are its target side if and only if it has no `\` line |
| `Matcher.MarkedIsNotRecognised` | libs/patch.py:1014-1051 | With `\` lines in hunks that no line outside the windows follows, and target starts as counted, the check expects more lines than the patched file has, and never succeeds on it |
| `Matcher.PatchedIsRecognised` | libs/patch.py:1014-1051 | When the windows fit the file, no line outside them comes after a hunk with a `\` line, and every target start is the source start moved by the earlier hunks (one line less where nothing is left): output of the rewriter is recognised as already patched if and only if no hunk has a `\` line |
| `Revert.ReverseTwice` | libs/patch.py:979-991 | Reversing any hunk list twice gives it back |
| `Revert.FlippedSides` | libs/patch.py:986-991 | Flipping the signs of a body exchanges its two sides |
| `Revert.ReversedConsistent` | libs/patch.py:979-991 | Hunks that agree with their headers still do when reversed |
| `Revert.RestoredExact` | libs/patch.py:979-991 | Putting the claimed source sides back gives the file exactly when they stood there |
| `Revert.SpliceBack` | libs/patch.py:979-997 | On what the hunks have written the reversed hunks put the source sides back |
| `Revert.ReversedMatch` | libs/patch.py:979-991 | The reversed hunks match in full what the hunks have written |
| `Revert.SpliceReversed` | libs/patch.py:979-997 | The reversed hunks fit and match what the hunks have written, and restore the file if and only if the hunks had matched it |
| `Revert.LossStays` | libs/patch.py:979-997 | Lines lost to a `\` line are not brought back by the reverse |
| `Revert.ApplyThenRevert` | libs/patch.py:979-997 | Apply, then apply the reverse: the file comes back, up to line ends, if and only if every hunk had matched it in full, last lines included, and no line outside the windows came after a hunk with a `\` line |
| `Decoders.RangeTextReads` | libs/patch.py:1138 | A printed start and count inside a line is read back as the same two numbers |
| `Decoders.HeadReads` | libs/patch.py:545-567 | Reading a printed start line gives the four numbers back, for all numbers |
| `StartLines.StartLineReads` | libs/patch.py:545-567 | Every line that spells a start and, for either side, a count or none is read with these numbers; a count left out is 1 |
| `StartLines.StartLineExact` | libs/patch.py:545-567 | And nothing else is read as a start line |
| `StartLines.CountsRead` | libs/patch.py:559-566 | For all numbers: with both counts, with one of them, or with none |
| `StartLines.DescRead` | libs/patch.py:568 | The description is what stands behind the second `@@` and one more character, without white space at its end |
| `StartLines.HunkParses` | libs/patch.py:544-578 | A patch of one hunk with any start line that declares what its body has parses without errors and stores exactly this hunk |
| `StartLines.ReplacementParses` | libs/patch.py:544-578 | One line replaced by another under a start line without counts parses and stores exactly that hunk, for all numbers, lines and names |
| `Decoders.NameIsTrimmed` | libs/patch.py:478-484 | Every name the parser reads is trimmed, free of tabs, and free of line feeds on stream lines |
| `Decoders.NameReads` | libs/patch.py:1135-1136 | Reading a printed name line gives the name back |
| `Decoders.NameExact` | libs/patch.py:474-510 | The name read from a line is what stands behind the marker up to the first tab, without the white space around it |
| `Parser.RunConcat` | libs/patch.py:351-578 | Parsing a concatenation is parsing the second part from the state after the first |
| `ParseLoop.DecideMode` | libs/patch.py:353-362 | The deciders hand the line after a complete hunk to the right mode and always clear hunkparsed |
| `ParseLoop.ScanHeader` | libs/patch.py:366-387 | The inner header loop takes exactly the lines up to the next source name, as many single steps of the machine |
| `ParseLoop.TakeBlock` | libs/patch.py:402-428 | One body line: line end statistics, counters and text, or the invalid hunk |
| `ParseLoop.BodyBlock` | libs/patch.py:392-457 | A whole body turn, with the expansion of empty lines and the exit conditions |
| `ParseLoop.SkipBlock` | libs/patch.py:459-469 | Skipping an invalid hunk up to the next start line or source name |
| `ParseLoop.NamesBlock` | libs/patch.py:471-542 | The file name mode with its five failures and the opening of a patch |
| `ParseLoop.HeadBlock` | libs/patch.py:544-578 | The start line of a hunk, or the way back to the header scan |
| `ParseLoop.Turn` | libs/patch.py:389-578 | The blocks of one turn in their order, with the two early ends of the turn |
| `ParseLoop.Conclude` | libs/patch.py:580-601 | The end of the stream: open patch, counters, result |
| `ParseLoop.ParseLines` | libs/patch.py:278-620 | The imperative parse loop computes exactly the result of the line-by-line state machine, for every input |
| `ParserProofs.StepKeeps` | libs/patch.py:351-578 | Every step keeps the mode invariant and never exceeds declared counts in a body; one mode stays one mode if and only if the line is not the trap of an empty hunk |
| `ParserProofs.RunKeeps` | libs/patch.py:351-578 | The invariant of modes, counters and names holds at every loop head of every input |
| `ParserProofs.ModesExact` | libs/patch.py:329-337 | Exactly one of the six flags is set at every loop head if and only if no line falls into the trap |
| `ParserProofs.NoTrapWithoutEmptyHead` | libs/patch.py:420-445 | No input without a `0,0` start line reaches the trap |
| `ParserProofs.ParseModes` | libs/patch.py:329-578 | For a whole parse: one mode throughout if and only if never trapped, and always so when no start line declares both counts 0 |
| `ParserProofs.DeadBranches` | libs/patch.py:491-556 | On every input the double target, the name block without a source, and the broken start line with hunks present are never taken |
| `EmptyHead.TwoModes` | libs/patch.py:420-445 | For every two names and every line that cannot stand in a body: after a `0,0` start line two flags are set at once and the one hunk is stored twice |
| `ParserSound.StepSound` | libs/patch.py:351-578 | Every error-free step keeps all stored patches complete and all stored hunks valid with the declared counts |
| `ParserSound.ParseSound` | libs/patch.py:278-620 | A successful parse has at least one patch; every patch has source, target and hunks; no hunk is invalid, and each body has exactly linessrc and linestgt lines on its sides |
| `ParserSound.SealedExact` | libs/patch.py:402-445 | The hunks a parse can store are exactly the valid, non-empty ones that agree with their headers and do not end with a `\` line after another line |
| `ParserCounts.EndsExact` | libs/patch.py:405-411 | After a successful parse the line end statistics of every patch count the line ends of its body lines |
| `ParserCounts.StepWarns` | libs/patch.py:396-441 | One warning for each empty line inside a body, and one for each hunk completed in a patch with inconsistent line ends |
| `ParserErrors.StepErrors` | libs/patch.py:351-578 | The errors of one line: a body line that is unknown or one too many, a name line without a name, no target behind a source, no hunk behind the names; nothing else is one |
| `ParserErrors.BodyFaults` | libs/patch.py:399-433 | A hunk that fails is stored as invalid, with the line too many or without the unknown one |
| `ParserErrors.FinishExact` | libs/patch.py:580-620 | The errors at the end of the stream, the patches stored, and when the parse succeeds |
| `Pipeline.ParsedPatchApplies` | libs/patch.py:881-970 | Every patch of a successful parse, where the scan accepts it on ordered hunks, has its windows in the file and is written as the replacement if and only if no line outside the windows comes after a hunk with a `\` line |
| `Pipeline.ParsedPatchReverts` | libs/patch.py:979-997 | Every patch of a successful parse reverts if and only if it had matched in full and lost nothing |
| `Pipeline.PrintAppliesAlike` | libs/patch.py:1133-1142 | Applying the print of a patch, read again, gives the same file, up to line ends |
| `Dumper.PrintedSide` | libs/patch.py:1139-1140 | Printing the lines of a body keeps both its sides |
| `Dumper.ReprintedSealed` | libs/patch.py:1133-1140 | A printed hunk still has the declared counts, reached at its last line and not before |
| `RoundTrip.BodyRun` | libs/patch.py:392-457 | Reading the rest of a stored body from the middle of it ends with exactly this hunk stored |
| `RoundTrip.HunkRun` | libs/patch.py:1137-1140 | Parsing the print of one hunk stores that hunk |
| `RoundTrip.PatchRun` | libs/patch.py:1133-1140 | Parsing the print of one patch closes the patch before it and rebuilds this one |
| `RoundTrip.PrintThenParse` | libs/patch.py:1133-1142 | For every printable list of patches, parsing the printed lines succeeds without errors and rebuilds names, headers, hunk numbers and bodies |
| `RoundTrip.PrintIsFixedPoint` | libs/patch.py:1133-1142 | Printing what was read from a print gives the same print, line for line |
| `Streams.ParsedIsPrintable` | libs/patch.py:278-620 | Whatever a successful parse of a stream stores can be printed and read again |
| `Streams.ParsePrintParse` | libs/patch.py:278-620 | For every stream whose parse succeeds the print is a stream, and parsing it succeeds too and gives the print of the same patches |
| `Streams.DumpIsStream` | libs/patch.py:1133-1142 | The printed lines are the lines of a stream if and only if no name and no line of a header or body has a line feed inside |
| `Streams.PrintThenReread` | libs/patch.py:1133-1142 | For every printable list of patches: both facts together, so that what is read back from the stream is what was printed |
| `Streams.PrintThenParseSame` | libs/patch.py:1133-1142 | For patches of complete lines, parsing the print gives back the very same patches, but for descriptions and line end statistics; the print is a stream under the condition above |
| `DiffStat.BarFits` | libs/patch.py:779-790 | Both bars of a file together fit the histogram width, and a bar is non-empty if and only if its count is |
| `DiffStat.HistogramBound` | libs/patch.py:747-793 | The same for every row of the report of every patch set |
| `DiffStat.TallyIsGrowth` | libs/patch.py:763-773 | For stored hunks insertions minus deletions is the sum of linestgt - linessrc |
| `DiffStat.ReportIsGrowth` | libs/patch.py:763-795 | The same for the totals of every soundly parsed patch set |
| `DiffCounts.ReportExact` | libs/patch.py:747-795 | The report in terms of body lines: counts by sign, the size of the added text less that of the removed text, and bars that are these counts or their share of the width |
| `DiffCounts.RowFits` | libs/patch.py:775-792 | A row with all its columns fits 80 characters, or the bars have the minimum of two |
| `DiffCounts.ColumnsTight` | libs/patch.py:771-774 | The columns are no wider than the longest name and the greatest number of changes |
| `PatchSets.SetReversedTwice` | libs/patch.py:979-991 | Reversing a whole set twice gives it back |
| `PatchSets.SetReversedExchanges` | libs/patch.py:979-991 | Reversing exchanges starts, counts and sides of every hunk and leaves names, headers and statistics |
| `PatchSets.FlipLines` | libs/patch.py:984-991 | The in-place loop over a body flips every sign and nothing else |
| `PatchSets.ReverseHunks` | libs/patch.py:981-991 | The loop over the hunks swaps starts and counts and flips every body |
| `PatchSets.PrintPatch` | libs/patch.py:1134-1140 | The lines printed for one patch |
| `PatchSets.CountPatch` | libs/patch.py:763-770 | The tally of one patch: insertions, deletions, bytes |
| `PatchSets.PatchSet.Parse` | libs/patch.py:278-620 | Fills the object from a stream: result, patches and counters as the state machine says, old patches kept |
| `PatchSets.PatchSet.Reverse` | libs/patch.py:979-991 | Reverses every hunk of the set in place; file names and counters stay |
| `PatchSets.PatchSet.DumpLines` | libs/patch.py:1133-1142 | Prints the whole set, in order |
| `PatchSets.PatchSet.CountChanges` | libs/patch.py:747-795 | Computes the rows, totals and bars of the report |
| `ServerProofs.ContextOnce` | src/remote_device/RemoteDispatcherServer.cpp:45-75 | Over every run the context handle, once set, never changes |
| `ServerProofs.SendAssertion` | src/remote_device/RemoteDispatcher.cpp:108-121 | Every send of every run, reader events included, satisfies the assertion on the context handle |
| `ServerProofs.OnlyAdmitted` | src/remote_device/RemoteDispatcher.cpp:45-72 | A message that does not pass the gate changes nothing but, on a first supported request, the context, and is answered with context or error messages only |
| `ServerProofs.OneContext` | src/remote_device/RemoteDispatcher.cpp:45-72 | All messages that reach the handler in a run came with one and the same non-empty handle, and everything sent from then on carries it |
| `ServerProofs.StepBalance` | src/remote_device/ServerMessageHandler.cpp:95-310 | Every step keeps requests taken in equal to answers sent plus requests in flight, for each of five kinds |
| `ServerProofs.EveryRequestAnswered` | src/remote_device/ServerMessageHandler.cpp:95-384 | On every run and for connect, disconnect, transmit, PACE and PIN alike: admitted equals answered plus in flight |
| `ServerAnswers.AnswersExact` | src/remote_device/ServerMessageHandler.cpp:68-459 | On every run, for each of the eight messages a server can send: at which events exactly it is sent, and with which slot, bytes, status and minor |
| `ServerAnswers.StatusesInOrder` | src/remote_device/ServerMessageHandler.cpp:81-91 | Asked for all readers, one status for each basic reader, in their order |
| `ServerAnswers.CommandsOrdered` | src/remote_device/ServerMessageHandler.cpp:202-233 | On every run each command in flight carries the bytes of an admitted message that came before, for a slot connected then |
| `ServerAnswers.AnsweredFromCard` | src/remote_device/ServerMessageHandler.cpp:202-376 | On every run an answer without an error carries exactly the bytes of the card, for a command with the bytes of an admitted message |
| `ServerAnswers.StartedBefore` | src/remote_device/ServerMessageHandler.cpp:95-310 | On every run each connect and each dialog under way was started by an admitted message that none of the refusals applied to |
| `ServerAnswers.ErrorsBalance` | src/remote_device/ServerMessageHandler.cpp:397-410 | On every run each unexpected message is answered by one error, or its error is still queued |
| `ServerTable.OneHandlePerReader` | src/remote_device/ServerMessageHandler.cpp:95-150 | On every run there is at most one handle per reader throughout if and only if every connect that succeeds finds its reader without a handle |
| `ServerTable.GrantExact` | src/remote_device/ServerMessageHandler.cpp:133-150 | A granted connect keeps one handle per reader if and only if the reader had none |
| `ServerTable.LossHolds` | src/remote_device/ServerMessageHandler.cpp:440-453 | When a reader has at most one entry, the loss of its card takes out exactly the entries of that reader |
| `ServerTable.LossLeaves` | src/remote_device/ServerMessageHandler.cpp:440-453 | When it has several, one of them stays |
| `ServerTable.NameMeansHandle` | src/remote_device/ServerMessageHandler.cpp:153-178 | A handle resolves to itself; a reader name resolves to the handle of its slot if and only if it is not itself another key |
| `ServerTable.ByNameOrByHandle` | src/remote_device/ServerMessageHandler.cpp:181-310 | Transmit, disconnect and PACE by reader name act as by handle; modifying the PIN by name is refused as an invalid slot handle |
| `ServerTable.StepTable` | src/remote_device/ServerMessageHandler.cpp:95-199 | After one event a slot is in the table if and only if it was granted, or was there and is not released, provided a card that goes finds at most one entry |
| `ServerTable.TableExact` | src/remote_device/ServerMessageHandler.cpp:95-453 | On every run: the table holds throughout exactly the slots granted and not released since by disconnect, card loss or close, if and only if every card that goes finds at most one entry of its reader |
| `ServerTable.ApartIsExact` | src/remote_device/ServerMessageHandler.cpp:95-453 | In every run without overlapping connects for one reader both hold: one handle per reader and an exact table |
| `ServerTable.OverlapLeavesHandle` | src/remote_device/ServerMessageHandler.cpp:116-150 | A concrete run with two overlapping connects after which one handle outlives the card |
| `ServerSessions.ServerSession.SlotHandleForReaderName` | src/remote_device/ServerMessageHandler.cpp:153-164 | The loop finds the first handle of the reader in key order, or none |
| `ServerSessions.ServerSession.CreateAndSendContext` | src/remote_device/RemoteDispatcherServer.cpp:45-75 | Establishes the context once, or refuses and leaves it |
| `ServerSessions.ServerSession.OnReceived` | src/remote_device/RemoteDispatcher.cpp:45-72 | Gate and dispatch of every incoming message: new state and messages sent |
| `ServerSessions.ServerSession.OnRemoteMessage` | src/remote_device/ServerMessageHandler.cpp:387-437 | Dispatch by message type: new state and messages sent |
| `ServerSessions.ServerSession.HandleIfdGetStatus` | src/remote_device/ServerMessageHandler.cpp:68-92 | One status for a named slot, or one for each basic reader, with capabilities, card and command length |
| `ServerSessions.ServerSession.HandleIfdConnect` | src/remote_device/ServerMessageHandler.cpp:95-130 | The three refusals of a connect, or the command that is started |
| `ServerSessions.ServerSession.HandleIfdDisconnect` | src/remote_device/ServerMessageHandler.cpp:181-199 | Removes the resolved handle or refuses |
| `ServerSessions.ServerSession.HandleIfdTransmit` | src/remote_device/ServerMessageHandler.cpp:202-233 | Starts a command for the resolved handle or refuses |
| `ServerSessions.ServerSession.HandleIfdEstablishPaceChannel` | src/remote_device/ServerMessageHandler.cpp:236-263 | Starts a dialog for the resolved handle, or one of two refusals |
| `ServerSessions.ServerSession.HandleIfdModifyPin` | src/remote_device/ServerMessageHandler.cpp:288-310 | Starts a dialog for a handle as given, or one of two refusals in their order |
| `ServerSessions.ServerSession.OnCreateCardConnectionDone` | src/remote_device/ServerMessageHandler.cpp:133-150 | Completes a connect: a new entry and its handle, or a failure |
| `ServerSessions.ServerSession.SendEstablishPaceChannelResponse` | src/remote_device/ServerMessageHandler.cpp:266-285 | Answers a PACE dialog: two failures, or success |
| `ServerSessions.ServerSession.SendModifyPinResponse` | src/remote_device/ServerMessageHandler.cpp:313-350 | Answers a PIN dialog: the minor for each of the status codes |
| `ServerSessions.ServerSession.OnReaderChanged` | src/remote_device/ServerMessageHandler.cpp:440-453 | Removes the connection of a reader without eID card and reports the status |
| `ClientProofs.FinishExact` | src/remote_device/RemoteConnectorImpl.cpp:232-279 | Finishing a connection keeps the accounts if and only if no other connection is being built for an equal descriptor |
| `ClientProofs.TakeExact` | src/remote_device/RemoteConnectorImpl.cpp:289-311 | A request is refused as invalid, refused for its API level, or becomes a connection to build, in this order |
| `ClientProofs.DeliverFinds` | src/remote_device/RemoteClientImpl.cpp:76-91 | With the accounts in order every outcome finds an entry, and it is the entry of its own request |
| `ClientProofs.StepKeeps` | src/remote_device/RemoteConnectorImpl.cpp:232-311 | Every step of either thread keeps the accounts |
| `ClientProofs.RunAccounts` | src/remote_device/RemoteClientImpl.cpp:209-231 | In every interleaving without overlapping requests the client's pending list equals queued requests plus connections being built plus outcomes in transit, and every answer is that of its own request |
| `ClientProofs.AnsweredOrWaiting` | src/remote_device/RemoteClientImpl.cpp:76-178 | On every run at all, each request is either waiting or has been answered once |
| `ClientProofs.EveryRequestAnswered` | src/remote_device/RemoteClientImpl.cpp:76-231 | When both threads are at rest every request has been answered exactly once, by its own outcome |
| `ClientProofs.SecondRequestLost` | src/remote_device/RemoteConnectorImpl.cpp:232-250 | A concrete run with two requests for one device after which one is never answered |
| `ClientLosses.EveryRunAccounts` | src/remote_device/RemoteClientImpl.cpp:76-231 | On every run, overlapping requests included, and for every device: the client waits for the requests queued, being built or coming back, and for exactly those that finished connections dropped beside themselves |
| `ClientLosses.EveryOutcomeFinds` | src/remote_device/RemoteClientImpl.cpp:76-91 | On every run every delivered outcome finds an entry: the assertion in the client never fails |
| `ClientLosses.AllAnsweredExact` | src/remote_device/RemoteConnectorImpl.cpp:232-279 | When both threads are at rest every request has been answered, by some outcome, if and only if no finished connection had another one of an equal descriptor beside it |
| `ClientOrder.RunOrder` | src/remote_device/RemoteClientImpl.cpp:76-178 | On every run and for every device, answers are given in the order of asking, each to a request for the device of its outcome |
| `ClientOrder.OwnExact` | src/remote_device/RemoteClientImpl.cpp:76-178 | On every run each answered request got its own outcome if and only if for every device the outcomes came back in the order of asking with none passed over |
| `ClientOrder.OutcomesSwapped` | src/remote_device/RemoteClientImpl.cpp:76-178 | A concrete run without any loss in which two requests for one device at two addresses get the outcomes of each other |
| `Strikes.OutcomeCounts` | src/remote_device/RemoteClientImpl.cpp:119-178 | Code by code: `Refused` and `NoSupportedApiLevel` add one or complete the seventh and remove the certificate; every other outcome leaves 0 and removes nothing; other devices are not touched |
| `Strikes.CounterIsRun` | src/remote_device/RemoteClientImpl.cpp:119-178 | For any interleaving of devices each counter is the length modulo seven of that device's trailing run of these two codes |
| `Strikes.RemovedAtEverySeventh` | src/remote_device/RemoteClientImpl.cpp:148-175 | A certificate is removed exactly by an outcome of these two codes that completes another seven in a row |
| `Strikes.RunCounts` | src/remote_device/RemoteClientImpl.cpp:119-178 | On every run counters and removed certificates are those of the answers given |
| `RemoteClients.RemoteClient.MapToAndTake` | src/remote_device/RemoteClientImpl.cpp:76-91 | Takes the first equivalent entry out of the list, or none |
| `RemoteClients.RemoteClient.OnRemoteDispatcherCreated` | src/remote_device/RemoteClientImpl.cpp:119-135 | Resets the counter, takes the entry and notes the connected device |
| `RemoteClients.RemoteClient.OnRemoteDispatcherError` | src/remote_device/RemoteClientImpl.cpp:138-178 | Takes the entry, counts or resets, and removes the certificate at the seventh strike |
| `RemoteClients.RemoteConnector.RemoveRequest` | src/remote_device/RemoteConnectorImpl.cpp:232-250 | The loop drops every request with an equal descriptor and no other |
| `RemoteClients.RemoteConnector.OnConnectRequest` | src/remote_device/RemoteConnectorImpl.cpp:289-311 | Refuses at once for one of two reasons, or starts a connection |
| `RemoteClients.RemoteConnector.OnFinished` | src/remote_device/RemoteConnectorImpl.cpp:253-279 | Drops the requests of the descriptor and sends the outcome on |
| `DeviceListProofs.VerdictExact` | src/remote_device/RemoteDeviceList.cpp:146-151 | For gaps and timeouts below a day the timer's verdict about an entry is right if and only if announcement and threshold fall on the same day |
| `DeviceListProofs.FreshDeviceDropped` | src/remote_device/RemoteDeviceList.cpp:146-151 | A device announced just after midnight is dropped at once |
| `DeviceListProofs.RunTidy` | src/remote_device/RemoteDeviceList.cpp:109-162 | On every run entries are pairwise non-equivalent and the timer runs whenever the list is non-empty |
| `DeviceListProofs.TimerChanges` | src/remote_device/RemoteDeviceList.cpp:109-162 | The timer is started exactly by the announcement of a device not listed, and stopped exactly by a tick that leaves nothing |
| `DeviceSignals.SlotNeverHolds` | src/remote_device/RemoteDeviceList.cpp:148-155 | The slot passed on as vanished never holds the removed device: it holds the next one, or is destroyed exactly when the last one was removed |
| `DeviceSignals.SignalsExact` | src/remote_device/RemoteDeviceList.cpp:109-162 | A step that is not a clear signals every device exactly when it enters or leaves the list, if and only if it is not a tick that finds a stale entry in front of another one; a destroyed slot counts as what it held last |
| `DeviceSignals.RunTells` | src/remote_device/RemoteDeviceList.cpp:109-162 | The same over every run |
| `DeviceSignals.RunSignals` | src/remote_device/RemoteDeviceList.cpp:109-162 | On every run every device appears and vanishes in turn between clears, and is listed exactly when it appeared last, if and only if no tick finds a stale entry in front of another one |
| `DeviceSignals.WrongDeviceVanishes` | src/remote_device/RemoteDeviceList.cpp:144-162 | A concrete run: the silent device leaves without a signal, the one behind it is reported, stays listed and is reported again |
| `DeviceListProofs.HistoryExact` | src/remote_device/RemoteDeviceList.cpp:109-162 | On every run with ticks in order and less than a day behind the announcements: the list is right about a device after every tick if and only if no tick finds it listed with the threshold on another day than the announcement |
| `DeviceListProofs.ListIsHistory` | src/remote_device/RemoteDeviceList.cpp:109-162 | While the time of day does not wrap, after every tick the list holds exactly the devices announced since the last clear and no longer ago than the timeout |
| `RemoteDeviceLists.RemoteDeviceList.OnUpdate` | src/remote_device/RemoteDeviceList.cpp:109-129 | Refreshes the entry of an equivalent device, or appends one and starts the timer |
| `RemoteDeviceLists.RemoteDeviceList.OnProcessUnresponsiveRemoteReaders` | src/remote_device/RemoteDeviceList.cpp:144-162 | Removes exactly the stale entries in place, sends for each the slot it had as it reads after the removal, and stops the timer when none is left |
| `DownloadProofs.StepInOrder` | src/file_provider/Downloader.cpp:32-166 | Every step keeps: scheduled requests are those reported, then the open one, then the queue |
| `DownloadProofs.StepKeeps` | src/file_provider/UpdatableFile.cpp:149-328 | Every step, inside signal handlers too, keeps exactly the running files connected and a request behind each of them |
| `DownloadProofs.SignalsInOrder` | src/file_provider/Downloader.cpp:102-166 | On every run the k-th terminal signal belongs to the k-th scheduled request, the queue is empty whenever no reply is current, and a current reply has a request |
| `DownloadProofs.SignalsAnswerReplies` | src/file_provider/Downloader.cpp:102-166 | On every run the k-th signal is a success exactly for a k-th reply with status 200 and the right certificate, "unnecessary" exactly for 304 with it, and a failure otherwise |
| `DownloadEffects.FileChanges` | src/file_provider/UpdatableFile.cpp:149-328 | For every event: which files start or stop running, and whose marker is set or cleared; address and name never change |
| `DownloadEffects.ConnectionChanges` | src/file_provider/UpdatableFile.cpp:149-328 | A file is connected exactly by the start of an update and cut off exactly by its end |
| `DownloadEffects.PhaseChanges` | src/file_provider/UpdatableFile.cpp:149-204 | A signal goes to everybody connected at its start, one after the other, into the slot for a success that reaches its file |
| `DownloadEffects.NewConnectionWaits` | src/file_provider/UpdatableFile.cpp:306-328 | On every run a file that starts an update while a signal is delivered is not reached by that signal |
| `DownloadProofs.RunningIsBacked` | src/file_provider/UpdatableFile.cpp:306-328 | On every run a running update has a pending or current request for its address |
| `DownloadProofs.DirtyIsRetried` | src/file_provider/UpdatableFile.cpp:185-288 | A failed download leaves the marker, and looking up a marked file always leaves a request for it |
| `Downloaders.OnlyEnqueues` | src/file_provider/Downloader.cpp:32-54 | While a reply is current, scheduling any number of downloads only appends to the queue |
| `Downloaders.Downloader.ScheduleDownload` | src/file_provider/Downloader.cpp:32-37 | Enqueues a request and starts it when nothing is under way |
| `Downloaders.Downloader.StartDownloadIfPending` | src/file_provider/Downloader.cpp:40-63 | Takes the first pending request when no reply is current |
| `Downloaders.Downloader.OnNetworkReplyFinished` | src/file_provider/Downloader.cpp:102-166 | Reports the current request once, takes re-entrant requests into the queue, then releases the reply and starts the next one |
| `Downloaders.UpdatableFile.Update` | src/file_provider/UpdatableFile.cpp:306-328 | Starts an update unless one runs or the file has no name: flags, connection and downloader |
| `Downloaders.UpdatableFile.CleanupAfterUpdate` | src/file_provider/UpdatableFile.cpp:149-159 | Cuts the connections, clears the marker unless the download failed, ends the update |
| `Downloaders.UpdatableFile.OnDownloadSuccess` | src/file_provider/UpdatableFile.cpp:162-182 | Handles only its own address; the marker goes even when the file could not be written |
| `Downloaders.UpdatableFile.OnDownloadFailed` | src/file_provider/UpdatableFile.cpp:185-193 | Handles only its own address; the marker stays |
| `Downloaders.UpdatableFile.OnDownloadUnnecessary` | src/file_provider/UpdatableFile.cpp:196-204 | Handles only its own address; the marker goes |
| `Downloaders.UpdatableFile.LookupPath` | src/file_provider/UpdatableFile.cpp:263-288 | The path by precedence of cache, bundle and default; a marked file is being updated afterwards |
| `SharedInstances.StepKeeps` | src/global/Env.h:263-282 | Every step of every thread keeps lock, types, registration and uniqueness |
| `SharedInstances.ProbeExact` | src/global/Env.h:273-274 | While no registration is under way a probe fails if and only if no object of the class is alive |
| `SharedInstances.SharedIsUnique` | src/global/Env.h:252-283 | For any number of threads, in every interleaving, all strong references alive for one class point to one object |
| `SharedInstances.CreatedOnlyWhenNone` | src/global/Env.h:272-280 | An object is created only when none of its class is alive |
| `SharedInstances.LockExcludes` | src/global/Env.h:266-272 | Nobody reads the map while another thread may change it, and at most one thread may |
| `SharedInstances.ReturnsTheShared` | src/global/Env.h:263-282 | A call that returns hands out an object of its class, the one that is alive |
| `SharedInstances.HeldExact` | src/global/Env.h:263-282 | Strong references come from returning calls and copies, one each, and go one by one |
| `SharedInstances.DiesWithLast` | src/global/Env.h:263-282 | An object dies exactly when its last reference is dropped and no call carries one |
| `LogProofs.RunKeeps` | src/global/LogHandler.cpp:302-359 | On every run the file continues with exactly the messages since the last reset, and the window lists the run of consecutive messages around the first critical one |
| `LogProofs.WindowContiguous` | src/global/LogHandler.cpp:342-359 | Each window entry starts in the file where the one before it ends |
| `LogProofs.FirstCriticalStays` | src/global/LogHandler.cpp:349-358 | The first critical message since a reset is in the window from then on; the window never exceeds its capacity |
| `LogProofs.WindowReadExact` | src/global/LogHandler.cpp:151-163 | Reading the window gives a prefix of the retained messages, and all of them if and only if the last one is as long in the file as it is as text |
| `LogProofs.CriticalCut` | src/global/LogHandler.cpp:151-163 | A single critical message with one two-byte letter: the window read back misses its line break, for every capacity |
| `LogProofs.BacklogIsHistory` | src/global/LogHandler.cpp:144-148 | The backlog is everything logged since the last reset |
| `LogHandlers.LogHandler.HandleLogWindow` | src/global/LogHandler.cpp:342-359 | Freezes, marks and appends as specified |
| `LogHandlers.LogHandler.ReadLogFile` | src/global/LogHandler.cpp:122-141 | Returns the asked part and puts the position back |
| `LogHandlers.LogHandler.GetCriticalLogWindow` | src/global/LogHandler.cpp:151-163 | The part of the file from the first to the last window entry; the state stays |
| `HttpHeaders.PiecesRun` | src/network/HttpRequest.cpp:187-201 | One header in any pieces is put together after what was complete before is stored |
| `HttpHeaders.ChunkingIndependent` | src/network/HttpRequest.cpp:177-229 | For every list of headers and every way of cutting names and values, the final map is that of the merged list: it depends on the headers alone |
| `HttpHeaders.MergedExact` | src/network/HttpRequest.cpp:220-229 | Merging leaves a list alone if and only if every header has a value |
| `HttpHeaders.HeadersAreFolded` | src/network/HttpRequest.cpp:177-229 | With a value in every header the map is the list folded by lower-case name, the last value winning |
| `HttpHeaders.FoldedExact` | src/network/HttpRequest.cpp:177-229 | When no header without a value is followed by another of its name, as when all names differ, the final map is the fold by lower-case name if and only if every header has a value |
| `HttpHeaders.EmptyValueMerges` | src/network/HttpRequest.cpp:220-229 | A header without a value is lost and its name stands before the next one, for all names |
| `HttpHeaders.SameEntry` | src/network/HttpRequest.cpp:220-229 | Two names are one entry if and only if they differ in nothing but the case of letters |
| `HttpHeaders.StoredLower` | src/network/HttpRequest.cpp:220-229 | Whatever the callbacks are, no stored name has an upper-case letter |

## Left out

- Finding, backing up, moving and deleting files, permissions and directories in `libs/patch.py`; a file is its list of lines, and whether a backup exists is a parameter.
- Detection of the patch type and normalisation of file names after parsing; log output; option parsing; fetching a patch from a URL.
- PatchSets.PatchSet.Reverse: hunks and patches are values and a list of them is replaced element by element. The hunk that a `0,0` start line stores twice is one object in the program, which flips it twice; here each copy is flipped once.
- Applier.SecondApply: start lines that match neither the counts nor the convention for a count of 0 are covered only by `Matcher.MatchExact`.
- RoundTrip.PrintThenParse: the description of a hunk is not printed, and the statistics of line ends of the reread patches are not compared, because the print gives every line a `\n`.
- Card commands, PIN dialogs and queued calls are completion events; the failures of a card command are one failure.
- The map of card connections is the list of its entries in key order; the position of a new random key is a parameter, and a new handle is taken to be in no use.
- ServerSessions.ServerSession.HandleIfdTransmit: stopping the local secure messaging before a secured command is not modelled; the command itself is.
- The names remembered for paired devices.
- A null list entry given to `establishConnection`, which is answered at once and changes nothing, and the removal of closed dispatchers from the connected devices.
- Sockets, TLS checks, pairing and timers of a connection: one outcome per started connection, at any time.
- RemoteDeviceLists.RemoteDeviceList.OnProcessUnresponsiveRemoteReaders: entries are values, so an entry changed through another reference is not modelled; neither are listeners that change the list while it is iterated over.
- Downloaders.UpdatableFile.OnDownloadSuccess: handlers that run inside the slot, between the signal of the file and the clean-up, are in the event model of `Downloads` and not in this method.
- Downloaders.Downloader.OnNetworkReplyFinished: the certificate check and the status code are parameters; the branch without a current request is shown not to occur by `DownloadProofs.SignalsInOrder`.
- Writing the downloaded file, cache timestamps, and a marker file that cannot be removed.
- Threads in `Env::getShared` are steps of a state machine over values, since a Dafny method runs alone; constructors that call back into `getShared`, and the mocks and counters of debug builds.
- LogProofs.RunKeeps: changing the capacity of the window, closing and reopening the log file, and formatting a message; the file is open, the capacity is constant and at least 1.
- The rest of an HTTP request (method, URL, body, upgrade) and the parser that calls back; field names are not empty, which the grammar guarantees.
- Configuration and token parsing, settings, user interface, diagnosis, tables of enumerations and translations.
