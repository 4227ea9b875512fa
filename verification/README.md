# localmelo: verified models of its self-contained cores

This project states and proves, in Dafny 4.11, what eight parts of localmelo promise. Each core file is modelled in its
own form: objects that change are classes, loops are loops, and each is proved against a specification function or
state machine whose properties are then proved for all inputs, runs and interleavings.

- **The progress line** (`support/progress_line.py`). Callers, `close` and one writer thread share a queue. Every
  locked section, every take from the queue and every pass is one event, and threads interleave between events in any
  way (`ProgressLine`). Proved over all runs: the order of records (`ProgressRuns`), which of them are delivered and
  that the writer ends (`ProgressClosing`), and what the terminal shows (`Terminal`, `ProgressScreen`). Proved over all
  payloads: the fitting of the line to a width (`LineText`, `LineParts`), that it holds no control character
  (`LinePlain`), and so what a run that draws payloads shows (`LineOnScreen`).
- **The settings file** (`support/config.py`). A printer of TOML values with the reader it has to satisfy (TOML v1.0.0,
  sections "Keys", "String", "Integer", "Boolean", "Array", "Inline Table", "Keyval Pairs" and "Table"), sparse saving
  and default-filled loading, and overrides that must never reach the file (`Toml`, `Settings`, `SettingsText`,
  `SettingsFile`, `SettingsSave`, `SettingsStore`), with the JSON spelling of the two backends (`JsonText`).
- **The terminal mark** (`scripts/make_terminal_mark.py`). Undoing the filters of section 6 of RFC 2083 in place,
  a worklist flood fill, and exact areas on a grid that does not meet the pixels (`Png`, `Flood`, `Areas`,
  `HeadSampler`).
- **The paired test** (`scripts/resume_ab.py`). The exact binomial tail with a bound for every pair of counts, and an
  aggregation that no order of the probes changes (`McNemar`, `Decide`, `Sorting`).
- **The documentation build** (`scripts/build_docs.py`). Link rewriting that has to keep where a link leads, the links
  that are kept, and fresh heading ids (`DocsPaths`, `DocsLinks`, `DocsKept`, `Headings`).
- **The shell blocks** (`scripts/usage_blocks.py`). A lexer and a stateful colouring that should lose nothing, read
  back row by row, and the text of the Copy button (`Tokenizer`, `ShellRows`, `ShellBlocks`).
- **Promoting pictures** (`scripts/art_pack.py`). What a copy into the checkout leaves, reports and does again
  (`ArtPromotion`).
- **Rebuilding a trace** (`support/procedures.py`). Steps and reflections put back in order from a run's history
  (`TraceRebuild`, `TraceRows`).

`Options`, `Numerals`, `Reals` and `Trimming` hold what several of them share.

Where a promise fails for some input, the code is kept and the exact condition under which it holds is proved:

- A record asked for between the end of the writer's drain and its closing test, together with a `close` there, is
  accepted and never written (`ProgressRuns.RecordLostInTheGap`); delivery is complete exactly when no record is asked
  for in that gap while the object is open (`ProgressClosing.DeliveryIsDecidedInTheGap`). A text refused after `close`
  while the line is still up is written onto the line's row (`ProgressScreen.LateTextMeetsTheLine`,
  `DirectWriteIsFaithfulIff`).
- The bare-key test of the settings printer ends in `$`, which also stands before a final newline: such a key is
  written bare and cannot be read (`Toml.PrintThenParse`, `NewlineKeyIsLost`).
- `save` says that it keeps prices as written so that a save loses nothing; a price that is not a table is dropped
  (`Settings.LoadNormalizesOnce`, `NumberPriceIsLost`). A backend that is a table is loaded, and saved as a JSON object,
  which no TOML reader takes (`SettingsFile.SavedFileLoadsAsItself`, `TableBackendIsLost`).
- A rewritten link is the bare path to an output: a name with a percent escape, a question mark, a hash, a scheme in
  front, a blank or control character at its start, or a tab or line end anywhere leads elsewhere
  (`DocsLinks.RewritingKeepsMeaning`, `EscapedNameStrays`, `MarkedNameStrays`, `SchemedNameStrays`). A relative link to
  a file outside the manifest is kept as it is, and leads elsewhere unless page and output have the same directory
  from as many levels up as the link goes (`DocsKept.UnlistedLinksLeadIff`).
- A row with other whitespace, or with an open double quote before a final backslash, loses characters in the lexer
  (`Tokenizer.TokensJoinBack`).
- A file of the moves folder that has the name of a staged folder counts as kept and stays
  (`ArtPromotion.MovesAreReplacedIff`).

`dafny verify dfyconfig.toml` checks everything. Names are those of the source, in Dafny's spelling; strings are
sequences of characters, numbers are exact.

## Model

| member | source | states |
|---|---|---|
| ProgressLine.Display.AskSection | support/progress_line.py:776-790 | The locked section of a request: it is refused before the start and after the close, else numbered, queued, and waited for unless writes are stalled or the writer itself asks; the whole object becomes the protocol's next state. |
| ProgressLine.Display.WaitSection | support/progress_line.py:791-797 | A waiting caller leaves exactly when its request is done, writes are known to stall, or its time is up, and the last of these marks the writes as stalled. |
| ProgressLine.Display.StartSection | support/progress_line.py:697-704 | A writer is launched once, and never after a close; everything else stays. |
| ProgressLine.Display.CloseSection | support/progress_line.py:725-729 | The first close queues one stop under the next number, a later one does nothing. |
| ProgressLine.Display.WriteDirectly | support/progress_line.py:737-740 | A refused text goes to the terminal by its own caller, with a newline. |
| ProgressLine.Display.GetSection | support/progress_line.py:801-809 | The writer takes requests one at a time, in order, and its batch ends only when the queue is empty. |
| ProgressLine.Display.DecideSection | support/progress_line.py:809-810 | The pass closes if and only if the object is closed or the batch holds a stop. |
| ProgressLine.Display.ComposeText | support/progress_line.py:837-862 | The text of one pass, put together branch by branch, is the one the screen theorems are about. |
| ProgressLine.Display.CarryOut | support/progress_line.py:827-871 | One pass in each of its outcomes (written, failed after some characters, raised): what the object and the terminal hold afterwards. |
| ProgressLine.Display.ShutSection | support/progress_line.py:816-819 | A failed pass closes the object and ends the writer. |
| ProgressLine.Display.ReportSection | support/progress_line.py:820-825 | The done number becomes the largest of its old value and the batch's numbers, and the stall is over. |
| ProgressRuns.RecordsComeInOrder | support/progress_line.py:715-825 | In every interleaving of callers, close and writer: requests are numbered in the order asked, those carried are a prefix of those asked, the records written are a prefix of the accepted ones in that order (so none twice), and the done number never passes a request not handed to the pass. |
| ProgressRuns.EveryRunGrows | support/progress_line.py:776-871 | Along every run, from any point of it, the done number never falls, and what was asked, carried and written is only added to. |
| ProgressRuns.ReportKeepsOrder | support/progress_line.py:820-823 | A report makes the done number exactly the count of requests carried. |
| ProgressRuns.WokenCallerIsServed | support/progress_line.py:791-797 | A caller woken with no stall known finds its request and all before it carried, and unless a pass failed every record up to its own is written. |
| ProgressRuns.LostAreQueued | support/progress_line.py:799-825 | When the writer ends without a failure, the records never written are exactly those still queued. |
| ProgressRuns.QueueIsFrozen | support/progress_line.py:776-825 | After the closing test has said to close, no run changes the queue any more. |
| ProgressClosing.GapTakes | support/progress_line.py:776-811 | Between the end of a batch and the closing test, whatever callers and close do, the queue takes exactly the records asked for before the object is closed. |
| ProgressClosing.DeliveryIsDecidedInTheGap | support/progress_line.py:806-811 | A run that ends without a failure writes every accepted record if and only if no record is asked for, the object still open, between the take that ended its last batch and the closing test after it: a condition on the events alone. |
| ProgressClosing.EveryEndHasAGap | support/progress_line.py:799-825 | Every run that ends without a failure has such a gap, so that condition decides the delivery of every one of them. |
| ProgressClosing.TurnsAreBounded | support/progress_line.py:725-825 | From wherever a run has closed the object, no run gives the writer more turns than a count read off its place, at most the requests queued and seven; none is left exactly when it has ended. |
| ProgressClosing.BoundIsReached | support/progress_line.py:799-825 | That count is the best one: from every such place some run takes exactly so many turns and ends. |
| ProgressClosing.WriterEnds | support/progress_line.py:725-825 | From wherever a run has closed the object: after as many rounds as there are requests queued and seven, each a turn of the writer among anything callers and close do, the writer has ended. |
| ProgressClosing.WriterIsNeverStuck | support/progress_line.py:799-825 | A writer that was started always has a turn to take until it has ended, and none after. |
| ProgressClosing.RoundsGoOn | support/progress_line.py:799-825 | So such rounds can always go on: there are any number of them from every state with a writer. |
| ProgressRuns.StopInTheBatchLosesNothing | support/progress_line.py:809-825 | If the batch of the closing pass holds the stop itself, every accepted record is written. |
| ProgressRuns.RecordLostInTheGap | support/progress_line.py:808-811 | Without that, a record asked for together with a close between the drain and the closing test is accepted and never written: a run of eight events. |
| ProgressScreen.PassShows | support/progress_line.py:827-871 | A written pass in the foreground puts each record on rows of its own above the line and leaves the line up with its new text, or nothing when it closes. |
| ProgressScreen.SkippedRedrawIsUnseen | support/progress_line.py:857-859 | Leaving out the redraw of an unchanged line shows the same screen as making it. |
| ProgressScreen.PlainRecordsAreRows | support/progress_line.py:837-841 | Records of printable characters become finished rows as they are, one each. |
| ProgressScreen.ScreenIsRecordsAndLine | support/progress_line.py:827-871 | Over every run in the foreground without a failed write, the finished rows are exactly the texts written above the line so far, and the current row is the last line if it is up, else empty. |
| ProgressScreen.DirectWriteIsFaithfulIff | support/progress_line.py:737-740 | A text its own caller writes keeps the screen faithful if and only if no line, or an empty one, is up. |
| ProgressScreen.LateTextMeetsTheLine | support/progress_line.py:725-740 | A run of eight events that leaves a line up and a text refused, whose direct write is not faithful: the text lands on the line's row. |
| ProgressScreen.ClosingLeavesTheRowEmpty | support/progress_line.py:842-845 | A closing pass that is written leaves the row empty and the line down. |
| LineText.CutToWidth | support/progress_line.py:154-169 | The loop over the characters gives the cut text for every width, also a negative one. |
| LineText.CutFits | support/progress_line.py:154-169 | The cut never exceeds the width, leaves alone what fits, keeps the longest front that leaves room for the mark, and is empty only where the mark itself is too wide; for any cells a character may take. |
| LineText.DisplayWidth | support/progress_line.py:149-151 | The cells of a text are the sum of its characters' cells. |
| LineText.FormatLine | support/progress_line.py:459-489 | The loop over the drop order: the text after the counted number of drops, cut to the budget. |
| LineText.DropsAreFewest | support/progress_line.py:482-487 | The loop stops at the fewest drops that fit, or after all of them. |
| LineText.DropNeverWidens | support/progress_line.py:236-255 | Leaving out one more part, whichever and whatever is out already, never widens a line whose merged items have a steps text. |
| LineText.PayloadPartsMerge | support/progress_line.py:291-326 | No payload gives a single past run without its steps text, which is the condition above. |
| LineText.DropCanWidenWithoutSteps | support/progress_line.py:236-255 | Without a steps text a drop can widen the line, so the condition is needed. |
| LineText.LineFits | support/progress_line.py:459-489 | For every payload and width: the line fits max(1, width), the fewest drops that fit are made, and it is cut only when all four drops are too wide. |
| LineText.LineEndsWithThePast | support/progress_line.py:516-528 | The segment format_past composes is the end of the line, whatever is left out of both. |
| LineText.FormatPast | support/progress_line.py:492-539 | The loop over its two drops, and the empty text below level 1: the text after the counted number of drops, cut to the budget. |
| LineText.PastFits | support/progress_line.py:492-539 | For every payload and width its text fits max(1, width); the times go first, then the items, and no more than it takes; it is cut only when it is too wide without both. |
| LineParts.FormatPayload | support/progress_line.py:459-489 | The whole line from a payload, the tool under way and the clock: its parts, the fewest drops, the cut and the colour. |
| LineParts.PayloadLineFits | support/progress_line.py:388-489 | For every payload, tool, clock and width: the line fits max(1, width), the fewest drops that fit are made, and it is cut only when all four drops are too wide. |
| LineParts.BarIsFullIff | support/progress_line.py:329-340 | The bar has ten cells, and all of them are full if and only if the run is complete; before, the percent is 95 at most. |
| LineParts.BarNeverFalls | support/progress_line.py:329-340 | A larger fraction never shows a smaller percent or fewer cells. |
| LinePlain.PrintableIsPlain | support/progress_line.py:179-192 | Printable text holds no control character, whatever it was made of. |
| LinePlain.EveryLineIsPlain | support/progress_line.py:459-489 | Every line, whatever the payload, tool, clock and width, holds no control character: no newline and no erase. |
| LineOnScreen.ScreenOfPayloads | support/progress_line.py:827-871 | So the screen theorem holds of any payloads: over every run in the foreground without a failed write whose passes draw the lines of payloads, the finished rows are the texts written above, and the current row is the last line if it is up, else empty. |
| Toml.PrintThenParse | support/config.py:1753-1788 | Printing any nested value of booleans, integers, strings, lists and string-keyed tables and reading it gives it back if and only if no key at any depth is a bare key and a newline; with such a key the text cannot be read at all. |
| Toml.ValueIsRead | support/config.py:1765-1788 | The same in front of any text that may follow a value. |
| Toml.StringIsRead | support/config.py:1756-1762 | Every string is escaped so that the reader gives it back, control characters and DEL included. |
| Toml.IntIsRead | support/config.py:1768-1769 | Every integer, of any size and sign, is read back. |
| Toml.KeyIsRead | support/config.py:1753-1784 | A printed key is read back, except a bare key with a final newline, which the bare-key test accepts and no reader does. |
| Toml.NewlineKeyIsLost | support/config.py:1753-1784 | A table with such a key, whose text cannot be read. |
| JsonText.JsonIsRead | support/config.py:1756-1762 | A value spelled as JSON, as save spells its two backends, is read as the value if and only if no table in it holds anything; otherwise it cannot be read. |
| Settings.LoadAfterSave | support/config.py:1698-1827 | A configuration as loading leaves it survives saving and loading if and only if its prices are a table of tables. |
| Settings.LoadNormalizesOnce | support/config.py:1638-1750 | For every file, whatever its values: load, save and load again is load, if and only if the prices are a table of tables; across sparse saving, the omlx alias, trimming, loose spellings and folded keyword arguments. |
| Settings.NumberPriceIsLost | support/config.py:1819-1825 | A file with a price that is a number, which is loaded and not saved. |
| Settings.LoadIsLoadable | support/config.py:1638-1751 | Whatever a file holds, what it loads as has every field, settled values, and an alias only beside the backend it stands for. |
| Trimming.StripIsIdempotent | support/config.py:1430-1439 | Trimming twice is trimming once. |
| Settings.LooseIsIdempotent | support/config.py:1664-1680 | A loosely spelled value is read as one that reads as itself. |
| Settings.AliasIsReadBack | support/config.py:1791-1793 | The omlx spelling is written back and read again. |
| Settings.SavedHoldsChanges | support/config.py:1796-1827 | What a setting leaves in the file: its value if it is off its default, and nothing otherwise or if it is no setting. |
| Settings.SavedHoldsBackends | support/config.py:1796-1813 | The two backends are always in the file, as they are spelled. |
| SettingsText.LinesAreRead | support/config.py:1809-1827 | The text of the lines is read as exactly the statements they stand for, if no key in them is a bare key and a newline and no backend is a table that holds something or has one in it, and otherwise not at all. |
| SettingsFile.LinesAssemble | support/config.py:1805-1827 | The statements build exactly the top-level keys, sections and price tables they were written from. |
| SettingsFile.SavedTextIsRead | support/config.py:1796-1827 | The text a configuration is saved as is read as the tables that saving means, or, with a line that cannot be read, not at all. |
| SettingsFile.SavedFileLoadsAsItself | support/config.py:1698-1827 | From text to text, for every file: loaded, saved and loaded again it is itself if and only if its prices are a table of tables and every line is readable, that is, no written key is a bare key and a newline and no backend holds a filled table; it cannot be read exactly when a line is not readable. |
| SettingsFile.TableBackendIsLost | support/config.py:1800-1813 | A file with a table for its backend, whose saved text cannot be read. |
| SettingsFile.NewlinePriceIsLost | support/config.py:1819-1825 | A file with a price under whose key ends in a newline, whose saved text cannot be read. |
| SettingsSave.Lines | support/config.py:1805-1827 | The loops over changed settings, sections and prices build the lines in the order of the file. |
| SettingsStore.ConfigObject.SetKey | support/config.py:1630-1635 | A field is set and nothing else; a key that is no field changes nothing and says so. |
| SettingsStore.ConfigObject.Read | support/config.py:1683-1695 | Over any file, each field is what its table holds, read loosely where it is spelled loosely, else unchanged. |
| SettingsStore.ConfigObject.MigrateExtraBody | support/config.py:1735-1750 | Only the section's extra_body changes, and it takes the flat table only without one of its own. |
| SettingsStore.ConfigObject.TrimText | support/config.py:1430-1439 | Every text field of the backend but its key is trimmed, nothing else. |
| SettingsStore.ConfigObject.ApplyOverrides | support/config.py:1642-1645 | Every override of a field is in place, and what it replaced is remembered with it. |
| SettingsStore.ConfigObject.CopyAsInFile | support/config.py:1649-1661 | The copy has each override still in place put back to what the file had. |
| SettingsStore.LoadConfig | support/config.py:1638-1727 | Loading, phase by phase on the object, is the loaded configuration with the overrides on it. |
| SettingsStore.OverridesNeverPersist | support/config.py:1605-1661 | Over every run of override changes, loads, edits and saves: a save writes each setting as the caller left it if that is not the override in place, else as the file held it at that load. |
| SettingsStore.OverridesLeaveNoTrace | support/config.py:1605-1661 | Loading and saving under any overrides writes what loading and saving under none does. |
| SettingsStore.RunIsConsistent | support/config.py:1605-1661 | Every step keeps the configuration the loaded one with the overrides on it and the edits on top. |
| Png.NearestIsPaeth | scripts/make_terminal_mark.py:84-91 | The least of the three triples is the predictor of section 6.6 of RFC 2083, ties and all. |
| Png.UnfilterLine | scripts/make_terminal_mark.py:75-91 | The loop over the bytes, in place in the line's array, undoes the filter from the bytes already undone and the line above. |
| Png.UnfilterInvertsFilter | scripts/make_terminal_mark.py:75-91 | Undoing any filter type gives the line back, for any line above and any distance between a pixel's bytes. |
| Png.RowsInvertFilterRows | scripts/make_terminal_mark.py:70-93 | An image filtered row by row, each with any type, is undone to the same rows. |
| Png.ReadRows | scripts/make_terminal_mark.py:70-93 | The row loop cuts the data and undoes each row against the one before. |
| Png.ReadingGivesTheImage | scripts/make_terminal_mark.py:69-100 | Any image with four channels, and any opaque one with three, is read back pixel by pixel. |
| Flood.FloodFrom | scripts/make_terminal_mark.py:131-141 | Ends, and gives exactly the points of keep joined to a start by a 4-connected path inside keep: none else, closed, and therefore the least such set. |
| Areas.AreaOverBox | scripts/make_terminal_mark.py:172-177 | The pixels between the rounded corners are all a cell's area has. |
| Areas.WholeArea | scripts/make_terminal_mark.py:172-178 | A cell's pixel shares add up to its width times its height. |
| Areas.GridConserves | scripts/make_terminal_mark.py:168-182 | Over any grid cut from a box, the areas of a region in the cells add up to the number of its pixels. |
| HeadSampler.CountCell | scripts/make_terminal_mark.py:171-182 | The two inner loops give the cell's counts, and stop exactly at a clear pixel inside the head. |
| HeadSampler.CellIsExact | scripts/make_terminal_mark.py:171-182 | "all" is the cell's exact area, "head", "in" and each kind the exact areas of those pixels, and the kinds add up to "in" when no inside pixel is clear. |
| HeadSampler.InsideIsConserved | scripts/make_terminal_mark.py:163-184 | "in" over the 12 by 10 cells is the number of inside pixels of the box. |
| HeadSampler.EveryPixelIsReached | scripts/make_terminal_mark.py:168-173 | No pixel of the box is between the cells. |
| HeadSampler.RowsArePalindromes | scripts/make_terminal_mark.py:185-196 | Every row of the mark reads the same both ways. |
| HeadSampler.PureCellShowsItsKind | scripts/make_terminal_mark.py:187-194 | A cell that lies, with its mirror, wholly on inside pixels of one kind shows that kind. |
| HeadSampler.EmptyCellShowsNothing | scripts/make_terminal_mark.py:188-190 | A cell that lies, with its mirror, wholly off the head is left empty. |
| HeadSampler.CountGrid | scripts/make_terminal_mark.py:164-196 | The grid loops give the text of the exact cells, or stop exactly where a clear pixel is inside. |
| HeadSampler.FindHead | scripts/make_terminal_mark.py:153-161 | Background, outline and inside are the regions their paths describe. |
| HeadSampler.BoxOf | scripts/make_terminal_mark.py:162-163 | The box is the least one round the inside, one pixel wider on every side. |
| HeadSampler.HeadPixels | scripts/make_terminal_mark.py:149-196 | There is a mark if and only if the picture has an inside and every clear pixel above the neck is reached from the edge; then it has ten palindromic rows of twelve, drawn from exact cells that conserve the inside. |
| McNemar.ChooseByFactorials | scripts/resume_ab.py:507 | The coefficients are those of the factorial formula. |
| McNemar.PValueIsAProbability | scripts/resume_ab.py:502-508 | The p-value is above 0, at most 1, and the same with the sides swapped. |
| McNemar.TailPascal | scripts/resume_ab.py:507 | A tail and the next row's tail, by Pascal's identity. |
| McNemar.ShareNeverFallsIff | scripts/resume_ab.py:502-508 | Along a fixed lead the share of the tail never falls however many wins both sides gain, if and only if there is a lead; at a tie it falls with every win. |
| McNemar.PassesExactly | scripts/resume_ab.py:552 | Rule 1 in whole numbers: more window wins, and forty times the tail below two to the number of discordant states. |
| McNemar.PassingNeedsALeadOfSix | scripts/resume_ab.py:23-25 | For every pair of counts, passing rule 1 takes a lead of six or more. |
| McNemar.WinsForFewLosses | scripts/resume_ab.py:23-25 | For every number of wins: without a loss a split passes from six wins on, with one loss from eight, with two from ten, and never below. |
| McNemar.EveryLossHasItsWins | scripts/resume_ab.py:502-552 | For every number of losses there is a number of wins from which on a split passes rule 1 and below which it does not; it lies at least six above the losses and has a bound linear in them. |
| McNemar.LoserWinNeverLowers | scripts/resume_ab.py:502-552 | A split that passes does so with one loss fewer. |
| McNemar.LeaderWinNeverRaises | scripts/resume_ab.py:502-508 | One more win for the leader never raises the p-value, so a passing split stays passing. |
| Decide.OrderDoesNotMatter | scripts/resume_ab.py:515-577 | Any order of the same probes gives the same record. |
| Decide.OutcomesAddUp | scripts/resume_ab.py:525-536 | The four counts add up to the number of states that both arms resumed. |
| Decide.GroupByState | scripts/resume_ab.py:517-521 | The loop groups the probes by state and arm, in order. |
| Decide.TallyStates | scripts/resume_ab.py:525-545 | The loop's four counters and lists of recalls are the counts over the states. |
| Decide.ComputeDecision | scripts/resume_ab.py:515-577 | The whole function, loops and rules, is the order-free decision. |
| Sorting.SortedRises | scripts/resume_ab.py:551 | The order the median is taken in is rising. |
| Decide.RecallRuleExactly | scripts/resume_ab.py:548-553 | Rule 2 in whole numbers, for any two arms, also without an answer: at most a twentieth of right answers fewer. |
| Decide.WindowNeedsSixStates | scripts/resume_ab.py:552-563 | The window becomes the default only with six states gained among those both arms resumed and with both arms' tokens counted; a second run is offered only when it is not and rule 1 fails. |
| DocsPaths.TidyIsNormal | scripts/build_docs.py:159-161 | A normalized relative path without ".." is its own normal form. |
| DocsPaths.RelativeIsWay | scripts/build_docs.py:145-146 | The way from page to page does not depend on the current directory. |
| DocsPaths.WayLeads | scripts/build_docs.py:145-146 | Following the way from a directory leads to the target. |
| DocsPaths.WayIsShortest | scripts/build_docs.py:145-146 | No shorter link leads there. |
| DocsLinks.RewritingKeepsMeaning | scripts/build_docs.py:149-173 | A link that leads to a manifest source leads, rewritten, from the page's output to that source's output with query and fragment kept, if and only if it may be kept and the way between the outputs is a URL path as it stands; a link to its own page also where nothing but query and fragment is left of its way, or of an unsafe link without them. |
| DocsLinks.EscapedNameStrays | scripts/build_docs.py:161-170 | An output a%41.html: the link to its source leads there, the rewritten link does not lead to the output. |
| DocsLinks.MarkedNameStrays | scripts/build_docs.py:161-170 | The same of a?b.html. |
| DocsLinks.SchemedNameStrays | scripts/build_docs.py:161-170 | The same of a:b.html. |
| DocsKept.TargetsAreUnrooted | scripts/build_docs.py:222-234 | Whatever the manifest, no source the build takes starts at the root, as the lemmas on links out of the site and from the root ask for. |
| DocsKept.OutsideLinksStayOutside | scripts/build_docs.py:155-157 | A link that leads out of the site is kept, and leads out of it from the page's output as well. |
| DocsKept.PageLinksStayOnThePage | scripts/build_docs.py:155-157 | A link within its page leads to the same place of the page's output. |
| DocsKept.UnlistedLinksLeadIff | scripts/build_docs.py:158-171 | A relative link to a file that is no page of the manifest is kept, and leads from the output where it led from the source if and only if the two have the same directory from as many levels up as the link goes. |
| DocsKept.RootedLinksLeadAlike | scripts/build_docs.py:158-171 | One that starts at the root leads to the same place from everywhere. |
| DocsLinks.Targets | scripts/build_docs.py:222-234 | The loop gives the targets, or the error exactly for a path out of the tree or an output named twice. |
| DocsLinks.TargetsAreDistinct | scripts/build_docs.py:222-234 | Every source listed has a target and no two sources share one. |
| Headings.FreshName | scripts/build_docs.py:93-99 | The suffix loop ends after at most as many numbers as there are ids used, with the first free name, which is the slug itself if that is free. |
| Headings.Pigeonhole | scripts/build_docs.py:95-98 | If the first k names tried are all used, at least k names are. |
| Headings.Ids | scripts/build_docs.py:73-100 | Every heading in turn gets the first free name. |
| Headings.IdsAreFresh | scripts/build_docs.py:93-100 | The ids of a page are pairwise different, and a slug not yet an id is kept plain. |
| Headings.IdsAreDetermined | scripts/build_docs.py:93-100 | No other ids obey that rule. |
| Tokenizer.TokensJoinBack | scripts/usage_blocks.py:81-87 | The texts of a row's tokens join back to the row if and only if a character-by-character reading keeps it: no whitespace but blanks and tabs outside quotes, comments and escapes, no final backslash in an open double quote. |
| Tokenizer.BlankRowsAreKeptIff | scripts/usage_blocks.py:81-87 | A row whose only whitespace is blanks and tabs, continued rows among them, is kept if and only if it does not end in a backslash inside an open double quote. |
| Tokenizer.OpenQuoteIsLost | scripts/usage_blocks.py:84 | A row of a double quote and a backslash loses its quote. |
| Tokenizer.CodeStandsBeforeTheComment | scripts/usage_blocks.py:82-87 | The tokens that are no comment are what stands before the comment. |
| ShellRows.CommandLine.Chain | scripts/usage_blocks.py:122-124 | Every part of the state is back at its start. |
| ShellRows.CommandLine.RunOption | scripts/usage_blocks.py:134-149 | A word after `uv run`: its tokens and the state it leaves, for every state. |
| ShellRows.CommandLine.Word | scripts/usage_blocks.py:152-177 | Any word: its tokens and the state it leaves, for every state. |
| ShellRows.CommandLine.Tokens | scripts/usage_blocks.py:180-191 | The loop over the lexer's matches: tokens, state and continuation of a row. |
| ShellRows.WordKeepsItsText | scripts/usage_blocks.py:127-177 | Whatever the state, a word's tokens join back to the word and none is a comment. |
| ShellRows.LexemesKeepTheirText | scripts/usage_blocks.py:180-191 | Through every state a row's tokens keep the text the lexer gave. |
| ShellRows.ChainStartsAfresh | scripts/usage_blocks.py:122-124 | After a chaining operator the row goes on as a row of its own would. |
| ShellRows.FirstWordIsTheCommand | scripts/usage_blocks.py:155-160 | The first word that assigns nothing is the command. |
| ShellRows.SubcommandsAreOver | scripts/usage_blocks.py:161-177 | Once a command has taken a word that names nothing, a value, an option or an assignment, no subcommand and no command follows before the next chaining operator. |
| ShellRows.CommandsHavePlaces | scripts/usage_blocks.py:152-191 | A row never names more commands than its start, its chaining operators and its `run`s have places for. |
| ShellBlocks.ReadChatLine | scripts/usage_blocks.py:194-200 | A typed message as one line. |
| ShellBlocks.ReadRow | scripts/usage_blocks.py:212-228 | One turn of the loop in each of the three modes, with the state it leaves. |
| ShellBlocks.Parse | scripts/usage_blocks.py:203-229 | The loop over the rows, with its one state object, gives one line a row. |
| ShellBlocks.RowIsUndone | scripts/usage_blocks.py:203-229 | In every mode and state, a line gives its row back if and only if the row is not cut into tokens or the lexer keeps it. |
| ShellBlocks.TextIsUndone | scripts/usage_blocks.py:203-229 | A whole snippet is read back from its lines if and only if every row it cuts is kept. |
| ShellBlocks.SplitJoinsBack | scripts/usage_blocks.py:203-229 | Splitting at line breaks and joining is the identity. |
| ShellBlocks.CopyIsTheCode | scripts/usage_blocks.py:232-239 | For a kept snippet the text of the Copy button is each command without prompt, comment and output, joined by line breaks, and nothing else. |
| ArtPromotion.ClearMoves | scripts/art_pack.py:661-666 | The first loop removes exactly the stale direct files of the moves folder and lists them. |
| ArtPromotion.CopyOne | scripts/art_pack.py:667-678 | One staged file: it is written, or the same, or fails exactly where a folder is in its place or a file above it. |
| ArtPromotion.Promote | scripts/art_pack.py:653-679 | Ends well if and only if nothing is in the way; then the checkout is the promoted one and the report is the lists of changes and the count; if it raises, its files are as before or those of an early stop. |
| ArtPromotion.StageArrives | scripts/art_pack.py:667-678 | Every staged file is in the checkout byte for byte, and every other path but the stale files is untouched. |
| ArtPromotion.MovesAreReplacedIff | scripts/art_pack.py:661-666 | The moves folder's direct files are exactly the staged ones if and only if no file there has the name of a staged folder. |
| ArtPromotion.AFolderKeepsAFile | scripts/art_pack.py:662-664 | Such a file stays although the promotion ends well. |
| ArtPromotion.PromotedIsTidy | scripts/art_pack.py:676-678 | Afterwards every file and folder still has its folder above it. |
| ArtPromotion.ChangesSayAll | scripts/art_pack.py:653-679 | A change is listed if and only if the path differs in that way between before and after. |
| ArtPromotion.ReportAddsUp | scripts/art_pack.py:653-679 | Changes and sames together are the stale and the staged files, each once. |
| ArtPromotion.SecondRunChangesNothing | scripts/art_pack.py:653-679 | A second run fits again, changes nothing and lists no change. |
| TraceRebuild.ReadStepMap | support/procedures.py:318-346 | One pass over the calls: each row id is mapped by the last planning call naming it, the reflections are listed in order, the last step and the top attempt are the largest; damaged ids end it. |
| TraceRebuild.Trace.Step | melo/memory/procedures/trace.py:148-152 | A step becomes the current one; its start is the clock's reading unless it has one already. |
| TraceRebuild.Trace.Reflect | melo/memory/procedures/trace.py:189-191 | A reflection is put down to the current step. |
| TraceRebuild.Trace.Tool | melo/memory/procedures/trace.py:154-178 | A call is put down to the current step and attempt. |
| TraceRebuild.Walk.PopReflections | support/procedures.py:400-402 | The inner loop takes exactly the reflections that belong after the step before. |
| TraceRebuild.Walk.StartSteps | support/procedures.py:396-404 | The steps up to the asked one begin once each with their reflections in front, and a lower one begins nothing. |
| TraceRows.TakeRow | support/procedures.py:408-437 | One row, with or without known planning calls: the steps it starts and the call it adds. |
| TraceRows.TaskTrace | support/procedures.py:390-439 | The walk over the rows and the closing total give the whole history, or end at a call that is no object. |
| TraceRows.TraceIsTimeline | support/procedures.py:390-439 | Steps and reflections of the trace are the timeline of N steps, whatever the rows ask for, N being the largest of their steps and the total. |
| TraceRows.TimelineNumbers | support/procedures.py:396-404 | The timeline has the steps 1 to N once each in order. |
| TraceRows.ReflectionsHaveTheirPlace | support/procedures.py:400-402 | Each reflection recorded at a step j below N comes once after step j and before the next, in rising order; none with j at N or later comes. |
| TraceRows.RebuiltTrace | support/procedures.py:390-439 | Both of these for the trace of any rows, whatever order their steps and the reflections come in. |
| TraceRows.RowOrderDoesNotMatter | support/procedures.py:406-424 | With known planning calls, the order of the rows changes neither steps nor reflections. |
| TraceRows.StepIsPeak | support/procedures.py:408-409 | The step reached is the largest the rows speak for. |
| TraceRows.StepsAreBeginnings | support/procedures.py:410-420 | Without known planning calls the steps are the rows that begin something: the first, those with a thought, those after a pause. |
| TraceRows.CallsFollowTheRows | support/procedures.py:424-437 | The calls come in the rows' order, none lost or doubled, each put down to the step the rows up to it have reached. |
| TraceRows.StartsOfRebuiltTrace | support/procedures.py:390-439 | The rebuilt trace knows a start for each of the steps 1 to N and for no other. |

## Left out

Progress line:

- One event per write: a write that fails may end after any number of characters, but not inside one, and two threads' writes do not mix within a text.
- Time: the bounded waits are events that may happen at any moment; the widths of Unicode are any function of a character; wrapping at the terminal's width is not modelled, since the line is kept a cell short.
- Drawing in the background, and a log record that re-enters a locked section from garbage collection.
- ProgressScreen.ScreenIsRecordsAndLine: for runs in the foreground without failed writes, with records that leave no escape sequence open.
- ProgressLine.Display.CarryOut: the line drawn last is kept without its dim codes, which are the same for the whole life of the object.
- LineParts.FormatPayload: the overflow of huge whole numbers to floats is not modelled, and the bar rounds an exact fraction where the script rounds a float.
- LinePlain.EveryLineIsPlain: which characters are blanks or of the "other" categories of Unicode, and the text of a value that is no text, are parameters; it is used that control characters are of those categories.
- LineText.FormatLine: the parts are given and the colour is not put on; `LineParts.FormatPayload` makes them of the payload.
- Terminal.Plain: the control characters but carriage return, line feed and escape are taken as printing characters by the terminal; theorems about rows ask for texts without any.

Settings:

- Texts of floats, NaN and dates, and texts with lone surrogates; multi-line and literal strings, dotted keys, comments and underscores in numbers are not read.
- Settings.LoadNormalizesOnce: settings are compared by structure, where Python also takes `True` for `1`; this differs only for settings of a wrong type.
- SettingsStore.OverridesNeverPersist: values are values, so an in-place change of a list that an override gave is not modelled.
- Replacing the file, its permissions and folders; the file is replaced whole. What counts as a blank for trimming and the text of a value that is no text are parameters.
- The checks of `Config.validate` and the folders list.

Terminal mark:

- Png.ReadRows: the chunks and the decompression are given; the data are as long as the header says.
- HeadSampler.HeadPixels: sorting colours into kinds is an arbitrary total map, and areas and thresholds are exact reals instead of floats.
- Rewriting `support/cli/mark.py`.

Paired test:

- Decide.RecallRuleExactly: the shares are exact where the script compares rounded float percentages.
- McNemar.PassesExactly: the p-value is exact where the script divides floats.
- Running the experiment, its probes and reports.

Documentation build:

- DocsLinks.RewritingKeepsMeaning: whether a link may be kept at all is a given truth value; decoding of percent escapes as UTF-8 is any function that keeps ASCII and gives no more characters than bytes.
- Headings.Ids: the slug of a heading is given; Markdown rendering, symbolic links and writing the pages are left out.

Shell blocks:

- Tokenizer.TokensJoinBack: what counts as whitespace and as a digit beyond blank and tab is a parameter, with `#` no whitespace.
- The HTML and SVG writers and the contrast report.

Promoting pictures:

- ArtPromotion.Promote: paths are lists of names below two trees that do not overlap, without symbolic links; a disk that refuses a write for another reason than a folder or file in the way is not modelled. The folders are listed in any order, of which the sorted one is one case.
- Checking, building and previewing an art pack.

Trace:

- TraceRows.TaskTrace: reading the database and JSON is left out; a call is an arbitrary value, and a cell that is no object ends the walk. The facts made of the trace are left out.
- TraceRebuild.Trace.Tool: classifying and labelling a call, and its test results, are left out; the clock is constant, as the rebuild has it.
- TraceRebuild.ReadStepMap: missing steps and attempts are 0 already.

Elsewhere: the agent loop, memory and gateway, the command line and its questions, the servers and network experiments, and the icon drawing.
