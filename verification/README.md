# What this project models

The hard cores of the repository, each as a module whose main results are for-all statements
over every input, run or reachable state.

- `TextTree`, `Text`: the part of a DrawingML text body the deck editors work on, a mutable tree
  of paragraphs, runs, breaks and fields (ECMA-376 Part 1, section 21.1.2).
- `Replacement`: find-and-replace in a paragraph whose text is split over runs in any way.
- `CutCode`: excerpting a code box in place, and the flat splice it has to agree with.
- `CodeText`: how `code_lines` reads a box that keeps its lines in paragraphs, in breaks, in
  newlines inside runs, or in a mix of them.
- `Colours`, `BoxInk`, `Recolour`: recolouring a code box, against the independent colour checker.
- `SetCode`: rewriting a code box and reading it back; substitution of lines.
- `Companion`: applying an alignment to a document in place, through references to its blocks.
- `Pool`, `Readyz`: the libpq connection pool as a state machine over its atomic steps, its classes,
  and the `/readyz` loop.
- `Events`, `Consumers`: order service, event log and consumer groups under crashes, redelivery and several
  workers, as a state machine; a worker's loop and handler as the source has them.
- `Windows`: windowed revenue with expiring state, in the Faust and the Streamiz version.
- `Fences`, `MaskRaw`: the site tooling's code fences and raw blocks.
- `Fit`: box capacity and the font-size search, over exact reals.
- `Pagination`: keyset pagination under concurrent insertions.
- `Changes`: incremental against full selection of CI projects.

`dafny verify dfyconfig.toml` checks everything. Regular expressions, colours and environments come in
as parameters: `isComment` is the comment-shape test, `number` reads a decimal, `composeName` is the
pattern of compose file names, `fate`, `dropped`, `opens`, `connects` and `answers` say what the
environment does.

Properties that turned out to need a condition, all of them proved with the condition exact or with a
concrete input that shows it is needed:

- companion: an insertion copies the first paragraph of its style; if an earlier opcode restyled that
  paragraph, the inserted block gets the wrong style, and only the check at the end catches it
  (`Companion.ResultIsNew`, `Companion.RestyledTemplate`).
- set_code: the break storage reads an empty list of lines back as one empty line, and a newline inside
  a line splits it (`SetCode.ReadBackExact`).
- recolour against the audit: a code line stays flagged exactly when something other than a comment
  follows the start of its trailing comment, or a colour was not ours to change (`Recolour.AuditClean`).
- `/readyz`: five attempts suffice for pools of up to four connections and not for larger ones
  (`Readyz.FiveSuffice`, `Readyz.FiveFallShort`).
- consumers: a record whose handling raises is not committed, but the next success commits past it
  (`Consumers.CommittedPastRaised`, `Consumers.RowsAfterLoop`).
- windows: dropping stale windows shows exactly when an order comes for a stale window that had orders, except
  where its value is out of range by itself and in the total (`Windows.DropsHiddenExactly`); orders at most one
  window length late never do (`Windows.OnTimeHarmless`), later ones can (`Windows.OneMillisecondTooLate`).
- the two stream processors: on the records of one partition, whatever stale windows the agent's library drops, they
  keep the same record of a window exactly when none of its orders comes after a usable record past the window's end or
  has a merchant that is not a string, and none comes for the window when it is stale with orders in it, but for those
  that would emit nothing anyway (`Windows.SameExactly`). Against the batch the first half alone is exact
  (`Windows.SameContract`).
- cut_code: a comment can be inserted exactly when the template line has a run with text, or it and the lines
  replaced have their paragraphs to themselves (`CutCode.CutCode`); without fields it always can
  (`CutCode.FieldlessCopies`).
- capacity: what fits goes on fitting as the size shrinks, in every frame; the number itself, once negative, can
  shrink, and `Fit.MonotoneExactly` says for each count when it does (`Fit.LowFrame`); what the search suggests is
  accepted exactly when it is a half-point size (`Fit.SuggestionAccepted`).
- pagination: a limit below 1 is not answered with a page (`Pagination.ListOrders`).
- CI selection: a directory named like a project file counts for the incremental selection only, so the incremental
  selection is part of the full one exactly when no such directory stands, without a tracked project file beside it,
  where changes look for projects (`Changes.WithinExactly`, `Changes.MarkerDirectory`).

A comment in the Faust version says its windows have no grace like the JVM and .NET ones
(examples/06-stream-processing/python/stream-processor/main.py:65-67), but what it does with late orders
differs: Streamiz drops every order that comes after its window ended. Faust drops none: it adds an order to its
window as long as the table holds it, and counts it as the first of a new one once the window has expired. The
model follows the code.

## Model

| member | source | states |
|---|---|---|
| `TextTree.SetParText` | scripts/deck_edit.py:202-224 | a new paragraph with one run that holds the text in the colour and the format of the template's first run, or in none |
| `Replacement.FindSpans` | scripts/deck_edit.py:291-297 | the scan finds the leftmost non-overlapping matches, in order |
| `Replacement.EmitIsReplaceAll` | scripts/deck_edit.py:291-297 | those matches give leftmost replacement of the flat text, and their number is its match count |
| `Replacement.RunAt` | scripts/deck_edit.py:306-310 | the run that holds an offset, or that ends at it, whatever empty runs there are |
| `Replacement.BoundsOf` | scripts/deck_edit.py:301-304 | the bounds tile the joined text, run by run |
| `Replacement.SpliceOne` | scripts/deck_edit.py:312-323 | the original bounds stay right for a splice when only later matches were spliced before: in every position of run and match, the splice yields the run's part of the edit |
| `Replacement.SpliceSpan` | scripts/deck_edit.py:312-323 | one right-to-left step keeps every run equal to its part of the edit |
| `Replacement.ReplaceTexts` | scripts/deck_edit.py:289-323 | all spans: each run holds what its own characters turn into, a replacement being in the run where its match began |
| `Replacement.ReplacedJoins` | scripts/deck_edit.py:289-323 | the runs' texts joined are the flat replacement of the joined old texts |
| `Replacement.SegmentsOf` | scripts/deck_edit.py:277-285 | the segments are the runs between breaks; a field ends none |
| `Replacement.SegmentsKeep` | scripts/deck_edit.py:329-332 | dropping runs leaves the number of segments and the order of the remaining runs |
| `Replacement.DropEmptied` | scripts/deck_edit.py:329-332 | exactly the runs after the first that lost all their text go |
| `Replacement.EditSegment` | scripts/deck_edit.py:286-332 | one segment: count, texts of the runs, and the children that remain |
| `Replacement.ReplaceInParagraph` | scripts/deck_edit.py:274-333 | every segment's text is the flat replacement of what it was, the result is the total match count, each run keeps its unmatched characters |
| `CutCode.PlanIsSliceAssign` | scripts/deck_edit.py:1044-1052 | the one-pass splice over line numbers equals slice assignment from the last cut to the first |
| `CutCode.SpliceLines` | _plans/s12-manifest/tools/gen_fit.py:89-102 | the loop of `apply`, for cuts in any order: what the cuts remove and insert, and slice assignment whenever they are disjoint |
| `CutCode.SortedCuts` | scripts/deck_edit.py:1003 | a permutation of the cuts in order of their first line |
| `CutCode.ParagraphRecords` | scripts/deck_edit.py:976-989 | succeeds exactly without newlines in runs and fields; the records are the lines between breaks with their texts, each with the break that ends it |
| `CutCode.LineRecords` | scripts/deck_edit.py:972-990 | the same for the box, each record with its paragraph |
| `CutCode.ReadCuts` | scripts/deck_edit.py:1006-1021 | accepted exactly when the cuts are disjoint, in range and name the lines they cut; then the removed and inserted line numbers |
| `CutCode.Template` | scripts/deck_edit.py:1022-1026 | the first comment line with text, or else the first code line; one is found exactly when some line has text |
| `CutCode.TemplateLine` | scripts/deck_edit.py:1022-1024 | the first line with text and runs or fields that is a comment; if there is none, the first one of all; none exactly when no line has any |
| `CutCode.EllipsisRun` | scripts/deck_edit.py:1031-1038 | succeeds exactly when the template line has a run with text; a new run with the comment in the comment colour and the format of the first such run |
| `CutCode.EllipsisParagraph` | scripts/deck_edit.py:1058-1071 | a new paragraph of one comment line in the comment colour, in the format of the template paragraph's first run, or of the template line's first run with text |
| `CutCode.Rebuild` | scripts/deck_edit.py:1076-1094 | succeeds exactly when nothing is inserted or there is a run to copy; the lines are the planned ones, kept lines with exactly their own elements and breaks |
| `CutCode.EditParagraph` | scripts/deck_edit.py:1044-1094 | exactly when it succeeds, and what one paragraph turns into: nothing, itself, or a new one, with the planned lines |
| `CutCode.EditParagraphs` | scripts/deck_edit.py:1044-1094 | exactly when the loop succeeds; the box's lines and breaks after it are the plan for all its lines |
| `CutCode.ReadBox` | scripts/deck_edit.py:1002-1029 | exactly when the op gets past its checks, and what it then knows of the box |
| `CutCode.CutCode` | scripts/deck_edit.py:993-1106 | succeeds exactly when the cuts match, leave a line, what they insert can be copied in a well-formed colour and the result fits; the lines are then the flat splice: survivors with exactly their own runs and, unless last in their paragraph, their own breaks, each insertion one new run in a format of the template line, in the colour asked for in upper case, or else in the house colour of comments, where the colour checker has nothing to report on it |
| `CutCode.FieldlessCopies` | scripts/deck_edit.py:1022-1032 | in a box without fields an inserted line can always be copied, if any line has text |
| `CodeText.SplitJoin` | scripts/deck_edit.py:446-475 | splitting joined lines at newlines gives the lines of each in turn |
| `CodeText.RelinesExact` | scripts/deck_edit.py:446-475 | a list of texts reads back as itself exactly when none holds a newline |
| `CodeText.ReadParagraph` | scripts/deck_edit.py:450-474 | a paragraph's lines: for each its text, the break that ends it, and as template the first run that puts text on it, or on a blank line the first run on it |
| `CodeText.CodeLines` | scripts/deck_edit.py:446-475 | the same for the box, paragraph by paragraph |
| `CodeText.CodeLinesMean` | scripts/deck_edit.py:446-475 | the texts are the lines of the paragraphs' flat texts, every line with text has a run of its paragraph to copy, and some line has a break exactly when some paragraph has |
| `CodeText.ReadersAgree` | scripts/deck_edit.py:446-475 | without fields, what `code_lines` reads is what lies between breaks, split at the newlines inside |
| `CodeText.ReadsAsTexts` | scripts/deck_edit.py:1097 | the lines cut_code leaves are read as such by `code_lines` exactly when none holds a newline |
| `Colours.PaintIdempotent` | scripts/deck_edit.py:561-586 | recolouring a line keeps its text, and a second time changes nothing |
| `Colours.PaintMeans` | scripts/deck_edit.py:561-586 | segment by segment: blank ones, and without force those in a third colour, keep their colour; the others end in the comment colour asked for exactly if the line is a comment, or a comment-shaped segment after a code one has come by then, and in the code colour otherwise |
| `Colours.LineHits` | _plans/s12-manifest/tools/colour_audit.py:64-87 | the checker's loop reports exactly the hits of its rule |
| `Colours.PartClean` | _plans/s12-manifest/tools/colour_audit.py:69-86 | segment by segment, when a painted line is clean |
| `Colours.CleanAfterPaint` | scripts/deck_edit.py:561-586 | a line painted in the house colours is reported clean exactly if blank, or all ours and a comment or with nothing but comments after its trailing comment begins |
| `BoxInk.ParagraphLines` | _plans/s12-manifest/tools/colour_audit.py:43-61 | the reader's loop cuts runs at newlines and ends lines at breaks |
| `BoxInk.PiecesInk` | scripts/deck_edit.py:519-540 | the pieces of a run show the checker the same segments as the whole run |
| `BoxInk.PiecesFlat` | scripts/deck_edit.py:519-540 | the pieces of a run joined are its text |
| `BoxInk.TypedInks` | scripts/deck_edit.py:519-540 | each character of the pieces has the format of the run |
| `BoxInk.PiecesSingle` | scripts/deck_edit.py:519-540 | no piece needs splitting again, and a run that needs it has two pieces at least |
| `Recolour.SplitParagraph` | scripts/deck_edit.py:519-540 | text, ink and the format of every character stay, no run needs splitting afterwards, and nothing changes if none did before |
| `Recolour.SplitMultilineRuns` | scripts/deck_edit.py:519-540 | the same for the box, whose elements stay a tree |
| `Recolour.PaintLine` | scripts/deck_edit.py:561-586 | the loop over a line's runs paints as the rule says, which segment by segment is what `Colours.PaintMeans` states, and counts what it changes |
| `Recolour.CollectLines` | scripts/deck_edit.py:550-562 | the lines of runs as the editor collects them |
| `Recolour.RunLinesInk` | scripts/deck_edit.py:550-562 | these lines carry what the checker sees, segments without text apart |
| `Recolour.PaintRuns` | scripts/deck_edit.py:563-587 | the loop over the box's lines |
| `Recolour.RecolourBox` | scripts/deck_edit.py:543-587 | the box reads as before, each character in its format; on every line third colours stay unless forced, and comments and code get exactly the colours asked for; the result is the number of segments that changed |
| `Recolour.PaintedBoxNoChanges` | scripts/deck_edit.py:543-587 | a painted box has nothing to change |
| `Recolour.RecolourTwice` | scripts/deck_edit.py:543-587 | a second pass changes no run, neither text nor colour nor place |
| `Recolour.RecolourAgain` | scripts/deck_edit.py:543-587 | a box that was recoloured is left exactly as it is |
| `Recolour.AuditClean` | _plans/s12-manifest/tools/colour_audit.py:43-87 | line by line, exactly when the checker reports nothing after recolouring, in terms of the box before it |
| `SetCode.ReadBackExact` | scripts/deck_edit.py:603-704 | lines written in either storage read back as themselves exactly when none holds a newline and, with breaks, there is one at least |
| `SetCode.FirstLines` | scripts/deck_edit.py:624-632 | the first code, comment and blank line of the box |
| `SetCode.FirstLineIs` | scripts/deck_edit.py:624-632 | the first of the box's lines of that sort, all before it being of others |
| `SetCode.ChoosePens` | scripts/deck_edit.py:624-638 | which lines are the templates |
| `SetCode.PensMean` | scripts/deck_edit.py:624-638 | templates are found exactly when the box has text; each then has a run of its paragraph to copy |
| `SetCode.PensAreTemplates` | scripts/deck_edit.py:624-638 | code is copied from the first line of code, or if there is none from the first comment; comments from the first comment, or if there is none as code is; blank lines from the first one |
| `SetCode.KeepsBreaks` | scripts/deck_edit.py:620-623 | the storage chosen: a break anywhere, or one paragraph with a newline in a text |
| `SetCode.WithinLimits` | scripts/deck_edit.py:639-653 | the limits on lines and columns are kept exactly when the checks pass |
| `SetCode.ParagraphsFor` | scripts/deck_edit.py:654-663 | one new paragraph with one run per line, in the colour and format of its template paragraph's first run |
| `SetCode.BreakParagraph` | scripts/deck_edit.py:668-698 | one paragraph with a run for each line that has text, in the colour and format of its template run, and a copy of its template's break between lines |
| `SetCode.ContentMeans` | scripts/deck_edit.py:654-701 | how such content reads back, and what the checker sees of it |
| `SetCode.Prepare` | scripts/deck_edit.py:603-653 | exactly when the op is accepted, and with what lines, storage, template lines and template runs |
| `SetCode.WriteBox` | scripts/deck_edit.py:654-701 | the new box holds exactly the lines in its storage, copied from the templates |
| `SetCode.SetCode` | scripts/deck_edit.py:603-719 | succeeds exactly when accepted with well-formed colours; then the box reads back the lines, each character has the format of the line it is copied from, and each line is in the colour asked for in upper case, or else in that of its template run, or else in the house colour, third colours that were copied excepted; with no colour asked for and none but house colours copied, the checker reports nothing in the house colours; nothing changed when refused |
| `SetCode.TypedContent` | scripts/deck_edit.py:654-705 | the format of every character and break of the new box: of the template run and break, or of the first run of the template's paragraph |
| `SetCode.SetCodeClean` | scripts/deck_edit.py:702-715 | lines written and gone over in the house colours have nothing to report |
| `SetCode.BoxClean` | _plans/s12-manifest/tools/colour_audit.py:43-87 | so the checker reports nothing on any line of a box that shows such content |
| `SetCode.ReplacedMeans` | _plans/s12-manifest/tools/fixA_build.py:117-121 | a line that stands once is found and replaced, wherever it stands |
| `SetCode.ReplacedOnce` | _plans/s12-manifest/tools/fixA_build.py:117-121 | and only a line that stands exactly once is |
| `SetCode.Substitute` | _plans/s12-manifest/tools/fixA_build.py:117-121 | the loop is the substitutions one after the other |
| `SetCode.NormTwice` | scripts/deck_edit.py:613 | a line written once is not changed by being written again |
| `SetCode.CodeSubst` | _plans/s12-manifest/tools/fixA_build.py:112-127 | followed by set_code, exactly when the pair succeeds; it is the flat substitution in the lines read; without a unique match the box is left alone |
| `SetCode.CodeReadsBack` | scripts/deck_edit.py:609-610 | code given as one string always reads back as its lines |
| `SetCode.DetabParts` | scripts/deck_edit.py:613 | each tab of a line becomes four blanks and every other character stays |
| `Companion.ZipIsNew` | _plans/s12-manifest/tools/companion_docx.py:181-185 | rewriting the cells two tables share yields the new table exactly when the shapes agree |
| `Companion.StyleKept` | _plans/s12-manifest/tools/companion_docx.py:188-189 | a block keeps its style exactly when no opcode so far restyled it |
| `Companion.OutcomeIsNew` | _plans/s12-manifest/tools/companion_docx.py:168-210 | a block comes out as the new one exactly when its template kept its style, or its table its shape |
| `Companion.ResultIsNew` | _plans/s12-manifest/tools/companion_docx.py:168-235 | the loop's result is the new revision exactly when all do |
| `Companion.Fill` | _plans/s12-manifest/tools/companion_docx.py:121-144 | succeeds exactly when there is a plain run to copy or no span; the runs are the spans, of their kinds where a run of that kind exists and plain otherwise |
| `Companion.FillTable` | _plans/s12-manifest/tools/companion_docx.py:181-185 | the cells both tables have are rewritten, in place |
| `Companion.InsertAfter` | _plans/s12-manifest/tools/companion_docx.py:200 | the new block stands right after the anchor, which is in the document |
| `Companion.Remove` | _plans/s12-manifest/tools/companion_docx.py:207-209 | exactly that block goes |
| `Companion.SetAt` | _plans/s12-manifest/tools/companion_docx.py:176-192 | a pair of blocks: succeeds exactly when both are tables, or neither is and the document has the style; where the loop stands then, and that a paragraph's runs are the new spans, each of its kind if the document had a run of it |
| `Companion.InsertAt` | _plans/s12-manifest/tools/companion_docx.py:193-205 | an insertion: when it succeeds, that all blocks before it stay, and that its runs are the new spans, each of its kind if the document had a run of it |
| `Companion.DeleteAt` | _plans/s12-manifest/tools/companion_docx.py:206-210 | a deletion, and that all blocks before it stay |
| `Companion.ApplyOpcode` | _plans/s12-manifest/tools/companion_docx.py:171-210 | one opcode: succeeds exactly when each of its steps can be done, and touches no block outside its range |
| `Companion.ApplyAll` | _plans/s12-manifest/tools/companion_docx.py:168-210 | all opcodes: the result is what the outcomes say, kept blocks are the old nodes, untouched |
| `Companion.AnchorKept` | _plans/s12-manifest/tools/companion_docx.py:172-200 | the anchor of every edited range is still in the document, just before it |
| `Companion.KindsOf` | _plans/s12-manifest/tools/companion_docx.py:111-119 | the kinds of run that are recorded |
| `Companion.TemplatesOf` | _plans/s12-manifest/tools/companion_docx.py:162-165 | per style, the first paragraph of it |
| `Companion.Update` | _plans/s12-manifest/tools/companion_docx.py:147-235 | succeeds exactly when the document is the old revision, every step can be done, styles and runs to copy included, and the result is the new revision, which it then is; every paragraph set or inserted has one run per span, in order, with its text, of its kind if the document had a run of that kind at the start and plain otherwise; kept blocks are the old nodes, untouched |
| `Companion.RestyledTemplate` | _plans/s12-manifest/tools/companion_docx.py:188-197 | an input whose template was restyled before it is copied |
| `Pool.CountNotify` | examples/01-cloud-native-principles/cpp/src/pg_pool.hpp:125-155 | a notification makes one more waiter notified if any waits unsignalled |
| `Pool.OwnedStep` | examples/01-cloud-native-principles/cpp/src/pg_pool.hpp:102-170 | every step of every thread keeps the counts, the one place of each connection and the one end of each acquire |
| `Pool.WakeupStep` | examples/01-cloud-native-principles/cpp/src/pg_pool.hpp:102-156 | every step keeps available capacity covered by notified waiters while one waits unsignalled |
| `Pool.DestroyOwned` | examples/01-cloud-native-principles/cpp/src/pg_pool.hpp:148-170 | a release keeps them, and the free list within the pool's size |
| `Pool.RunKeepsInv` | examples/01-cloud-native-principles/cpp/src/pg_pool.hpp:85-170 | in every reachable state: live_ counts free, checked-out and opening connections and is at most size_; each opened connection is free, in one handle, or closed; each acquire is carried once or released once; no wake-up is lost |
| `Pool.SleepersAreCovered` | examples/01-cloud-native-principles/cpp/src/pg_pool.hpp:102-156 | a thread sleeps unsignalled only while notified waiters cover all that can be had |
| `Pool.ReleaseFits` | examples/01-cloud-native-principles/cpp/src/pg_pool.hpp:87-151 | push_back in the noexcept release stays within the capacity reserved at construction |
| `Pool.AllReleased` | examples/01-cloud-native-principles/cpp/src/pg_pool.hpp:49-55 | once no handle holds a connection, every acquire was released exactly once, moves notwithstanding |
| `Pool.RunMarks` | examples/01-cloud-native-principles/cpp/src/pg_pool.hpp:64-67 | in every reachable state a handle is invalid exactly if its connection was invalidated, through whatever handle; no free connection was, and every closed one |
| `Pool.DestroyDecides` | examples/01-cloud-native-principles/cpp/src/pg_pool.hpp:148-170 | destroying a handle with a connection puts that back on the free list if it was never invalidated, and otherwise closes it, one live connection fewer |
| `Pool.PoisonedStaysOut` | examples/01-cloud-native-principles/cpp/src/pg_pool.hpp:62-67 | an invalidated connection is in no later free list, and no acquire but its own ever holds it, moves included |
| `Readyz.ScopedConnection.Move` | examples/01-cloud-native-principles/cpp/src/pg_pool.hpp:49-55 | the moved-from handle holds nothing |
| `Readyz.ScopedConnection.Invalidate` | examples/01-cloud-native-principles/cpp/src/pg_pool.hpp:67 | the handle's connection will be discarded |
| `Readyz.ScopedConnection.Destroy` | examples/01-cloud-native-principles/cpp/src/pg_pool.hpp:166-170 | a handle with a connection releases it to its pool, any other does nothing |
| `Readyz.PgPool.Fill` | examples/01-cloud-native-principles/cpp/src/pg_pool.hpp:85-92 | succeeds exactly when all connections open; then they are all free, in order |
| `Readyz.PgPool.Acquire` | examples/01-cloud-native-principles/cpp/src/pg_pool.hpp:102-129 | with one user: the last free connection, or a new one in a free slot that is given back if opening fails, or a timeout |
| `Readyz.PgPool.Release` | examples/01-cloud-native-principles/cpp/src/pg_pool.hpp:148-156 | back to the free list if valid, else one live connection fewer |
| `Readyz.CheckoutIsSteps` | examples/01-cloud-native-principles/cpp/src/pg_pool.hpp:102-129 | a checkout by the only user is steps of the state machine, with the same connection and the same fields |
| `Readyz.Ready` | examples/01-cloud-native-principles/cpp/src/main.cpp:78-104 | the loop is up to five probes of the pool |
| `Readyz.Recovery` | examples/01-cloud-native-principles/cpp/src/main.cpp:78-104 | with the database reachable, n attempts succeed exactly when fewer than n of the connections tried first are dead, and discard exactly those |
| `Readyz.FiveSuffice` | examples/01-cloud-native-principles/cpp/src/main.cpp:30-81 | five attempts bring back every idle pool of one to four connections |
| `Readyz.FiveFallShort` | examples/01-cloud-native-principles/cpp/src/main.cpp:81-102 | and not one of five or more that all died |
| `Readyz.NothingLeaks` | examples/01-cloud-native-principles/cpp/src/main.cpp:78-104 | whatever the database does, nothing stays checked out, and success leaves a usable connection on top |
| `Events.GroupKeeps` | examples/05-event-driven/dotnet/ShippingConsumer/ShipmentWorker.cs:37-104 | every step of a worker keeps the group's invariant |
| `Events.StepKeeps` | examples/05-event-driven/dotnet/OrderService/Program.cs:63-107 | so does every step of the system, placing and publishing orders included |
| `Events.Safety` | examples/05-event-driven/dotnet/ShippingConsumer/ShipmentWorker.cs:37-104 | in every reachable state each group's table has one row per order at most, rows are events and events stored orders, and every record below the committed offset has its row or its handling raised |
| `Events.FailedRaised` | examples/05-event-driven/dotnet/ShippingConsumer/ShipmentWorker.cs:72-76 | an offset counts as failed only if handling it did raise earlier in the run |
| `Events.CrashesRefineCleanPass` | examples/05-event-driven/dotnet/NotificationConsumer/NotificationWorker.cs:37-104 | if nothing raised, the table is row for row a crash-free pass over a prefix of the log at or beyond the committed offset, and over the whole log once that is committed |
| `Consumers.Undisturbed` | examples/05-event-driven/dotnet/ShippingConsumer/ShipmentWorker.cs:37-83 | from any reachable state of a group there are steps of one worker alone that commit the whole log, in as many iterations as it is longer than the committed offset |
| `Consumers.HandleAsync` | examples/05-event-driven/dotnet/ShippingConsumer/ShipmentWorker.cs:86-104 | what one call stores and returns, whether or not another worker stores the row between check and save, and when the lookup or the save raises, having taken effect or not: it reports a new row exactly if this call stored it, and afterwards the order has its one row unless lookup or save failed |
| `Consumers.ConsumeAsync` | examples/05-event-driven/dotnet/ShippingConsumer/ShipmentWorker.cs:37-77 | how far the loop gets, and that table and committed offset are the fold of the records' handling and commits, whatever raises |
| `Consumers.CommittedPastRaised` | examples/05-event-driven/dotnet/ShippingConsumer/ShipmentWorker.cs:70-76 | the committed offset is just past the last record whose commit took effect |
| `Consumers.LoopIsIterations` | examples/05-event-driven/dotnet/ShippingConsumer/ShipmentWorker.cs:37-77 | the loop's table and offset are those of the state machine's iterations |
| `Consumers.IteratedSteps` | examples/05-event-driven/dotnet/ShippingConsumer/ShipmentWorker.cs:60-104 | an iteration with no other worker interfering, whatever raises in it, is steps of the state machine |
| `Consumers.RowsAfterLoop` | examples/05-event-driven/dotnet/ShippingConsumer/ShipmentWorker.cs:65-76 | an order has a row exactly when it had one or some record of it was handled so that one was stored |
| `Windows.StartContains` | examples/06-stream-processing/python/stream-processor/main.py:121-123 | the window is the one that contains the order's time, windows starting at multiples of their length |
| `Windows.OrderMeans` | examples/06-stream-processing/python/stream-processor/main.py:77-123 | a record is an order exactly when its event names a merchant and the text of its total, zero if missing or null, is a number; it counts that number for that merchant, in the window of its time |
| `Windows.CentsNearest` | examples/06-stream-processing/python/stream-processor/main.py:130-133 | the revenue shown is within half a cent, and half a cent goes away from zero |
| `Windows.Aggregator.Aggregate` | examples/06-stream-processing/python/stream-processor/main.py:107-145 | the loop's body with its skips: the table and what is emitted |
| `Windows.Aggregator.Run` | examples/06-stream-processing/python/stream-processor/main.py:104-145 | the agent over any stream with any windows dropped on the way; if stale ones only and no drop shows, every emission is the batch result so far |
| `Windows.LatestIsBatch` | examples/06-stream-processing/python/stream-processor/main.py:1-8 | the latest emission per merchant and window is the batch result, if it has an order |
| `Windows.RevenueExact` | examples/06-stream-processing/python/stream-processor/main.py:128-138 | the count is exact and the revenue shown within half a cent of the exact sum, however many orders |
| `Windows.DropShows` | examples/06-stream-processing/python/stream-processor/main.py:65-74 | given agreement so far, a record emits what the batch says exactly unless its window was dropped and it would emit something else in a fresh one |
| `Windows.DropsHiddenExactly` | examples/06-stream-processing/python/stream-processor/main.py:65-74 | whatever stale windows the library drops, all emissions are the batch's: exactly when no order for a stale window would emit something else in a fresh one |
| `Windows.OnTimeHarmless` | examples/06-stream-processing/python/stream-processor/main.py:65-74 | which holds if no record is more than one window length late |
| `Windows.OneMillisecondTooLate` | examples/06-stream-processing/python/stream-processor/main.py:65-74 | one window length is the bound: one millisecond more and a drop can show |
| `Windows.SameContract` | examples/06-stream-processing/dotnet/StreamProcessor/RevenueStream.cs:47-75 | the batch half: the batch and Streamiz keep the same latest record of a window exactly when Streamiz takes all its orders, except that Streamiz also shows windows with invalid totals only |
| `Windows.SameExactly` | examples/06-stream-processing/python/stream-processor/main.py:65-145 | over all drops of stale windows the agent and Streamiz keep the same latest record of a window: exactly when Streamiz takes all its orders and none of them comes when the window is stale, but for those that would emit the same in a fresh one |
| `Windows.HarmlessByKey` | examples/06-stream-processing/python/stream-processor/main.py:65-74 | the condition on stale windows, window by window, is the one for the whole stream |
| `Windows.KeyIsBatch` | examples/06-stream-processing/python/stream-processor/main.py:104-145 | in a window where no drop shows, the agent keeps the batch's record |
| `Windows.DropKeepsLess` | examples/06-stream-processing/python/stream-processor/main.py:65-74 | where one shows, it can keep fewer orders than there are |
| `Windows.StreamizIsSum` | examples/06-stream-processing/dotnet/StreamProcessor/RevenueStream.cs:116-140 | the Streamiz accumulator is the exact count and sum of the orders taken |
| `Windows.UnusableClosesNothing` | examples/06-stream-processing/dotnet/StreamProcessor/RevenueStream.cs:47-52 | a record filtered out before the windows closes none |
| `Windows.RekeyMeans` | examples/06-stream-processing/dotnet/StreamProcessor/RevenueStream.cs:117-131 | the Streamiz key is a merchant exactly when that is a string, the amount being read as the agent does |
| `Fences.Fence` | scripts/deck_text.py:86-93 | the loop ends; the lines are the code between a fence that names the language and one without, of the fewest ticks, three at least, that the code does not contain, all between raw and endraw exactly if the code holds a Liquid delimiter |
| `Fences.LangOf` | scripts/deck_text.py:214-217 | a language has only characters that start no fence |
| `Fences.LangMeans` | scripts/deck_text.py:214-217 | the language is what the part of the chip before a middle dot keeps in lower case |
| `Fences.KeepLangParts` | scripts/deck_text.py:216 | each character that a language may have is kept and every other one dropped |
| `Fences.FencedRegions` | scripts/validate_site.py:145-163 | the nested loops find the regions in order: each starts at a fence and ends at the first line that closes it or else at the last line, and no fence starts outside of them |
| `Fences.MarkMeans` | scripts/validate_site.py:145-163 | a fence is three or more of one of its two characters after blanks, and counts all of them |
| `Fences.ClosesMeans` | scripts/validate_site.py:153-156 | a line closes a fence exactly when it is as many of its characters or more, blanks apart |
| `Fences.CodeStaysInside` | scripts/deck_text.py:87-90 | no line of the code closes the fence around it |
| `Fences.RoundTrip` | scripts/validate_site.py:145-163 | parsing a rendered document finds exactly the spans of its blocks, in order |
| `Fences.SpanHoldsCode` | scripts/deck_text.py:90 | the lines strictly inside a block are its code, which they give back |
| `Fences.SpansHoldCodes` | scripts/validate_site.py:145-163 | in a whole document the lines strictly inside the k-th span are the k-th block's code |
| `Fit.LinesFit` | scripts/deck_edit.py:437-442 | n lines are admitted exactly when top inset, n - 1 pitches and the last glyph box end inside the frame up to two hundredths of a pitch |
| `Fit.ColumnsFit` | scripts/deck_edit.py:443 | n columns are admitted exactly when left inset, n glyph advances and right inset are as wide as the frame at most |
| `Fit.Monotone` | scripts/deck_edit.py:424-444 | for every frame, one line or more, and any number of columns, that fit also fit at every smaller size (a single line at spacings up to 55) |
| `Fit.MonotoneExactly` | scripts/deck_edit.py:424-444 | for any count, none and negative ones included, exactly when that is so |
| `Fit.LowFrame` | scripts/deck_edit.py:442 | so the capacity as a number can shrink with the size once it is negative: a frame lower than its inset |
| `Fit.FitsIsCapacity` | _plans/s12-manifest/tools/gen_fit.py:226-227 | the search's test is the capacity check |
| `Fit.Suggest` | _plans/s12-manifest/tools/gen_fit.py:228-239 | the largest candidate below the present size that fits at the box's spacing, or else the largest that fits at single spacing, or none fits |
| `Fit.SuggestionAccepted` | scripts/deck_edit.py:929-967 | fit_font accepts what is found exactly when it is a half-point size |
| `Fit.SuggestionLargest` | scripts/deck_edit.py:929-967 | no larger half-point size below the present one would be accepted |
| `Pagination.ListOrders` | examples/02-communications/python/order-service/main.py:127-143 | a page exactly for limits 1 to 100, and its cursor |
| `Pagination.PageFollows` | examples/02-communications/python/order-service/main.py:127-143 | a page ascends beyond the cursor, and a full one passes as many rows as it holds |
| `Pagination.PageMisses` | examples/02-communications/python/order-service/main.py:127-143 | a row beyond the cursor is on the page or beyond a full page |
| `Pagination.FollowCursor` | examples/02-communications/python/order-service/main.py:127-143 | under insertions, the walk ascends, sees every row present throughout, and ends, by the rows passed since the table is quiet; without insertions it is the table, every row once |
| `Pagination.AscendingUnique` | examples/02-communications/python/order-service/main.py:127-143 | ascending lists of the same rows are the same list |
| `MaskRaw.Blank` | scripts/validate_site.py:124-126 | a stretch of the buffer is blanked, newlines apart |
| `MaskRaw.MaskRaw` | scripts/validate_site.py:109-134 | exactly what is blanked and reported for any sequence of tags |
| `MaskRaw.SameLines` | scripts/validate_site.py:95-134 | every position has the same line number before and after |
| `MaskRaw.NoProblems` | scripts/validate_site.py:113-130 | nothing is reported exactly when the tags alternate raw and endraw and end closed |
| `MaskRaw.BlankedInBlocks` | scripts/validate_site.py:113-134 | then a character is blanked exactly when it is no newline and lies in a raw block, tags included |
| `Changes.NearestProject` | scripts/ci_changed_projects.py:145-151 | ends with the deepest ancestor that is a project, or there is none |
| `Changes.AddChange` | scripts/ci_changed_projects.py:157-211 | one changed path adds what it selects and removes nothing |
| `Changes.SelectForChanges` | scripts/ci_changed_projects.py:154-212 | the loop joins what the paths select: a project exactly when it is the nearest above some changed file that a build may read, or there is no nearest one of any kind and it is tracked in that file's language directory, or else in its example; a manifest directory, a script and a compose file exactly when some changed file stands for it |
| `Changes.Distributes` | scripts/ci_changed_projects.py:154-212 | the selection of two lists of changes is that of both together |
| `Changes.SelectedWithin` | scripts/ci_changed_projects.py:136-212 | every kind selected is part of the full selection, if what looks like a project where changes look for one is a tracked project file or stands beside one |
| `Changes.WithinExactly` | scripts/ci_changed_projects.py:136-212 | and exactly then, over all lists of changes |
| `Changes.PlainDirsSuffice` | scripts/ci_changed_projects.py:121-151 | which holds if no directory is named like a project file |
| `Changes.MarkerDirectory` | scripts/ci_changed_projects.py:121-133 | a directory named like a project file that makes the two differ, and one that no change reaches |

## Left out

- XML, zip, python-pptx, python-docx and lxml: a run is its text, its colour and one number for the rest of
  its format, a break one number for its format; a missing `a:t` reads as the empty text; hyperlinks and other
  children of a paragraph are not part of the tree.
- Colours are canonical upper-case RRGGBB or unset; other fills, and `val` attributes in lower case, are not modelled.
- Regular expressions: comment shape, compose file names, the raw tag pattern's matches and decimal literals are parameters.
- The size and geometry of a shape: set_code takes the capacity, cut_code the verdict of its capacity check, as a
  parameter; `Fit` models the arithmetic itself. The optional `pt` and `line_spacing` of both ops are left out.
- Replacement.ReplaceInParagraph: the text to find is not empty; with an empty one the scan for matches would not end.
- CutCode.CutCode: of the format of an inserted line the contract says that it is one of the template line's two candidates, and `CutCode.EllipsisParagraph` and `CutCode.EllipsisRun` which one.
- CutCode.SpliceLines: leaves out the checks of the cut lines, which are those of `CutCode.ReadCuts`.
- Companion.Aligns: what difflib promises of its opcodes (they tile both lists, equal ranges match, no two others
  are adjacent) is assumed of the opcode list; images and the list of operations written out are left out, and a table cell is one paragraph.
- Pool: time is a step that may happen to any waiting thread; the memory model, libpq and the constructor's exceptions
  inside a run of the state machine are left out (`Readyz.PgPool.Fill` has the constructor's loop).
- Readyz: PQstatus, PQreset and PQexec are two predicates of the connection.
- Events: one partition's log; Kafka's group protocol is any worker at any time, commits of old workers included; Postgres is
  a table with a unique index; bodies of events, tracing and HTTP are left out. The Python consumers of the same example
  commit without naming a record and are not modelled.
- Windows: when a window expires is what the comment beside the table says, in the stream time of the orders; the library's
  own bookkeeping is not modelled. The records are those of one partition. Sums are exact; the rounding of a Decimal context beyond 28 digits, JSON parsing itself and the text of numbers are left out, as
  are topics, repartitioning and changelogs. In the Streamiz version totals out of decimal's range are excluded.
- Fences: a document is given as its blocks and prose lines; what builds them from slides is left out.
- Pagination: the order of ids is that of real numbers; creating orders is any growth of the table.
- Changes: the working tree is the tracked set, changed paths name files, and git calls are left out.
- Everything else in the repository: diagram generators, data scripts, service plumbing, telemetry, deployment files, the
  other language versions of the examples.
