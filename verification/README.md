# Verus Explorer: the marker pipeline, the probe loop and the page's protocols

A Dafny model of the parts of Verus Explorer that have logic of their own: the nested-section
text protocol that Rust writes and the browser reads, the loop that probes the solver and the
verdict stream that comes out of it, the page's asynchronous protocols, and its codecs. The
browser, rustc, Verus and Z3 are parameters or oracles.

`dafny verify dfyconfig.toml` checks the whole project.

## The marker pipeline

Rust writes lines between `;;> banner` or `;;v banner` and `;;<`. The browser scans them in one
pass, with a stack of open sections and an output buffer it cuts back when a section turns out
to be empty, while it hands out character offsets into that same buffer.

- `Sections` gives the meaning: parse the lines into a forest (any lines, balanced or not),
  prune it bottom-up, print it, and take one fold per surviving section.
- `Scanner` has the loop, `FinalizeBannerBody`, and the proof that it computes that meaning for
  every input. `ScannerLaws` says what follows: ranges cover exactly their section's lines, nest,
  stay valid after later rewinds; content survives; a second scan changes nothing.
- `Walk` and `Queries` have the two Rust producers, both proved against `Grouping` (one section per
  maximal run of equal keys). `Crates.VerifyAndWrite` has the whole way from the modules of a crate
  to the SMT tabs and the headline, and `CutLogs` the same for logs that lose their last lines. `Emission` joins printer and scanner, and `WalkRoundTrip` recovers
  the sorted items from the scanned text.
- `Projection` has `project_smt` on every transcript, `Transcript` on well-formed ones. `FoldMarks`
  says of each fold of an SMT tab what line it stands behind and whether it is closed on arrival.

Lemmas whose names end in `Spelled` state markers, labels and texts as they stand in the code, without
the model's own functions for them.

Text is a sequence of UTF-16 code units here, so that a position is an offset as the page computes
it; `Editor` says where it is once the text is mounted.

## The probe loop and the verdict stream

`Probe` has one check with its two-phase loop against a solver with arbitrary answers, which
panics if it is asked again after the wrong answer and whose narrow probes shrink the set of
enabled labels. `VerdictStream` has whole ops and whole runs: what they ask of the solver, report
and stream is a function of the answers to the checks that the ops' commands ask for, and so are
the page's counts and headline (`HeadlineTells`). The driver loop in `Queries` runs these ops inside
the sections it writes. `VerdictLaws` says by query op and answer what is streamed, reported and
retried, and that no solver call of a run is out of order. Verdicts cross to the page as JSON text (`Json`), written and read back.

## The protocols of the page

`RunProtocol` (overlapping runs), `UrlSave` (overlapping saves, tab changes and edits of the address) and `SavedWork`
(edits, overlapping loads, resets, links) are step relations with an invariant over every
sequence of events. The class beside each has the functions of the page, updating its variables
in place; each of them is proved to take one of those steps.

## Codecs and streams

`Base64` and `HashCodec` have the URL hash (sections 4 and 5 of RFC 4648), `Json` the verdict
objects (section 7 of RFC 8259), `DiagnosticLines` (in `DiagnosticWriter.dfy`) the writer that
cuts a byte stream into lines.

## Where the code differs from its comments or from what one would expect

- `str::lines` also drops a carriage return before each newline. So the projections are not
  idempotent and do not commute on every transcript: `Projection.CarriageReturnsAreNotIdempotent`
  and `Projection.ProjectionsDoNotCommute` have inputs. `ProjectionIsIdempotent` and
  `ProjectionsCommute` say exactly when they are and do, and `BothOrdersLeaveOuterMarkers` exactly
  when both orders leave the markers outside the response blocks as they are.
- The page computes fold ranges on the body it hands to the editor, which makes one newline of each
  `\r\n`. Behind one, a range is looked for at another place than it starts (`Editor.RangesInEditor`).
- The comment at `public/app.js:1495-1497` says that unchecking the auto-run box cancels pending
  work. The listener does not clear the timer, and the timer's run does not look at the box:
  `RunProtocol.TypingThenUnchecking` has a schedule, and `RunProtocol.UncheckingCancels` says
  exactly when unchecking does cancel.
- The comment at `public/app.js:1313-1314` says that the URL is saved after a successful verify.
  `runWith` saves after a trap too: `RunProtocol.TrappedRunIsSaved` has a schedule, and
  `RunProtocol.SavedOnlyAfterSuccess` the exact condition.
- Loads of examples are not ordered: the page ends on the one whose text arrives last
  (`SavedWork.LastArrivalWins`). What is stored stays right in either order.
- The dirty flag looks at typing and deleting only. Undoing a reset brings the edited text back,
  stores it, and leaves the flag clear, so Reset stays hidden: `SavedWork.UndoneResetLooksClean`.
  `SavedWork.CleanKept` says for which steps, and no others, the flag goes wrong.

## Model

| member | source | states |
|---|---|---|
| Scanner.FinalizeBannerBody | public/app.js:1701-1742 | the one-pass scan with rewinds returns, for every body, the recursive meaning: parse, prune, print, one fold per surviving section |
| Scanner.Emit | public/app.js:1710-1716 | a range is pushed only if something follows the banner, and also on the automatic list if the marker asks for it |
| Scanner.ScanFollowsParse | public/app.js:1717-1740 | from any state, scanning lines equals printing the pruned forest they parse to and going on behind its close |
| Scanner.ScanComputesMeaning | public/app.js:1701-1742 | from the empty state, buffer and folds are those of the pruned parse, and no section is left on the stack |
| Sections.ParseAllMarked | public/app.js:1683-1685 | the parser gives back every balanced forest from its marked lines |
| Sections.PruneDropsLineless | public/app.js:1726-1735 | on balanced texts the bottom-up pruning drops exactly the sections without a content line at any depth |
| Sections.PrunedSectionsHaveLine | public/app.js:1726-1735 | each section that is left leads to a content line |
| Sections.PruneDropsEmpty | public/app.js:1726-1740 | on every text, balanced or not, it drops exactly the closed sections that hold neither a content line nor a section that is never closed |
| Sections.ParseIsExact | public/app.js:1717-1740 | any lines parse to the one forest that is open at most at its end and reads as those lines, less the closes that close nothing |
| Sections.MarkersAreSpelled | public/app.js:1683-1685 | the opening and closing lines, spelled out, and which opening lines fold by themselves |
| ScannerLaws.RangesAreSections | public/app.js:1701-1742 | for every body, the ranges are the surviving sections, one each and in order; the line in front of a range is the banner without its third character, the range spans exactly the section's printed lines, and it is automatic iff that character was `>` |
| ScannerLaws.RangesStayValid | public/app.js:1701-1742 | for every body, balanced or not, each range starts at the newline behind a line that begins `;;`, ends at a line end of the final text, and any two nest strictly or are disjoint; the automatic list is a subsequence |
| ScannerLaws.FoldLookupIsUnambiguous | public/app.js:882-893 | two different ranges of one body never start at the same position |
| ScannerLaws.SectionFold | public/app.js:882-893 | the lookup finds a range iff one starts at the line end, and the longest such |
| Editor.MountedUnchanged | public/app.js:978-983 | the editor mounts a body as it is iff the body has no carriage return |
| Editor.NormalIsSpelled | public/app.js:978-983 | mounting makes one newline of each `\r\n` and of each other `\r`, and changes nothing else |
| Editor.RangesInEditor | public/app.js:882-893 | the newline at which a range starts is in the editor where the range says iff no `\r\n` comes before its end |
| ScannerLaws.ScanKeepsContent | public/app.js:1701-1742 | rewinds remove only banners: the plain lines of the input are all printed, in order, and the text is the printed lines without leading blank ones |
| ScannerLaws.BodyIsSpelled | public/app.js:1686-1742 | for every body, the text that is shown is the lines that are kept, each opening line without its third character and each close left out, joined behind the blank ones at the start |
| ScannerLaws.DropsOnlyBlanks | public/app.js:1706-1709 | at the start exactly the blank lines are left out |
| ScannerLaws.ScanIsIdempotent | public/app.js:1683-1742 | scanning a cleaned body again returns it unchanged, without ranges |
| Emission.WrittenForestIsShown | verus-explorer/src/util.rs:32-36 | writing a balanced forest, trimming it and scanning it shows its meaning and leaves no section open |
| CodeUnits.TrimEndIsExact | verus-explorer/src/util.rs:32-36 | trimming takes white space only, and all of it at the end |
| Grouping.LoopWritesGroups | verus-explorer/src/util.rs:104-139 | a loop that remembers only the open key writes one section around each maximal run |
| Grouping.GroupedIsBlocks | verus-explorer/src/util.rs:104-139 | the wrappers are in one-to-one correspondence with the maximal runs, and neighbouring wrappers have different keys |
| Walk.WalkBuilder.constructor | verus-explorer/src/util.rs:71-73 | a new builder has no items |
| Walk.WalkBuilder.AddItem | verus-explorer/src/util.rs:75-90 | the item is added at the end |
| Walk.WalkBuilder.PushItem | verus-explorer/src/util.rs:119-135 | an item is written as its banner, its lines, the last one ended, and a close |
| Walk.WalkBuilder.Finish | verus-explorer/src/util.rs:92-141 | the items end up stably sorted and the text is that of the grouped sections of the sorted items |
| Walk.SortIsSortedAndStable | verus-explorer/src/util.rs:98-101 | external crates first in name order, locals last, and the items of each crate are the ones added, in walk order |
| Walk.SortedAndStableIsUnique | verus-explorer/src/util.rs:98-101 | sortedness and stability determine the result, so the sorting algorithm does not matter |
| Walk.SortedByCrate | verus-explorer/src/util.rs:98-101 | no local item comes before an external one, and externals are in name order |
| Walk.OrderIsByCodePoint | verus-explorer/src/util.rs:98-101 | names are ordered by the code points at their first difference, and a prefix comes first |
| Walk.KeysAreSpelled | verus-explorer/src/util.rs:105 | two items are in one run iff they are of one external crate and one kind |
| Walk.BannersAreSpelled | verus-explorer/src/util.rs:110-130 | the banners as written: marker by origin, kind, name or crate, and the span if there is one |
| WalkRoundTrip.ScanRecoversWalk | verus-explorer/src/util.rs:92-141 | across the two languages: scanning the trimmed output leaves no section open and has one range per inventory entry; behind the line `;; kind name span` of an item, or `;; kind crate` of a run, it covers exactly the text, or the items with theirs, and is automatic iff external |
| WalkRoundTrip.ScanRecoversWalks | verus-explorer/src/verus.rs:491-503 | the same for a body into which any number of finished walks were pushed |
| WalkRoundTrip.DumpWalks | verus-explorer/src/verus.rs:496-503 | the dumps of the modules are the finished walks, one behind the other |
| WalkRoundTrip.InventoryListsItems | verus-explorer/src/util.rs:104-136 | the inventory lists exactly the non-empty items, once each and in order |
| WalkRoundTrip.InventoryListsRuns | verus-explorer/src/util.rs:105-118 | and exactly the maximal external runs of one crate and kind that hold a non-empty item |
| WalkRoundTrip.RunsAreMaximal | verus-explorer/src/util.rs:105-118 | the runs partition the items into non-empty blocks of one key, with different keys side by side |
| WalkRoundTrip.WalkIsTwoDeep | verus-explorer/src/util.rs:104-139 | no section is nested more than two deep |
| Projection.ProjectSmt | verus-explorer/src/verus.rs:987-1025 | the loop keeps, line by line, response blocks for one view and everything else for the other, markers outside the blocks in both |
| Projection.ViewsAreSpelled | verus-explorer/src/verus.rs:987-1025 | for every transcript of commands, markers and responses that open with `;;> response `: the query view is the text of the commands and markers, the response view that of the responses and markers |
| Projection.RustLinesAreSpelled | verus-explorer/src/verus.rs:990 | lines end at a newline, less one carriage return before it; a last line without one is kept as it is |
| Projection.ViewsSplitTranscript | verus-explorer/src/verus.rs:987-1025 | on every transcript both views keep the line order and every line that is no marker goes to exactly one of them |
| Projection.ProjectionIsIdempotent | verus-explorer/src/verus.rs:987-1025 | a view projects to itself if and only if no line of the transcript that the view keeps ends in a carriage return |
| Projection.CarriageReturnsAreNotIdempotent | verus-explorer/src/verus.rs:990 | an input on which it does not |
| Projection.BothOrdersLeaveOuterMarkers | verus-explorer/src/verus.rs:987-1025 | both orders of the two projections give the marker lines outside the response blocks if and only if no carriage return stands where it could be read as part of a marker |
| Projection.ProjectionsCommute | verus-explorer/src/verus.rs:987-1025 | the two orders agree if and only if, in one pass over the lines, nothing but closes strays from its block and those that stray and those that come late balance wherever another line is shown by both |
| Projection.OrdersByCount | verus-explorer/src/verus.rs:987-1025 | the two orders differ whenever late closes and strays differ in number; without either, both give the outer markers, each less a carriage return |
| Projection.ProjectionsDoNotCommute | verus-explorer/src/verus.rs:990 | an input on which the two orders differ |
| Projection.NoReturnsIsClean | verus-explorer/src/verus.rs:987-1025 | transcripts without carriage returns satisfy the conditions of both equivalences |
| Projection.NoReturnsAgree | verus-explorer/src/verus.rs:987-1025 | and those under which the two orders agree |
| Transcript.ProjectionsOfTranscript | verus-explorer/src/verus.rs:987-1025 | on well-formed transcripts both views are balanced, over the same sections that are no responses; one holds the commands and the other the responses, all of them in order |
| Transcript.ResponseTabShowsResponses | public/app.js:1726-1735 | every section left in the scanned response view leads to a line of a response, and the lines shown are those of the responses |
| Queries.RunQueries | verus-explorer/src/verus.rs:622-700 | wherever a run stops, what reaches the output is the prelude and one section per executed op, grouped by crate and balanced, and the solver's calls, the page's verdicts and the reports are those of the checks of the same ops; if the prelude fails, nothing reaches either |
| Queries.RunGroups | verus-explorer/src/verus.rs:658-694 | success iff no call of the generator and no op failed; closing the wrapper it leaves open completes the log; exactly the executed ops were handled |
| Queries.RunOps | verus-explorer/src/verus.rs:661-686 | the ops of one function up to the first that fails, with the wrapper rotated as the crate changes, are written and handled |
| Queries.RunOp | verus-explorer/src/verus.rs:662-684 | the op is handled inside its own section, which is closed whether the op fails or not |
| Queries.VerifyOutput.Drain | verus-explorer/src/verus.rs:390-396 | draining moves the log behind what the output holds |
| Queries.WrappersNameTheirCrates | verus-explorer/src/verus.rs:645-671 | each local op is a section of its own, each external op is in a wrapper that names its crate, and wrappers side by side name different crates |
| Queries.FeedsAreSpelled | verus-explorer/src/verus.rs:639 | every command of the prelude is fed |
| Queries.ExecutedIsPrefix | verus-explorer/src/verus.rs:658-689 | what runs is a prefix of the ops yielded, up to and including the first that fails |
| FoldMarks.TabFoldsAreSpelled | verus-explorer/src/verus.rs:645-684 | in each SMT tab of a crate, every fold stands behind its own label; the prelude's and every wrapper's are closed on arrival, an op's iff it is a context op of an external crate |
| Crates.VerifyModule | verus-explorer/src/verus.rs:550-580 | what a module adds to the output is its options, its prelude and its ops, or nothing if its start fails; what it asks of its solver and what reaches the page are those of the checks of the same ops |
| Crates.VerifyCrate | verus-explorer/src/verus.rs:459-474 | the output holds the logs of the modules up to the first failure, one behind the other, and the page the verdicts of the same ops; all succeed iff the run does |
| Crates.ReachedIsPrefix | verus-explorer/src/verus.rs:459-472 | the modules that reach the output are a prefix, cut before one whose start fails or behind the first other failure |
| Crates.ModuleWellFormed | verus-explorer/src/verus.rs:554-576 | the log of every module, option lines included, is a well-formed transcript, wherever its run stopped |
| Crates.CrateWellFormed | verus-explorer/src/verus.rs:459-474 | and so are the logs of several modules in one output |
| Crates.LogReachesTabs | verus-explorer/src/verus.rs:950-958 | the query tab of a log shows its commands and the response tab its responses, all of them, each under its sections |
| Crates.EmitSection | verus-explorer/src/verus.rs:969-974 | a blank body has no tab, any other is trimmed and scanned |
| Crates.VerifyAndWrite | verus-explorer/src/verus.rs:950-976 | from the driver through projection, trimming and scan: the three SMT tabs are the meanings of the two views and of the log of all modules that were reached, and the headline tells of the checks of exactly their executed ops |
| CutLogs.ParseOpenEnded | public/app.js:1717-1740 | the parser reads every forest whose last sections are still open off its marked lines |
| CutLogs.ProjectionIsCut | verus-explorer/src/verus.rs:987-1025 | on every transcript and for every place to cut it, the projection of the whole is that of the first part followed by that of the rest |
| CutLogs.OpenLogReachesTabs | verus-explorer/src/verus.rs:987-1025 | a log that stops early reaches its tabs as the views of what is there: open sections stay, even empty ones, and every command or response line that is there is shown |
| CutLogs.LostCloses | public/app.js:1740 | a log that loses nothing but closes keeps all its commands and responses |
| CutLogs.CutLogsReachTabs | verus-explorer/src/verus.rs:950-976 | the tabs when the log of each module of a crate is cut behind some line, and if only closes are lost they show every command and every response |
| Probe.CheckAndProbe | verus-explorer/src/verus.rs:799-902 | the loop ends; its calls, reports, verdicts, failed ids and flags are the stated functions of the answers; it asks again only after a failure with model and message, and finishes the query once |
| Probe.RecordAnswer | verus-explorer/src/verus.rs:821-872 | one turn adds one answer to all of them |
| Probe.ReportAnswer | verus-explorer/src/verus.rs:821-834 | the error goes out at the op's level, the hint only behind the first |
| Probe.StreamAnswer | verus-explorer/src/verus.rs:858-872 | the first answer and each further failure of an error-level check arrive on the page as the verdict that was sent |
| Probe.Solver.CheckValidAgain | verus-explorer/src/verus.rs:810-816 | what is assumed of the solver: it panics unless the last answer is a failure with model and message, and narrow probes shrink the enabled labels or end the probing |
| VerdictStream.HandleOp | verus-explorer/src/verus.rs:733-939 | every check command of an op is one finished check in its own context; its calls, verdicts, reports with hints, failed ids, retry and expansion report follow from the answers |
| VerdictStream.HandleBatch | verus-explorer/src/verus.rs:786-904 | the same for the commands of one context, on top of those before |
| VerdictStream.HandleCommand | verus-explorer/src/verus.rs:798-903 | one command is fed, and a check command is probed to its end |
| VerdictStream.AnsweredChecks | verus-explorer/src/verus.rs:798-903 | there is one finished check per check command, each of its own op |
| VerdictLaws.CountsUnlessRecommends | verus-explorer/src/verus.rs:771-785 | an op counts iff it is a query, no recommends op, and asks for a check |
| VerdictLaws.StreamsUnlessRecommends | verus-explorer/src/verus.rs:785-872 | an op streams verdicts iff it counts |
| VerdictLaws.CommandsAreSpelled | verus-explorer/src/verus.rs:786-799 | every command of every context is meant, in order, with its context's hint and prover |
| VerdictLaws.ContextIsSpelled | verus-explorer/src/verus.rs:762 | a context op has nothing but commands to feed |
| VerdictLaws.VerdictsAreAnswers | verus-explorer/src/verus.rs:847-872 | a check that counts streams its answers in order, but for a valid one at the end of probing |
| VerdictLaws.VerdictIsSpelled | verus-explorer/src/verus.rs:268-301 | all five fields of a verdict, by the query op and the answer |
| VerdictLaws.ReportsAreSpelled | verus-explorer/src/verus.rs:771-834 | a check's messages go out in order, as notes or warnings for the two recommends ops and as errors for all others; the hint follows the first answer's message as a note and nothing else |
| VerdictLaws.FailedIdsAreSpelled | verus-explorer/src/verus.rs:839-843 | failed assertions are collected in order, from the default prover only |
| VerdictLaws.FollowUpIsSpelled | verus-explorer/src/verus.rs:910-930 | recommends are retried iff a body or termination query streamed a verdict that is not proved; an expanded query reports timeout, pass or fail by its verdicts |
| VerdictLaws.RunIsOrderly | verus-explorer/src/verus.rs:799-902 | over a run, no solver call is out of order, every check is finished once, there is one per check command, and every other command is fed |
| VerdictStream.RunNext | verus-explorer/src/verus.rs:661-686 | one more op adds to the solver's calls, the page's verdicts and the reports exactly those of the checks that its commands ask for |
| VerdictStream.HeadlineTells | public/app.js:580-601 | for every run, the headline says verified iff some op that counts asked for a check and all their checks were valid at first; otherwise it counts first answers that were valid and all answers that were not |
| VerdictStream.ProbesAreBroadThenNarrow | verus-explorer/src/verus.rs:817-901 | a check asks once, then probes broadly at most seven times and narrowly from then on, each probe after an answer that allows one |
| VerdictStream.OneCheckStreams | verus-explorer/src/verus.rs:847-872 | a check streams exactly one valid answer or a non-empty list of failures |
| VerdictStream.PageCountsAnswers | public/app.js:580-583 | over every run, passed counts the checks whose first answer was valid and failed counts all other answers |
| VerdictStream.VerifiedMeansAllValid | public/app.js:580-601 | the page says verified iff some check counted and all that counted were valid at first |
| Json.JsonEscape | verus-explorer/src/verus.rs:237-254 | the loop computes the escaped text |
| Json.EscapedIsClean | verus-explorer/src/verus.rs:237-254 | escaped text has no raw control character, and each quote in it stands behind an odd number of backslashes |
| Json.EscapesAreSpelled | verus-explorer/src/verus.rs:237-254 | the escapes, spelled out |
| Json.ReadEscaped | public/app.js:1120-1123 | a string reader gets the original text back and stops at the right quote |
| Json.VerdictRoundTrip | verus-explorer/src/verus.rs:304-313 | reading the object that was written gives back all five fields, whatever the texts |
| Json.ToJsonIsSpelled | verus-explorer/src/verus.rs:304-313 | the object as the format string lays it out |
| RunProtocol.EveryRunKeeps | public/app.js:1198-1262 | the invariant over every interleaving of starts, resumptions, edits, timers and traps |
| RunProtocol.NewestRunWins | public/app.js:1198-1262 | only the newest run executes, executed ids increase, shown output is of one run, the button is disabled iff the newest run is pending |
| RunProtocol.OutputIsOfOneRun | public/app.js:1225-1246 | a resumed run shows exactly its own output if it is the newest and changes nothing if it is not |
| RunProtocol.StartDisarmsTimer | public/app.js:1205-1206 | no start leaves the timer armed |
| RunProtocol.StartsAreSpelled | public/app.js:1198-1224 | which events start a run, and what a start does; no other event takes a number; an edit arms the timer iff the box is checked |
| RunProtocol.OutputIsSpelled | public/app.js:1230-1246 | a run that traps keeps what it had written, with the trap's entry behind it |
| RunProtocol.UncheckedTimerStillFires | public/app.js:1493-1499 | after unchecking the box, the timer starts a run iff it was armed and something is loaded |
| RunProtocol.UncheckingCancels | public/app.js:1493-1499 | unchecking the box rules out every further unasked run iff no timer was armed or nothing is loaded |
| RunProtocol.TypingThenUnchecking | public/app.js:1493-1514 | a schedule on which the unchecked box still starts a run |
| RunProtocol.ResumedIsSaved | public/app.js:1226-1261 | a run that resumes is saved iff it is the newest, finished or trapped |
| RunProtocol.TrappedRunIsSaved | public/app.js:1230-1261 | a schedule on which a trapped run is saved |
| RunProtocol.SavedOnlyAfterSuccess | public/app.js:1226-1261 | only finished runs were saved iff the newest run never trapped |
| RunProtocol.Page.constructor | public/app.js:1198-1206 | the page before anything has happened |
| RunProtocol.Page.RunWith | public/app.js:1198-1225 | the part before the `await` is a start |
| RunProtocol.Page.Resumed | public/app.js:1225-1262 | the part behind it is a resumption |
| RunProtocol.Page.ScheduleAutoVerify | public/app.js:1510-1514 | an edit re-arms the timer iff the box is checked |
| RunProtocol.Page.AutoChanged | public/app.js:1493-1499 | checking the box starts a run |
| UrlSave.EveryRunKeeps | public/app.js:1332-1367 | the invariant over every interleaving of edits, saves, encode completions in any order, resumptions and tab changes |
| UrlSave.UrlCarriesLastSave | public/app.js:1352-1357 | written generations increase; unless the user or a link changed it since, the URL reads back as the document of the last save written with the current tab; with no save in flight that is the most recent save call iff that one did not fail |
| UrlSave.WriteRestoresStep | public/app.js:1352-1357 | only the newest save is written, and its write puts the URL back in step whatever the user did to it |
| UrlSave.TabWriteKeepsHead | public/app.js:1361-1367 | a tab write never changes what the URL says the document is |
| UrlSave.TabWriteOnOwnHash | public/app.js:1361-1367 | on a hash the page wrote, it gives the hash of the same document with the other tab |
| UrlSave.TabWriteIsSpelled | public/app.js:1361-1367 | on a hash of any form with a head, a tab write keeps the head and replaces all behind it by the tab |
| UrlSave.NoHeadNoWrite | public/app.js:1361-1366 | without a head the URL stays as it is |
| UrlSave.StartIsSpelled | public/app.js:1332-1338 | the page before its first save, with the URL, tab and document it starts with |
| UrlSave.EventsAreSpelled | public/app.js:1344-1367 | what each event sets |
| UrlSave.SnapshotIsOfTheCall | public/app.js:1344-1357 | a save holds the document as it was at the call, whatever happens meanwhile |
| UrlSave.Page.constructor | public/app.js:1332-1338 | a page before its first save |
| UrlSave.Page.SaveHashNow | public/app.js:1352-1354 | the part before the `await` takes the next generation and reads the document |
| UrlSave.Page.Built | public/app.js:1344-1347 | the hash is built with the tab shown when the encoding ends |
| UrlSave.Page.Resumed | public/app.js:1355-1357 | the part behind the `await` writes the URL only for the newest generation |
| UrlSave.Page.BuildFailed | public/app.js:1352-1357 | a save whose text cannot be encoded ends without a write |
| UrlSave.Page.OpenLink | public/app.js:1836-1851 | a link's tab and text are taken over and saved |
| UrlSave.Page.ShowTab | public/app.js:1361-1367 | a tab change rewrites the end of the hash, and an empty head is left alone |
| Base64.B64UrlEncode | public/app.js:1290-1294 | the encoder computes the URL-safe text |
| Base64.B64UrlDecode | public/app.js:1295-1302 | the decoder computes its bytes, or fails as `atob` does |
| Base64.AtobBtoa | public/app.js:1293-1298 | decoding undoes encoding, with padding (RFC 4648, section 4) |
| Base64.UrlEncodeIsUnpadded | public/app.js:1293 | the URL text is the standard one without padding over the URL-safe alphabet (RFC 4648, section 5) |
| Base64.UrlRoundTrip | public/app.js:1290-1302 | the page's decoder inverts its encoder for every byte sequence |
| Base64.AlphabetIsSpelled | public/app.js:1293 | both alphabets |
| Base64.PackingIsSpelled | public/app.js:1293 | three bytes and four sextets are the same 24 bits, most significant first |
| Base64.PaddingIsSpelled | public/app.js:1293 | test vectors of RFC 4648, section 10, for the lengths that need padding |
| Base64.AtobRejects | public/app.js:1298 | a foreign character is an error wherever it stands |
| HashCodec.Parse | public/app.js:1373-1401 | the reader, with its loop over the parts: the last known tab wins |
| HashCodec.HashRoundTrip | public/app.js:1344-1347 | a hash the page wrote reads back as the same tab and as what decompression gives of the compressed source, which is the source if the two are inverse |
| HashCodec.HashIsSpelled | public/app.js:1339-1347 | the hash as it is written |
| HashCodec.SourceForm | public/app.js:1380-1383 | the form that names an example opens it with its tab, and an unknown name is an error |
| HashCodec.BadText | public/app.js:1374-1393 | a text that cannot be decoded is an error in either form |
| HashCodec.LastTabWins | public/app.js:1394-1399 | one more part sets the tab iff it names one, and otherwise changes nothing |
| HashCodec.BareTextRoundTrip | public/app.js:1384-1389 | a bare encoded text is never taken for a `code=` or `source=` head, and reads back |
| DiagnosticLines.DiagnosticWriter.constructor | verus-explorer/src/rust.rs:239-241 | a new writer has nothing pending |
| DiagnosticLines.DiagnosticWriter.EmitCompleteLines | verus-explorer/src/rust.rs:242-250 | the finished lines of what is pending go out, empty ones excepted, and the unfinished rest stays |
| DiagnosticLines.DiagnosticWriter.Write | verus-explorer/src/rust.rs:254-258 | after a write, all finished lines of everything written are out and the unfinished one is pending |
| DiagnosticLines.DiagnosticWriter.Flush | verus-explorer/src/rust.rs:259-262 | a flush between calls changes nothing |
| DiagnosticLines.DiagnosticWriter.Drop | verus-explorer/src/rust.rs:265-272 | at the end the host has exactly the non-empty segments of the whole stream |
| DiagnosticLines.Stream | verus-explorer/src/rust.rs:234-272 | for every run of writes and flushes, the result depends only on the concatenated bytes |
| DiagnosticLines.ConcatIsSpelled | verus-explorer/src/rust.rs:254-262 | the stream of a run of calls is what its writes wrote, in order |
| DiagnosticLines.CutIsUnique | verus-explorer/src/rust.rs:242-250 | there is one way to read a stream as finished lines and an unfinished rest |
| DiagnosticLines.NothingIsWithheld | verus-explorer/src/rust.rs:242-250 | what is pending has no newline, and with the finished lines it is the whole stream |
| DiagnosticLines.LineEndIsNewline | verus-explorer/src/rust.rs:243 | lines end at a newline |
| DiagnosticLines.NoEmptyIsHandedOn | verus-explorer/src/rust.rs:243-249 | no empty line is handed on, and lists without one are handed on as they are |
| DiagnosticLines.EmptyIsLeftOut | verus-explorer/src/rust.rs:243-249 | an empty line makes no difference |
| SavedWork.EveryRunKeeps | public/app.js:1541-1562 | over every run, loading the current example again would show what the editor shows, and Reset would restore its own text |
| SavedWork.LoadShowsLastHeld | public/app.js:1618-1624 | after every run, a load that arrives shows the text the example last held, or what was stored or shipped before |
| SavedWork.ShowsLastHeld | public/app.js:1618-1649 | the stored texts are, for every example at once, the texts last held |
| SavedWork.OthersUntouched | public/app.js:1557-1559 | no step touches what is stored for another example |
| SavedWork.ResetRestores | public/app.js:1641-1649 | a reset shows the shipped text, and so does the next load |
| SavedWork.EditIsSpelled | public/app.js:1541-1562 | an edit is shown, stored under the loaded example if there is one, and marked iff it is typed |
| SavedWork.ArrivalIsSpelled | public/app.js:1620-1629 | a load prefers the stored text and is marked iff that differs from the shipped one |
| SavedWork.ResetIsSpelled | public/app.js:1641-1646 | what a reset and a text from a link show and store |
| SavedWork.StartIsSpelled | public/app.js:1461-1482 | what the page shows at start-up, and whether it is marked |
| SavedWork.LastArrivalWins | public/app.js:1618-1624 | of two loads under way, the one that arrives last stays |
| SavedWork.LoadedIsLastMounted | public/app.js:1618-1624 | over every run, the loaded example is the one whose text arrived last, or none if a link's text came after it |
| SavedWork.FetchingIsUnderWay | public/app.js:1618-1620 | the loads under way are those requested, less those that arrived or failed |
| SavedWork.CleanKept | public/app.js:1548-1550 | a clear dirty flag keeps meaning that the text is the shipped one, exactly unless a change without a user event leaves another text |
| SavedWork.CleanUnlessSilent | public/app.js:1541-1562 | over every run, a clear flag means the shipped text after every event iff no event changes a clean text silently; typed edits never do |
| SavedWork.UndoneResetLooksClean | public/app.js:1548-1550 | undoing a reset stores the edited text and leaves the flag clear |
| SavedWork.InitialHolds | public/app.js:1461-1482 | the invariant holds after start-up, with an example or with a text from the link |
| SavedWork.Page.DocChanged | public/app.js:1541-1562 | the listener stores the new text under the loaded example, if any |
| SavedWork.Page.UserEdit | public/app.js:1541-1562 | an edit by the user is an edit step |
| SavedWork.Page.SetEditorText | public/app.js:1612-1614 | mounting a text stores it through the listener, unless nothing replaces nothing |
| SavedWork.Page.LoadSource | public/app.js:1618-1620 | a load of an unknown file is ignored |
| SavedWork.Page.Fetched | public/app.js:1620-1629 | the part behind the fetch mounts the stored text before the shipped one |
| SavedWork.Page.ResetSource | public/app.js:1641-1649 | the stored text is dropped, the shipped one mounted |
| SavedWork.Page.OpenLink | public/app.js:1844-1851 | a text from a link is held by no example |

## Left out

- rustc, Verus, AIR, Miri and Z3: solver answers, op generation and item walks are inputs; what `handle_op` writes to the log is an arbitrary well-formed piece of transcript.
- Crates.VerifyAndWrite: assumes that the emitter's lines are well formed (closed sections, response bodies without marker lines, labels on one line that do not begin like a response) and that the solver context writes the opening line of the prelude's section, because both happen upstream.
- Crates.VerifyAndWrite: has every line of the log. The SMT log can lose those behind its last `(check-sat)`, which nothing flushes (`verus-explorer/tests/smoke.rs:226-230`); CutLogsReachTabs is about such logs.
- CutLogs.CutLogsReachTabs: assumes that only the last log is cut inside a response and that the last line of a tab does not end in white space, which trimming would take away.
- WalkRoundTrip.ScanRecoversWalk: assumes item texts without marker lines and labels on one line, as the walks produce them.
- Queries.Log: the four logs get the same section stream and are modelled as one.
- Probe.Solver.CheckValidAgain: is the assumed contract of the solver, whose code is not part of this model.
- Walk.WalkBuilder.Finish: sorts by a stable insertion sort in place of the library's `sort_by`; any sort with the same contract gives the same list (SortedAndStableIsUnique).
- HashCodec.HashRoundTrip: compression is an arbitrary pair of functions; UTF-8 encoding, which replaces lone surrogates and drops a leading byte order mark on the way back, is part of that pair.
- UrlSave.UrlCarriesLastSave: tab changes are assumed not to fall between the end of an encoding and the continuation waiting for it, which share one turn of the event loop.
- The text of a copied link while a save is in flight.
- Json.ReadEscaped: the reader knows the escapes the writer uses and all others of the standard except pairs of escaped surrogates.
- DiagnosticLines.Stream: the lossy UTF-8 decoding of each line is left out; lines are byte sequences.
- Expand-errors: the driver is upstream, only the flag that reports to it is modelled.
- The crossing from UTF-8 to UTF-16 between the two languages, and the fold-flag path of `verus_dump`.
- SavedWork.Page.Fetched: the editor's line endings are modelled (`\r\n` and `\r` become `\n`), its history is not: undoing is an edit with an arbitrary text.
- Storage that is full or changed by another browser tab.
- Timing: timers are armed or not, and durations are not modelled.
- The DOM, tab rendering, decorations, downloads, build scripts, configuration and the AST, HIR and MIR dumps.
