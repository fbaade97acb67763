# fxi: a model of the indexed code search engine

fxi keeps an index of a source tree and answers queries from it. Its fast forms
must agree with a simple one: read every live file and search it. The modules
here model the parts that make this hold, in the shape the source has them
(classes where it updates fields, loops where it loops, functions where it
computes), and prove that they do.

- **Extraction and index**: `Processing`, `Tokenizer`, `Trigrams`, `Words`,
  `Extraction`, `Index`.
- **Lifecycle**: `Debouncer`, `Watcher` (batches), `Daemon`, `DeltaWriter`,
  `DeltaSafety`, `Compact`, `CompactSafety`, `StopGrams`, `Fragmentation` (when
  an index is compacted), and `WatchPipeline`,
  which is all of them as one system over every run; `Build`, `FullBuild` and
  `Updates` are the command line's way, `Handover` the passage between the two.
- **Queries**: `QueryTree`, `Parser`, `Printing`, `Planner`, `RegexPrefix`,
  `Executor`, `Search`, `Narrowing`, `Losses`, `WordLosses`, `WordSearch`,
  `FilesOnly`; scanning files in `Scanner` and `Verify`; lookups in `Reader`,
  `Phrases` and `Bloom`. `Candidates` and `Matches` say of every query, from the
  text of a file alone, whether it is a candidate and which matches it shows;
  `LooseQueries` is about queries cut short.
- **Bytes**: `Encoding`, `Bytes`, the two segment pipelines (`SegmentBuilder`
  against `Grouping`, `FlatWriter`, `Pipelines`), their files (`SegmentFile`,
  `TokenFile`, `SegmentBloom`, `LineMap`) and `SegmentAgreement`.
- **Protocol**: `Framing`, `Client`, `Protocol`.
- `DiskSearch`, `WatchSearch` and `EveryQuery` compose them: searching the index
  is reading the files, and for each query which of them.

The index is a value: a document table, a path store and segments of postings.
What it knows of a path (`Index.Lookup`, `Index.LiveTrigrams`) is what every
lifecycle theorem is stated in; what a search may count on
(`Narrowing.UpToDate`) follows from it. Files are a map from paths to contents
and times, bitmaps are sets, hashing and the regex engine are arbitrary
functions, threads are interleaved steps, and the order of a hash map is any
order. `dafny verify dfyconfig.toml` checks the project.

## Where the code does not do what it is for

Each of these is proved, with the condition under which the code does meet the
property.

- After a second compaction a trigram stripped by the first is declared usable
  again unless it is still in more than half of the documents
  (`StopGrams.TrustedIff`, `ForgottenRun`).
- A phrase of several words that starts or ends with a word loses the files in
  which that word is part of a longer one (`Losses.PhraseNeverLosesIff`, and
  `Losses.PhraseCandidateIff` for one file).
- A single word with a letter, or of two bytes, loses files that have it inside a
  longer word in another case (`WordLosses.WordNeverLosesIff`).
- An Or with a branch too short to narrow loses that branch's files
  (`Losses.OrNeverLosesIff`), and a negated filter beside a narrowing term loses
  everything (`Losses.NotFilterNeverLosesIff`).
- Files that are not UTF-8 are indexed but no search reads them
  (`DiskSearch.ReportedIsText`).
- A pattern that starts with two anchors narrows by text it does not require
  (`RegexPrefix.TwoAnchorsLie`).
- Listing files and showing lines disagree on phrases that no line can hold
  (`Verify.PhraseAgreesIff`).
- A complaint without a request id settles whatever request is oldest
  (`Protocol.RightIff`).
- The watcher thread passes over events of paths that are no files, so deletions
  are missed and a file deleted and created again is indexed twice
  (`WatchPipeline.SkipKeepsIff`, `SkippedDeletion`).
- A rebuild does not take back batches already queued, and creations among them
  are indexed twice (`WatchPipeline.RebuildKeepsIff`, `RebuiltThenFlushedIff`).
- The daemon drops every batch for an index without documents
  (`WatchPipeline.DropKeepsIff`, `TakenMeetsDiskIff`, `EmptyNeverFills`), and
  records nanoseconds where the scan compares seconds (`Handover.NextScanRereads`).
- The filtering position decoder steps over varints that stop the plain one
  (`Encoding.FilteredIsRetainIff`).

## Model

| member | source | states |
|---|---|---|
| WatchSearch.SettledSearchIsGrep | src/server/daemon_core.rs:269-334 | In every run of events, debouncing, batches, flushes, drops, rebuilds and compactions in which no step loses anything (Keeps) and at most one compaction has come since the last rebuild: once nothing is pending, a case-sensitive search for a tree of exact phrases and regexes, with any filters, reports a path exactly when reading the file there shows something in the lines asked for. Nothing is asked of files elsewhere |
| WatchSearch.UpdatedSearchIsGrep | src/index/build.rs:567-638 | The same after any sequence of scans, incremental updates that may end in a compaction, and full builds, while the files change, if a path never has two contents under one time and at most one compaction has come since the last full build |
| EveryQuery.CaughtSearchIff | src/query/executor.rs:195-281 | On an index that has caught up, for every query tree that says something, with and without -i and with any filters: a path is reported exactly when the file there is a text that narrows by the stop-grams and the tree alone (Candidates.Fits and Barred), passes the filters and shows something in the lines asked for, or through a buried document, which needs a buried document and no filter |
| EveryQuery.SettledSearchIff | src/server/daemon_core.rs:269-334 | The same of the state a careful run of the watch pipeline settles in |
| EveryQuery.UpdatedSearchIff | src/index/build.rs:567-638 | The same after any sequence of updates from the command line with at most one compaction since the last full build |
| WatchSearch.StrippedAreStopGrams | src/index/compact.rs:100-141 | A run with at most one compaction since its last rebuild, from an index with all trigrams, has taken out only what is a stop-gram at its end, and nothing if there was no compaction |
| Updates.TakenOutAreStopGrams | src/index/build.rs:915-940 | The same of a sequence of updates and the compactions some of them end in |
| DiskSearch.CaughtSearchIsGrep | src/query/executor.rs:195-281 | On any index that knows the files there are, with all trigrams but stop-grams, searching is grepping, filters included (size, time, language and lines by plain bounds), at every path whose file is no text or can be indexed; that the query can be trusted is asked of the file at the path only |
| DiskSearch.ReportedIsText | src/query/executor.rs:70-103 | A query that says something of the content reports a path only if the file there is a UTF-8 text: others are indexed by their trigrams but never read |
| DiskSearch.CaughtIsUpToDate | src/index/build.rs:63-104 | What a caught-up index recorded for a file is what the search counts on: its tokens, positions and all usable trigrams |
| WatchPipeline.NeverTwoLive | src/server/daemon_core.rs:381-511 | In no state of any careful run of the watch pipeline has a path two valid documents, and the whole index invariant holds |
| WatchPipeline.CatchesUp | src/server/daemon_core.rs:269-334 | Once nothing is pending in a careful run, every path is known exactly as extraction sees the file now, with its trigrams but for those compactions took out since the last rebuild |
| WatchPipeline.KeepsInv | src/server/watcher.rs:171-229 | Every step keeps the path-by-path invariant, if a skip, drop or rebuild meets its condition: replaying what is pending and ahead leads from what the index has caught up with to the file system of now |
| WatchPipeline.SkipKeepsIff | src/server/daemon_core.rs:1316-1321 | An event passed over because its path is no file keeps that invariant if and only if it reports a modification |
| WatchPipeline.SkippedDeletion | src/server/daemon_core.rs:1316-1321 | A run: a deletion is passed over, so the index goes on knowing the file; created again, the path has two valid documents if and only if the new file can be indexed |
| WatchPipeline.DropKeepsIff | src/server/daemon_core.rs:337-354 | A batch dropped keeps the invariant if and only if none of its files is there to be indexed with no further change on the way |
| WatchPipeline.RebuildKeepsIff | src/server/daemon_core.rs:514-554 | A rebuild keeps the invariant if and only if the batches still queued can be replayed on the files it found |
| WatchPipeline.RebuiltThenFlushedIff | src/server/daemon_core.rs:514-554 | When a batch that was queued before a rebuild is applied after it, one valid document a path is left if and only if the batch creates nothing that the rebuild has indexed |
| WatchPipeline.TakenMeetsDiskIff | src/server/daemon_core.rs:337-378 | When the pending batch is taken with nothing else on its way, the index knows the files as they are if and only if it had documents or nothing in the batch can be indexed |
| WatchPipeline.EmptyNeverFills | src/server/daemon_core.rs:352-354 | An index without documents never gets one from the watcher: in no run from it is a batch applied or a rebuild made, so every batch taken is dropped |
| WatchPipeline.RenameThenCreate | src/server/debouncer.rs:43-87 | The debouncer's interface admits a rename followed by a creation, which would be passed on as a creation and leave two valid documents; nothing reports renames today |
| Debouncer.EventDebouncer.AddFileEvent | src/server/debouncer.rs:43-87 | The window after an event: what two changes of one path come to, kind by kind |
| Debouncer.EventDebouncer.Flush | src/server/debouncer.rs:119-136 | The batch lists each path of the window once, under its kind, and the window is empty afterwards |
| Watcher.ChangeBatch.Add | src/server/watcher.rs:171-206 | The lists and sets of a batch after one more change agree with the value-level rule and with each other |
| Watcher.ChangeBatch.Merge | src/server/watcher.rs:210-229 | Merging a batch is adding its changes list by list |
| Daemon.IndexServer.AccumulateChanges | src/server/daemon_core.rs:269-289 | Batches of one root are merged, other roots untouched |
| Daemon.IndexServer.FlushPendingChanges | src/server/daemon_core.rs:322-334 | The root's batch is taken out, and handed on only if it says anything |
| Daemon.IndexServer.HandleChanges | src/server/daemon_core.rs:337-378 | Dropped without changes or documents, rebuild when a hundred times the changes are at least the documents times one more than the percentage, incremental update otherwise |
| Daemon.ApplyIncrementalUpdate | src/server/daemon_core.rs:381-474 | The delta of a batch: deleted and modified paths buried, created and modified files read now and added; the compaction that may follow is the next row |
| Compact.CompactIfFragmented | src/server/daemon_core.rs:1160-1179 | After a delta the index is compacted when it is fragmented and left as it is otherwise; the next two rows say when, in counts of documents |
| Fragmentation.SettlesIff | src/server/daemon_core.rs:1160-1179 | With b the number of buried documents: if 100 b is more than 15 times the documents, or the deltas since the last build reach the threshold, one segment and no buried document are left; otherwise the index is unchanged |
| Fragmentation.UpdateCompactsIff | src/index/build.rs:915-940 | Of the index an incremental update leaves: compacted if and only if anything was deleted, modified or added, and the documents buried before together with the paths deleted or modified are more than 15 percent of the documents, or there are 15 deltas since the last build |
| DeltaSafety.OneLiveIff | src/index/writer.rs:925-1073 | After a delta no path has two valid documents if and only if the added paths differ and every one already live is buried |
| DeltaSafety.DeltaKeepsValid | src/index/writer.rs:1008-1073 | A delta that buries what it re-adds keeps the whole invariant: ascending ids, one live document a path, sound and present segments |
| DeltaSafety.DeltaMeaning | src/index/writer.rs:925-999 | Path by path: an added file is known as extraction saw it, a buried path is forgotten, everything else is as it was |
| DeltaSafety.DeltaGrams | src/index/writer.rs:971-976 | The same of the trigrams the index holds for a path |
| DeltaWriter.DeltaSegmentWriter.MarkTombstone | src/index/writer.rs:925-936 | The tombstone is that of the path's live document, if it has one |
| DeltaWriter.DeltaSegmentWriter.AddFile | src/index/writer.rs:953-999 | The writer's maps are those of the segment built from the files added so far, in order |
| DeltaWriter.DeltaSegmentWriter.Finalize | src/index/writer.rs:1008-1073 | What is on disk after a delta, as a function of the index it was opened on, the tombstones and the files |
| SegmentBuilder.BuiltFirst | src/index/writer.rs:953-999 | A segment recalls exactly the files it was built from, each under its own id, with sorted lists |
| Compact.RemapsAll | src/index/compact.rs:201-246 | Valid documents are renumbered 1..n in table order, each keeps its own path, everything else is dropped |
| Compact.BuildDocIdRemapping | src/index/compact.rs:201-246 | The loop over the table computes that remapping |
| Compact.MergeAllSegments | src/index/compact.rs:262-585 | After merging, each valid document has under its new number the tokens, positions, lines and trigrams it had, and no other number is mentioned |
| Compact.SelectStopGrams | src/index/writer.rs:41-50 | At most `cap` stop-grams, all in more than half of the documents, and none left out is hotter than one chosen |
| Compact.MergeSegments | src/index/compact.rs:56-197 | Nothing is done without tombstones or several segments; otherwise the result is a compaction |
| CompactSafety.CompactionKeepsValid | src/index/compact.rs:56-197 | Compaction keeps the whole index invariant |
| CompactSafety.CompactionPreserves | src/index/compact.rs:262-585 | No path is known any differently after compaction, none appears or disappears, and trigrams lose the stop-grams and nothing else |
| CompactSafety.OrderKept | src/index/compact.rs:201-246 | The new numbers are a strictly increasing renumbering |
| CompactSafety.CompleteIff | src/index/compact.rs:116-129 | The trigrams that are no stop-grams can be trusted after a compaction exactly when everything missing before is a stop-gram now |
| StopGrams.StopGramsAreHot | src/index/compact.rs:588-599 | The stop-grams are trigrams posted for more than half of the valid documents of the old index, and all of them if they fit the cap |
| StopGrams.TrustedIff | src/index/compact.rs:116-129 | If the trigrams that are no stop-grams can be trusted after a compaction, every trigram stripped earlier is still posted for more than half of the valid documents; with hot trigrams within the cap, also only if |
| StopGrams.StrippedThenForgotten | src/index/compact.rs:116-129 | A trigram stripped by one compaction and in none of the files added since is declared usable by the next, while a file that has it is missing from its list |
| StopGrams.ForgottenRun | src/index/compact.rs:56-197 | That run carried out: a full build of at least four files that share a trigram, compaction, an update that adds a file, compaction |
| Processing.ProcessFileContent | src/index/build.rs:63-104 | Binary contents are refused; of the others all trigrams, the words with positions and the line starts are recorded |
| Processing.ProcessedRises | src/utils/tokenizer.rs:304-327 | Word positions rise through every processed file, as the position codec and the flat pipeline need |
| Build.ListIndexed | src/index/build.rs:586-594 | The table of the live document and its time by path |
| Build.ComputeIndexDiff | src/index/build.rs:762-799 | New, modified, deleted and still rejected files, each listed exactly when the times and tables say so |
| Build.PerformIncrementalUpdate | src/index/build.rs:834-943 | The index the update leaves and the new list of rejected files, compacted at the end exactly when there was a delta and the index has become fragmented |
| Build.UpdateIndex | src/index/build.rs:567-638 | Up to date, full build or incremental update with the compaction it may end in; a full build exactly when nothing is indexed or a hundred times the changes are at least 31 times the files indexed |
| Updates.Update | src/index/build.rs:567-638 | One run of the command, full build included, is one of the calls the next rows are about |
| Build.UpdateMeetsDisk | src/index/build.rs:834-943 | If times tell, an incremental update leaves the index valid and knowing exactly what a fresh extraction of every file would, trigrams included but for the stop-grams of a compaction at its end |
| Build.SecondScanQuiet | src/index/build.rs:762-799 | A second scan of unchanged files finds nothing new, modified or deleted |
| Build.UpdateRemembers | src/index/build.rs:876-884 | After the update every visible file that cannot be indexed is on the rejected list with its time |
| Updates.TimesTellNext | src/index/build.rs:770-780 | That times tell follows from where the last update left the index, if a path never has two contents under one time |
| Updates.UpdatesMeetDisk | src/index/build.rs:567-638 | After any sequence of updates, some ending in compactions, the index is valid and knows every file as a fresh extraction would, but for the trigrams taken out since the last full build |
| FullBuild.BuildIndex | src/index/writer.rs:167-224 | Chunk after chunk, the tables are those of the files entered in order, the first segment becoming the base; the stop-grams are chosen by the counts of the next row and the size of the table |
| FullBuild.FileCountsAre | src/index/writer.rs:325-347 | The counts kept while writing are, for each trigram, the number of files that have it |
| FullBuild.FullBuildMeetsDisk | src/index/writer.rs:167-224 | A full build leaves a valid index that knows every file and all its trigrams, however the files are divided into chunks |
| FullBuild.IncrementalIsFull | src/index/build.rs:834-943 | Path by path the incremental update and the full build leave the same knowledge, and the same trigrams but for those that compactions have taken out, one at the end of the update included |
| Handover.NextScanRereads | src/server/daemon_core.rs:1241-1245 | After a settled run of the watcher the next scan lists as modified exactly the visible indexed files whose time is not the epoch, because the daemon writes nanoseconds and the scan compares seconds |
| Handover.FlushedLookModified | src/index/build.rs:697-700 | The same flush by flush, whatever unit the rest of the index was recorded in |
| Planner.VerificationMeans | src/query/planner.rs:151-461 | The verification tree of a plan accepts a content exactly when the query tree wants it |
| Planner.FlagKept | src/query/planner.rs:365-393 | The pattern searched is the one written; under -i it starts with the flag, put in front unless it is there |
| Candidates.CandidateIff | src/query/planner.rs:151-461 | For every tree, with and without -i: an up-to-date document is a candidate if and only if its text is one, told by the tree, the words and windows of the text and the stop-grams, without the index |
| Candidates.QueryCandidateIff | src/query/executor.rs:565-742 | The same of a whole query: with filters, the document passes them, and negations always count |
| Candidates.SearchedIff | src/query/executor.rs:195-281 | The whole search of an up-to-date document, for every query: reported if and only if it is such a candidate and the query shows something of it in the lines asked for |
| Candidates.SplitIsChunks | src/query/planner.rs:186-200 | The words a text with spaces is looked up by are exactly its stretches without white space |
| Candidates.IntersectStep | src/query/executor.rs:664-684 | An intersection of plans narrows to what all of them do |
| Executor.ExecuteStep | src/query/executor.rs:571-712 | One narrowing step meets the candidates with what it allows, whatever shortcut the candidates select |
| Executor.ExecutePlan | src/query/executor.rs:565-742 | With optional candidates, early exit and deferred exclusion the executor computes what all steps allow less what the negations take away |
| Executor.VerifyExcludedDocs | src/query/executor.rs:747-780 | Exactly the documents that the negated term confirms |
| Executor.ApplyFilter | src/query/executor.rs:783-910 | Exactly the candidates, or the valid documents, that pass every filter |
| Search.Execute | src/query/executor.rs:195-281 | The documents reported are the candidates with a verified match, each with exactly the matches of the query tree in the lines asked for |
| Search.ReportIs | src/query/executor.rs:1040-1102 | With or without a line filter, a match is reported of a document if and only if the query tree finds it in the content and its line is one of those asked for |
| Search.RetainedInOrder | src/query/executor.rs:1048-1056 | Filtering by lines keeps the order of the matches and each as often as it was found |
| Search.RetainedOne | src/query/executor.rs:1048-1056 | A single match is kept once or dropped, by its line |
| Search.PassesEveryStep | src/query/planner.rs:151-461 | A document that narrowing can be trusted with passes every step when its content is wanted |
| Search.NarrowingLosesNothing | src/query/executor.rs:565-742 | No valid document the scan reports is lost by narrowing |
| Search.SearchIsScan | src/query/executor.rs:1011-1021 | The search reports the paths the scan reports, and those it reaches through buried documents |
| Search.SearchIsGrep | src/query/executor.rs:981-1102 | Where a readable path has a valid document, the search reports exactly what reading every live file would; trust is asked of the documents at the path only, and of none if the path cannot be read |
| Narrowing.PhraseLeafIff | src/query/planner.rs:318-364 | An exact phrase narrows soundly on a text if and only if, where it has several words and occurs, its words stand one after the other among the words of the text |
| Narrowing.RegexLeaf | src/query/planner.rs:365-393 | A regex narrows soundly unless its pattern starts with two anchors |
| Narrowing.WordLetsIff | src/query/executor.rs:602-650 | What the step for a bare word lets through: files with the word as a token, or with all its usable trigrams in the same case |
| WordSearch.StoppedWordIff | src/query/executor.rs:602-650 | Once every trigram of a word is a stop-gram, a file is a candidate if and only if some token of its text contains the word, lowered, or the word has at least two parts and all are tokens of the text |
| WordSearch.StoppedWordFound | src/query/executor.rs:602-650 | So a word of letters and digits inside an indexed token is found by the whole search on an index with stop-grams |
| WordSearch.FoldedPhraseIff | src/query/planner.rs:318-364 | Under -i: a phrase of several words narrows to the files its words stand in; one of a single word to those with the token, or with its usable trigrams as written, or without usable ones as the word does |
| WordSearch.FoldedWordKept | src/query/planner.rs:318-364 | A one-word phrase that occurs as written is a candidate under -i whenever one of its trigrams is usable |
| Narrowing.SearchIsExact | src/query/executor.rs:195-281 | If the documents at a path are up to date, a case-sensitive search for a tree of exact phrases and regexes reports the path exactly when a live file there is wanted |
| WordLosses.WordCandidateIff | src/query/planner.rs:155-193 | Without stop-grams a document is a candidate for a single word exactly when it has it, lowered, as a token, or has all its trigrams as written |
| WordLosses.WordNeverLosesIff | src/query/planner.rs:155-193 | Without stop-grams a single word never loses a wanted file of any up-to-date index if and only if it is no shorter than a trigram and has no letter |
| WordLosses.HiddenLost | src/query/executor.rs:602-650 | For every other word, a file that has it inside a longer word and in the other case: wanted and no candidate |
| WordLosses.LiteralMeans | src/query/executor.rs:468-531 | A literal matches a content exactly when it occurs in it, both lowered |
| Losses.PhraseCandidateIff | src/index/reader.rs:653-763 | A file with an occurrence of a phrase is a candidate if and only if the phrase has fewer than two words or its words stand one after the other among those of the file |
| Losses.PhraseNeverLosesIff | src/query/planner.rs:318-364 | An exact phrase never loses a wanted file of any up-to-date index if and only if it has fewer than two indexed words, or neither starts nor ends with one |
| Losses.XfooBarLost | src/query/planner.rs:318-364 | For one, the text xfoo bar has the phrase foo bar, and the search passes it over |
| Losses.OrNeverLosesIff | src/query/planner.rs:417-447 | An Or of any number of exact phrases of fewer than two words never loses a wanted file of any up-to-date index if and only if all are shorter than a trigram or none is |
| Losses.NotFilterNeverLosesIff | src/query/executor.rs:728-740 | A phrase beside a negated filter never loses a wanted file if and only if it is shorter than a trigram; otherwise every valid document is taken away |
| Printing.NegatedFilterParsed | src/query/parser.rs:170-176 | A negated filter field leaves an empty negation beside what follows, the tree the previous row is about |
| RegexPrefix.ExtractRegexPrefix | src/query/planner.rs:465-525 | The loop that pushes and pops computes the prefix function the next row is about |
| RegexPrefix.PrefixRequired | src/query/planner.rs:465-525 | Every text a regex is found in contains the prefix taken from its pattern, for literals, classes, groups, alternation, anchors and quantifiers, unless the pattern starts with two anchors |
| RegexPrefix.WholePrefix | src/query/planner.rs:465-525 | The prefix is all the literals a pattern begins with, escapes resolved, an anchor before them passed over, less the last one if it is optional; none if they are below a trigram |
| RegexPrefix.TwoAnchorsLie | src/query/planner.rs:465-480 | After two anchors the second one is taken into the prefix, which the word that matches does not contain |
| FilesOnly.NeverShort | src/query/executor.rs:402-463 | In every interleaving of workers the list is sorted, holds matching files only, and has as many as there are, up to the limit, or to the machine word for a limit of 0 |
| FilesOnly.ListSequentially | src/query/executor.rs:408-428 | So does the sequential form |
| Verify.FindLiteralMatches | src/query/executor.rs:1377-1478 | The literal search, by whichever path the content selects |
| Verify.LiteralReport | src/query/executor.rs:1377-1478 | Whatever path is taken, the lines and columns are those of a search line by line: the first occurrence in every matching line |
| Verify.FastIsSimple | src/query/executor.rs:1390-1444 | The single pass with a line cursor finds what the search line by line finds |
| Scanner.ReportedText | src/query/executor.rs:1430-1436 | The text reported is the line's, except exactly for a last line that ends in a carriage return without a line feed |
| Verify.FindProximityMatches | src/query/executor.rs:1276-1373 | The proximity scan over per-term line tables with its cursors |
| Verify.NearHitsAre | src/query/executor.rs:1276-1373 | It reports exactly the lines of the first term that have every other term within the distance |
| Verify.VerifyContent | src/query/executor.rs:1200-1267 | The matches of a verification tree, which the next rows describe |
| Matches.ReportedIff | src/query/executor.rs:1194-1267 | For every tree, Not included: a match is reported if and only if it is a match of some part and the tree holds; under And every part has a match, under Not there is none and the first line stands for it |
| Matches.LiteralFinds | src/query/executor.rs:1377-1478 | For a text, by its lines: line, both columns and text of each match are those of the first occurrence in a line, the bare carriage return at the end of a file cut off by the fast path |
| Matches.ProximityFinds | src/query/executor.rs:1276-1373 | For near: the first term's first occurrence in a line, with its line, columns and text, where every other term stands within the distance |
| Matches.LiteralRises | src/query/executor.rs:1377-1478 | Matches of a text are listed line by line, at most one a line |
| Matches.ProximityRises | src/query/executor.rs:1276-1373 | So are those of near |
| Matches.OrInOrder | src/query/executor.rs:1249-1255 | One more part of an Or appends its matches |
| Matches.AndInOrder | src/query/executor.rs:1223-1248 | So does one more part of an And, all parts having matches |
| Matches.PlansAsFound | src/query/planner.rs:151-461 | The matches of the planned verification are those of the query tree |
| Verify.FindAny | src/query/executor.rs:468-501 | The early-exit form answers whether there is a match |
| Verify.FormsAgree | src/query/executor.rs:468-531 | The early-exit form is true exactly when the full form returns a match, over And, Or and Not of literals, proximity terms and phrases a line can hold |
| Verify.PhraseAgreesIff | src/query/executor.rs:468-501 | For an exact phrase the two forms agree on every content if and only if it has no line feed and does not end in a carriage return |
| Parser.QueryParser.Parse | src/query/parser.rs:124-131 | The recursive descent over a cursor ends on every input and computes the value-level parse, settings included |
| Printing.ParsePrinted | src/query/parser.rs:133-478 | Parsing what was written gives back the tree and the settings, for any combination by And, Or and Not of words, words with colons, settings, quoted texts, regexes, near with and without a distance, and boosts with and without a number |
| Printing.ParsePrintedTree | src/query/parser.rs:133-478 | In particular every tree without empty parts comes back from its writing |
| Printing.UnknownFieldParsed | src/query/parser.rs:306-367 | A word that is no known field, a colon and a value are the literal of exactly that text, and set nothing |
| Printing.KnownFieldParsed | src/query/parser.rs:306-362 | A known field other than near leaves the tree empty and one setting, its name in lower case with the value |
| Printing.StrayParenDropsRest | src/query/parser.rs:124-131 | Everything after a closing parenthesis too many is ignored |
| LooseQueries.OpenQuote | src/query/parser.rs:238-250 | A quotation mark without a second one quotes all that follows |
| LooseQueries.OpenRegex | src/query/parser.rs:252-266 | A regex without a second slash goes to the end of the query |
| LooseQueries.OpenParen | src/query/parser.rs:214-225 | A parenthesis never closed makes no difference |
| LooseQueries.NearParsed | src/query/parser.rs:450-478 | A near needs a comma and two terms beside a distance of 32 bits: one term is a literal, none is nothing |
| LooseQueries.BoostParsed | src/query/parser.rs:178-210 | Digits and dots before a colon are the boost, the usual one when they are no number; words and quoted texts are raised, other trees stay as they are |
| LooseQueries.PlainBoostParsed | src/query/parser.rs:178-210 | Without them nothing of what follows is taken for the boost |
| LooseQueries.BoostOfNothing | src/query/parser.rs:178-210 | A number alone after the sign is dropped |
| LooseQueries.BlankAsksNothing | src/query/parser.rs:150-168 | White space alone is the empty query |
| Encoding.VarintRoundTrip | src/utils/encoding.rs:4-48 | A varint is decoded, wherever it stands, to its value and the position after it |
| Encoding.VarintBytes | src/utils/encoding.rs:4-14 | Its bytes: seven bits each, low ones first, the eighth set on all but the last, and none more than needed |
| Encoding.ReadVarint | src/utils/encoding.rs:18-48 | The fast and the slow path together read the five-byte LEB128 form, cutting off what 32 bits lose |
| Encoding.DeltaRoundTrip | src/utils/encoding.rs:87-119 | Every sorted list of 32-bit numbers comes back from its delta encoding |
| Encoding.DeltaDecodeBitmap | src/utils/encoding.rs:127-143 | On every byte string the bitmap has the values the plain decoder lists |
| Encoding.DeltaDecodeIntersect | src/utils/encoding.rs:152-180 | On every byte string, intersecting while decoding with the early stop is decoding and then intersecting |
| Encoding.PositionsRoundTrip | src/utils/encoding.rs:227-287 | Position postings come back as they went in |
| Encoding.DecodePositionPostingsFiltered | src/utils/encoding.rs:295-354 | The loop that skips other documents byte by byte computes the filtering decoder of the next row |
| Encoding.FilteredIsRetainIff | src/utils/encoding.rs:295-354 | For every filter the filtering decoder is the plain one followed by the filter, if and only if stepping over broken lists leads to no other document |
| Encoding.FilteredNeedsWellFormed | src/utils/encoding.rs:295-354 | Ten bytes on which they differ: a six-byte varint stops one and is stepped over by the other |
| FlatWriter.Collect | src/index/writer.rs:241-283 | Interned ids stand for the tokens pushed, in order, and dense ids are given in order of first sight |
| FlatWriter.Rank | src/index/writer.rs:285-305 | Ranks rise with the tokens, and each id's rank leads to its token |
| Grouping.GroupPairs | src/index/writer.rs:404-434 | One group a key, keys rising, the documents of each once and rising |
| Grouping.GroupTriples | src/index/writer.rs:503-537 | Per token and document the positions paired with them, all rising |
| Pipelines.LockstepJoin | src/index/writer.rs:576-600 | One cursor over the positions finds for every token its own group, or none |
| Pipelines.ProcessSegment | src/index/writer.rs:227-393 | Intern, rank, sort, group and join list exactly what iterating the sorted maps of the other pipeline lists |
| SegmentAgreement.PipelinesAgree | src/index/writer.rs:396-616 | For extracted files the two pipelines write the same bytes: dictionaries, postings and positions |
| SegmentAgreement.WriteFlatSegment | src/index/writer.rs:227-393 | Written by the full build and opened again, every lookup answers as the sorted maps would, and the filter lets every posted trigram through |
| SegmentAgreement.WriteDeltaSegment | src/index/segment_io.rs:40-157 | The same of the delta writer |
| SegmentAgreement.TokensReadBack | src/index/reader.rs:202-260 | A token's documents and positions are found again, with and without a filter, and a token that was not written is not found |
| SegmentFile.WriteTrigramIndexFlat | src/index/writer.rs:396-465 | The trigram dictionary and postings of the full build, byte by byte |
| SegmentFile.WriteTrigramIndex | src/index/segment_io.rs:40-80 | The same files from the sorted maps, without the stop-grams |
| Bytes.LittleEndianBytes | src/index/segment_io.rs:57-70 | The numbers in them are little-endian: the byte of weight 256 to the i-th stands at place i |
| SegmentFile.EncodePostings | src/index/segment_io.rs:24-35 | A sorted list is encoded as it is, any other sorted and without repeats |
| SegmentFile.ReadTrigramDict | src/index/reader.rs:913-962 | The loop over the records reads the dictionary the next rows are about, or nothing of a file that is too short |
| SegmentFile.TrigramDictRoundTrip | src/index/reader.rs:913-962 | The dictionary read is the dictionary laid out |
| SegmentFile.GetTrigramDocs | src/index/reader.rs:169-183 | A trigram's documents: those of its slice of the postings, none if it is not found or the slice is out of bounds |
| SegmentFile.GetTrigramDocsIntersect | src/index/reader.rs:185-199 | The same among the documents of a filter |
| SegmentFile.TrigramsReadBack | src/index/reader.rs:169-199 | Every trigram is found again with its documents and frequency, and no other is found |
| TokenFile.WriteTokenIndexFlat | src/index/writer.rs:473-616 | The token dictionary, postings and positions of the full build, with running offsets |
| TokenFile.WriteTokenIndex | src/index/segment_io.rs:83-157 | The same from the sorted maps; the two differ in the offset of a token without positions |
| TokenFile.ReadTokenDict | src/index/reader.rs:965-1038 | The loop over records of variable length reads the dictionary of the next row |
| TokenFile.TokenDictRoundTrip | src/index/reader.rs:965-1038 | The variable-length dictionary read is the one laid out |
| TokenFile.GetTokenDocs | src/index/reader.rs:202-216 | A token's documents: those of its slice of the postings, none if it is not found or the slice is out of bounds |
| TokenFile.GetTokenPositions | src/index/reader.rs:240-260 | What the reader returns for a token: nothing for a zero length or a slice out of bounds, else the decoded positions |
| LineMap.BuildLineMap | src/index/build.rs:126-141 | The starts of all lines; a final line feed starts none |
| LineMap.OffsetToLine | src/index/reader.rs:546-556 | The binary search gives one more than the line feeds before the offset, those of the last line at most |
| LineMap.TrueLine | src/index/reader.rs:546-556 | That is the true line except exactly at the end of a file that ends in a line feed |
| LineMap.WriteLineMaps | src/index/segment_io.rs:160-187 | The file laid out for the rows in the order given |
| LineMap.LineMapsRoundTrip | src/index/segment_io.rs:160-187 | Line maps come back as they were written |
| LineMap.SameLineMaps | src/index/writer.rs:619-643 | Rows in file order and rows sorted by document read back as the same map |
| SegmentBloom.BloomOfPairs | src/index/writer.rs:312-323 | Every trigram of the sorted pairs is in the filter written, inserted once a run |
| SegmentBloom.BuildAndWriteBloom | src/index/segment_io.rs:190-216 | Every key of the map is in the filter written |
| SegmentBloom.BloomRoundTrip | src/index/reader.rs:1084-1113 | Words and hash count come back as they were |
| SegmentBloom.ReadBloomFilter | src/index/reader.rs:1084-1113 | The filter opened answers for the segment whose trigrams were inserted |
| Bloom.BloomFilter.Insert | src/utils/bloom.rs:98-109 | The bits of the item's probes are set and no other changed |
| Bloom.BloomFilter.MightContain | src/utils/bloom.rs:114-128 | Yes exactly when all the item's probes are set |
| Bloom.BloomFilter.Merge | src/utils/bloom.rs:184-189 | The union of the two bit sets |
| Bloom.NeverForgets | src/utils/bloom.rs:98-189 | Whatever the hash and whatever is inserted and merged later, what was inserted is found |
| Trigrams.ExtractTrigrams | src/utils/trigram.rs:87-132 | All four strategies give the set of windows, each once |
| Trigrams.NeedleTrigrams | src/utils/trigram.rs:135-149 | The trigrams of a needle are among those of any text that contains it |
| Trigrams.SameTrigramIff | src/index/types.rs:332-334 | Two trigrams are equal exactly when their three bytes are |
| Reader.GetTrigramDocsWithBloom | src/index/reader.rs:585-644 | Skipping segments by their filters and intersecting rarest first computes the documents of the next row |
| Reader.TrigramDocsExact | src/index/reader.rs:585-644 | Over any division into segments, exactly the documents that have all trigrams |
| Reader.TokenDocsContainingExact | src/index/reader.rs:515-531 | Exactly the documents with a token that contains the needle |
| Reader.ResolvePhraseInSegment | src/index/reader.rs:688-763 | In one segment, exactly the candidates with a start at which every word of the phrase stands in its place |
| Reader.PhraseDocsExact | src/index/reader.rs:653-685 | The same over all segments |
| Tokenizer.TokensAreWords | src/utils/tokenizer.rs:171-291 | The scanner finds exactly the words of the text, each at the number of words before it |
| Tokenizer.BytesScanAlike | src/utils/tokenizer.rs:171-234 | Scanning the UTF-8 bytes with slice indices gives the same list as scanning the characters with a buffer |
| Tokenizer.ExtractTokens | src/utils/tokenizer.rs:10-125 | Both token scanners yield the set of tokens of that list |
| Tokenizer.ExtractTokensAndPositions | src/utils/tokenizer.rs:304-327 | The indexed form expands back to the list, each token named once |
| Phrases.WholeStands | src/utils/tokenizer.rs:171-298 | At an occurrence where no token at an edge of the query is part of a longer word, the query's words stand in the text, their positions shifted by one number |
| Phrases.StartJoined | src/utils/tokenizer.rs:171-298 | With a letter or digit joined to the token a query starts with, its words no longer stand in the text that contains it |
| Phrases.EndJoined | src/utils/tokenizer.rs:171-298 | The same at its end |
| Text.LossyRoundTrip | src/index/reader.rs:993-996 | Reading an encoded token as UTF-8 gives the token back |
| Framing.ChunksDoNotMatter | vscode-extension/src/daemon/client.ts:109-143 | However a stream of bytes is cut, the same frames are delivered and the same incomplete tail is kept |
| Framing.RestIncomplete | vscode-extension/src/daemon/client.ts:109-143 | What is kept of a stream holds no complete frame and announces no oversized one |
| Framing.MessagesArrive | src/server/protocol.rs:240-254 | Framed messages, cut in any way, arrive one by one and in order |
| Client.DaemonClient.OnData | vscode-extension/src/daemon/client.ts:109-143 | The buffer loop delivers what draining delivers and keeps its tail, and an oversized frame ends the connection |
| Client.DaemonClient.SendRaw | vscode-extension/src/daemon/client.ts:172-210 | A request gets a new id, is pending and last in the queue |
| Client.DaemonClient.HandleDisconnect | vscode-extension/src/daemon/client.ts:73-97 | Every open request is rejected once, oldest first, and none is left |
| Protocol.AlwaysSafe | vscode-extension/src/daemon/client.ts:145-210 | In every state of every run the queue lists exactly the open requests, oldest first and once each, none is settled twice, and handlers stay within the limit |
| Protocol.RightIff | vscode-extension/src/daemon/client.ts:145-170 | In every run all requests are settled with their own answers if and only if no frame without an id was delivered while a request was open |
| Protocol.OwnAnswers | src/server/daemon_unix.rs:127-195 | In particular if the server never complains without an id |
| Protocol.ComplaintIsTakenForAnswer | src/server/daemon_unix.rs:146-165 | A run in which the reader's complaint settles the oldest request |
| Protocol.SettledForGood | vscode-extension/src/daemon/client.ts:145-170 | What is settled stays settled, with its outcome |
## Left out

- Numbers are unbounded where the source keeps document, path and segment ids in 32 or 16 bits; the codecs and dictionary fields have their widths, and what does not fit is cut off as the casts do.
- Case folding beyond ASCII: `ToLower` keeps other letters; the parser takes `is_alphanumeric` and boost numbers from a lexicon.
- Scores, boosts as 32-bit floats, sorting by score, recency and file-name matches without content.
- Date, size, line and sort fields are kept as the text written, not interpreted; the filters of a query are given as numbers.
- The regex engine: matching is a parameter, and the prefix theorem is about regexes over literals, classes, groups, alternation, anchors and quantifiers; `\<` and `\>` and escapes of letters are not among them.
- Sequences that decode as no character become one replacement character a byte, where the library may replace several bytes by one; texts are unaffected.
- Segments written before positions existed, and their fallback.
- Changes made while a rebuild reads the files: it is one step of the pipeline, and what the stopped watcher thread held is gone with it.
- The units of time inside the watch pipeline: flushes and rebuilds use one extractor there, though the one writes nanoseconds and the other seconds; Handover is about the difference.
- What happens after a crash, in the middle of a write, or with segment directories no table mentions.
- The trigger of compaction inside the watch pipeline, where it may come at any time; tombstone shares are compared exactly, where the source divides 32-bit floats.
- The walk of the file system, ignore rules, globs, memory maps, locks, sockets and JSON; files that can be read are a map. Of the notify adapter only the test for a file is modelled, as the Skip step; runs without Skip are those of an adapter that passes everything on.
- Result and file caches, the regex cache, path checks in `get_full_path`, reconnect timers, the terminal interface, the command line and the editor panels.
- The sizing of bloom filters: any positive size.
- Paths are listed in the order of their characters; the source compares them component by component.
- WatchSearch.SettledSearchIsGrep: asks that no Skip, Drop or Rebuild step of the run loses anything, which WatchPipeline.SkipKeepsIff, DropKeepsIff and RebuildKeepsIff say exactly when; it speaks of exact phrases and regexes (bare words, `near:` and -i narrow by trigrams in the case written or by tokens: EveryQuery.SettledSearchIff says for every query what is found), and a path whose text can no longer be indexed may still be reported through its buried document.
- WordLosses.WordNeverLosesIff: is about indexes without stop-grams; once all trigrams of a word are stop-grams it is looked up among the indexed tokens, which words beyond 128 characters are not.
- EveryQuery.CaughtSearchIff: what is reached through a buried document is named, not told from the files, as the text it was made of is gone.
- Search.Execute: does not model the limit, scores, boosts, sorting and file-name matches of a result.
- Parser.QueryParser.Parse: keeps the values of size, line, date, sort and limit fields as the text written.
- FullBuild.BuildIndex: is given the list of rejected files, and counts trigrams file by file where the source counts runs of its sorted pairs.
- Narrowing.SearchIsExact: asks that the early-exit form and the full form of matching agree on the file, which Verify.FormsAgree and PhraseAgreesIff give for everything but regexes.
- RegexPrefix.PrefixRequired: for patterns that start with two anchors nothing is claimed beyond RegexPrefix.TwoAnchorsLie; such a prefix may happen to be required when the rest of the pattern repeats it.
- Updates.UpdatesMeetDisk: asks that a path never has two contents under one time in whole seconds, which is what the scan goes by.
- SegmentAgreement.WriteFlatSegment: asks that counts, offsets and lengths fit their fields and that ids and word positions are 32-bit numbers.
- Verify.FindLiteralMatches: is given non-empty needles, as the planner's texts are; what an empty one matches is not modelled.
