# Verified models of AionDB components

AionDB is a database with a replicated control plane and a set of development tools. This project models the parts of it
whose correctness is an argument rather than a reading of one function body, and proves that argument for all inputs and
all runs. `dafny verify dfyconfig.toml` checks everything.

## What is modelled

**The Raft control plane** (`RaftLog`, `RaftNode`, `RaftCluster`, `RaftElection`, `RaftSafety`, `RaftSteps`,
`RaftOvershoot`, `RaftStale`, `RaftMetadata`, `RaftHistory`, `RaftControl`). One node is a class whose methods follow
the source's loops and early returns; each is proved against a function on node values. Those functions drive a
cluster whose network may lose, repeat, delay and reorder messages, with timeouts, crashes and restarts at any moment.
Election Safety, Log Matching and Leader Append-Only hold in every run. State Machine Safety does not, for two
reasons: a follower answers a request with the index of its *last* entry, even when entries beyond the request are
left over from another leader, and a leader takes answers of older terms (`crates/aiondb-ha/src/raft/node.rs:283-288`
and `:294-322`). `StateMachineSafety`, `LeadersHaveChosen` and `CommittedStays` hold of all runs in which the leader
is handed a successful answer only if it is of the leader's own term and does not point past what its request covered,
two comparisons the caller can make before the call. Each of the two is needed: `SafetyFailsWithoutTheCheck` is a run
of three nodes that obeys the first and not the second, `SafetyFailsWithStaleAnswers` one of five nodes that obeys the
second and not the first, and both commit two different commands at one index. `AnswerIsTruthfulExactlyWhenCovered`
says when an answer of the leader's own term is true: always if it stays within what its request covered, and beyond
that only if the leader has an entry of the same term at that index, which it cannot have if the request reached the
end of its log. The metadata every node keeps is read off the positions of the commands in the log (`FoldReflects`).

**The Neo4j migration** (`Text`, `Numbers`, `Csv`, `Identifiers`, `IdentifierWords`, `Ordering`, `RowCuts`, `Neo4j*`,
`Sql*`). From the lines of CSV files to a verified database: header and row parsing, the importer's plan and saved
state, the printed SQL, a lexer, a parser and a table model that run it, and the verifier that rebuilds the expected
graph with its own code and compares. The main results are `ImportIsVerified`, `BuildersAgree`, `ScriptRoundTrip`,
`ResumeEqualsOneShot` and `ParityIsExact`. Five things come out that the tools do not promise in so many words. A
relationship whose end is an id no row declares gets the label "unlabeled", and the script then fails unless the
export has such a label. A name used both as a node label and as a relationship type fails the script. So does a blank
cell in a NOT NULL column, which the planner lets through when a property column is itself named "id", "source_id" or
"target_id". When two runs of a resumed import add rows to the same table, the second script fails, because it creates
that table again (`ResumedScriptRuns`). And the comparison of row counts and row sets pins a table down exactly when
the texts of its rows are all different or all equal and none of them is ambiguous; every other table has a wrong
import that passes (`ParityIsExact`). A row's text is ambiguous when a TEXT column that may be NULL is blank or holds
"null", or when the bars between cells could be read elsewhere (`PinnedExactly`, `OneReading`).

**Calendar arithmetic** (`Calendar`). The two date conversions, written in different tools, are inverse on all integers;
the expiry test is date order exactly for dates that exist, and `day_number_from_ymd` takes others, 31 February among them.

**The lint on crashes in production code** (`CrashLint`). The visitor records exactly the sites that neither a test-only item
nor the signature of a function encloses; so of the sites a production build compiles outside macro arguments, it misses
those in signatures and no others.

**The decaying rate counter** (`Fading`, `DecayingRate`, `DecayIdeal`, `DecayCounted`, `DecayReadings`). The clock counts
nanoseconds. Each call rounds the time since the last update down to whole microseconds and then keeps its own time as it
is, so what was rounded off is lost. `RunIsCounted`: the counter is one without that loss, run on the time it counts. So its
reading is the sum of the samples decayed by counted time, exactly as long as no time is counted while that sum is negative
(`LazyDecayIsExact`). For samples that are not negative it is at least the sum decayed by the clock, and equal to it exactly
when the gaps between calls, rounded down, add up for every positive sample (`LazyDecayIsTheSum`); reads leave later readings
alone under a like condition (`ReadsChangeNothing`). Three inputs show what happens otherwise: a read half a microsecond
after a sample keeps it from fading (`ReadStopsDecay`), calls less than a microsecond apart never decay at all
(`RapidCallsNeverDecay`), and so samples every half microsecond have no bound (`BurstIsNotBounded`).

**Text scanning and documents** (`Counting`, `TestRegions`, `JsonText`, `Percentile`, `Markdown`, `MarkdownLines`,
`MarkdownDiv`, `Inventory`, `InventoryMeaning`).

Values are exact: integers are unbounded except where the source's width decides something (log indexes and terms, 64-bit
cells, the seconds of a timestamp, FNV hashes), which is written out; `f64` values of the rate counter are real numbers.
Clocks, random numbers, file contents and message delivery are inputs. Strings are sequences of Unicode scalar values.

## Model

| member | source | states |
|---|---|---|
| RaftLogs.RaftLog.PushNew | crates/aiondb-ha/src/raft/log.rs:158-168 | a new entry gets the next index; at the last index nothing changes |
| RaftLogs.RaftLog.AppendEntriesChecked | crates/aiondb-ha/src/raft/log.rs:177-219 | entries are merged exactly when they follow on from the index before them; otherwise the log is untouched |
| RaftLogs.MergeShape | crates/aiondb-ha/src/raft/log.rs:195-219 | merging keeps the log up to the first conflicting entry and ends it with the new ones; without a conflict nothing is cut |
| RaftLogs.WellNumberedReads | crates/aiondb-ha/src/raft/log.rs:102-145 | in a log numbered from 1, reads by index find the entry of that index |
| RaftNodes.OpenNode | crates/aiondb-ha/src/raft/node.rs:62-94 | a node opens as a follower with its saved term, vote, log and commit index, exactly when that index is not past its log |
| RaftNodes.RaftNode.StepDown | crates/aiondb-ha/src/raft/node.rs:156-161 | the term becomes the higher of the two, the vote is forgotten only when the term rises, and log, commit and applied index stay |
| RaftNodes.RaftNode.StartElection | crates/aiondb-ha/src/raft/node.rs:164-170 | the node becomes a candidate of the next term with its own vote; at the last term it fails and nothing changes; log and indexes stay |
| RaftNodes.RaftNode.HandleVote | crates/aiondb-ha/src/raft/node.rs:180-213 | a vote is granted exactly to a request of at least the own term, by a node that has not voted for another in that term, for a log at least as up to date; term, vote and role are those the request calls for and all else stays |
| RaftNodes.RaftNode.HandleAppendEntries | crates/aiondb-ha/src/raft/node.rs:218-289 | a request succeeds exactly when it is of at least the own term and its previous entry is known; then the log is the merge of both and the commit index the higher of the own one and the lesser of the leader's and the last index; otherwise both stay; the answer names term, node and last index |
| RaftNodes.RaftNode.TryAdvanceCommit | crates/aiondb-ha/src/raft/node.rs:411-439 | the commit index becomes the highest index past it whose entry is of the current term and which a majority has, and stays if there is none |
| RaftNodes.RaftNode.Promote | crates/aiondb-ha/src/raft/node.rs:131-153 | the node leads its own term and expects every peer but itself at the end of its log with nothing matched; at the last index it fails |
| RaftNodes.RaftNode.HandleAppendResponse | crates/aiondb-ha/src/raft/node.rs:294-322 | a newer term ends the leadership; a success raises the match index, never lowers it, and moves the next index behind the one reported; a refusal moves the next index back by one, to 1 at least; others' progress stays |
| RaftNodes.RaftNode.ProposeCommand | crates/aiondb-ha/src/raft/node.rs:356-366 | only a leader appends, one entry of its term at the next index, which it returns; a cluster of one commits it at once |
| RaftNodes.RaftNode.BuildAppendRequests | crates/aiondb-ha/src/raft/node.rs:325-353 | a leader asks every follower, with the entry before its next index to compare and all entries from there on; any other node asks nobody |
| RaftNodes.RaftNode.DrainCommitted | crates/aiondb-ha/src/raft/node.rs:369-383 | for a well-numbered log the entries handed out are those after the last applied one up to the commit index |
| RaftNodes.UnappliedIsCommittedTail | crates/aiondb-ha/src/raft/node.rs:369-383 | for every node with a well-numbered log, what is handed out is exactly that stretch of the log |
| RaftNodes.RaftNode.Mark | crates/aiondb-ha/src/raft/node.rs:386-390 | the applied index becomes the higher of the two, so it never falls, and nothing else changes |
| RaftElection.NextKeeps | crates/aiondb-ha/src/raft/node.rs:131-439 | every step of every node keeps the cluster invariant behind the election and log theorems |
| RaftElection.ElectionSafety | crates/aiondb-ha/src/raft/node.rs:164-213 | in every run, no two nodes lead the same term |
| RaftElection.LogMatching | crates/aiondb-ha/src/raft/node.rs:218-289 | in every run, two logs that agree on the term at an index agree up to it |
| RaftElection.LeaderAppendOnly | crates/aiondb-ha/src/raft/node.rs:131-366 | over any run from any state, a node that leads a term at both ends only added to its log |
| RaftSafety.LeaderCompleteness | crates/aiondb-ha/src/raft/node.rs:395-406 | an entry a majority acknowledged in its leader's term is in the log of every later leader |
| RaftSafety.LeadersHaveChosen | crates/aiondb-ha/src/raft/node.rs:395-439 | the same, for all honest runs |
| RaftSafety.StateMachineSafety | crates/aiondb-ha/src/raft/node.rs:218-439 | in every honest run, no two nodes have committed different entries at one index, and commit indexes stay inside the logs |
| RaftSafety.CommittedStays | crates/aiondb-ha/src/raft/node.rs:218-289 | no step of an honest run, restarts included, lowers a commit index or changes a committed entry |
| RaftOvershoot.AnswerIsTruthfulExactlyWhenCovered | crates/aiondb-ha/src/raft/node.rs:283-288 | the index in a successful answer names a shared prefix if and only if it is within what the request covered or the leader has an entry of the same term there |
| RaftOvershoot.SafetyFailsWithoutTheCheck | crates/aiondb-ha/src/raft/node.rs:283-322 | a run of three nodes, all answers of the leader's own term, that commits two different commands at index 1 |
| RaftStale.SafetyFailsWithStaleAnswers | crates/aiondb-ha/src/raft/node.rs:294-322 | a run of five nodes, all answers within what their requests covered, that commits two different commands at index 2 |
| RaftControl.ControlPlane.ApplyCommitted | crates/aiondb-ha/src/raft_control_plane.rs:243-257 | afterwards the applied index is the commit index, nothing is applied twice, and the metadata is what the committed commands say, read off their places in the log as below |
| RaftControl.ReplicasAgree | crates/aiondb-ha/src/raft_control_plane.rs:80-135 | in every honest run, replicas that applied the same number of entries hold the same metadata |
| RaftMetadata.ApplyAllAppend | crates/aiondb-ha/src/raft_control_plane.rs:243-257 | applying a log in two parts is applying it in one |
| RaftHistory.MembersAre | crates/aiondb-ha/src/raft_control_plane.rs:84-96 | a node is a member at an address exactly when some entry added it there and no later one added or removed it |
| RaftHistory.ConfigIs | crates/aiondb-ha/src/raft_control_plane.rs:122-124 | a key has a value exactly when some entry set it and no later one set it again |
| RaftHistory.AssignmentsAre | crates/aiondb-ha/src/raft_control_plane.rs:93-121 | a shard is on a node exactly when its last assignment stands: the node is the target of the last transfer since, or that of the assignment, and no node that held it since was removed meanwhile |
| RaftHistory.FoldReflects | crates/aiondb-ha/src/raft_control_plane.rs:80-135 | all of this holds, for every log, of the state the commands are folded into |
| Csv.ParseCsvLine | xtask/src/neo4j_import.rs:653-677 | the character loop computes the field parser |
| Csv.FailsOnOddQuotes | xtask/src/neo4j_import.rs:653-677 | a line fails exactly when its number of quote characters is odd |
| Csv.RoundTrip | xtask/src/neo4j_import.rs:653-677 | fields written as section 2 of RFC 4180 allows are read back, for every non-empty list; so is every field in which parts with and without quotation marks alternate |
| Csv.FieldsAreCounted | xtask/src/neo4j_import.rs:653-677 | a line that is read has one field more than it has commas outside quotation marks |
| Csv.NothingIsLost | xtask/src/neo4j_import.rs:653-677 | and its fields together hold its characters other than commas and quotation marks, in order |
| Identifiers.SanitizeIdent | xtask/src/neo4j_import.rs:607-626 | the loop computes the normal form of every string |
| Identifiers.SanitizeIsNormal | xtask/src/neo4j_verify.rs:546-565 | the result is not empty, over a-z, 0-9 and underscore, from a letter to a letter or digit |
| Identifiers.SanitizeTwice | xtask/src/neo4j_import.rs:607-626 | a normal form is its own normal form |
| IdentifierWords.SanitizeIs | xtask/src/neo4j_import.rs:607-626 | the normal form is given character by character: small letters, digits and underscores stay, capitals become small, any other character becomes an underscore if it comes first or after a letter or digit and is dropped otherwise; then underscores around are dropped, a digit in front gets "n_", nothing becomes "unnamed" |
| IdentifierWords.WordsAreJoined | xtask/src/neo4j_import.rs:607-626 | words come out in small letters, joined by single underscores, whatever stands between and around them |
| IdentifierWords.WordIsLowered | xtask/src/neo4j_import.rs:607-626 | a word that begins with a letter is kept but for its capitals |
| IdentifierWords.WithoutLetters | xtask/src/neo4j_import.rs:607-626 | a value without letters and digits becomes "unnamed" |
| Neo4jCsv.ReadHeader | xtask/src/neo4j_import.rs:554-581 | the header holds the fields of the line and, for each of ":ID", ":LABEL", ":START_ID", ":END_ID" and ":TYPE", the last column whose trimmed name ends with it in any case; it fails exactly on an odd number of quotes |
| Neo4jCsv.KindIs | xtask/src/neo4j_import.rs:565-577 | each suffix alone decides its kind of column, so the order of the tests does not matter |
| Neo4jCsv.MetaIs | xtask/src/neo4j_import.rs:583-591 | no property is made of exactly the columns of a special kind and those whose trimmed name begins with a colon |
| Neo4jCsv.HintTypes | xtask/src/neo4j_import.rs:593-605 | "int" and "long" give BIGINT, "float" and "double" DOUBLE, "boolean" and "bool" BOOLEAN, in any case, and no other hint does |
| Neo4jCsv.ColumnCut | xtask/src/neo4j_import.rs:593-605 | a raw name is cut at its first colon |
| Neo4jImport.CollectProperties | xtask/src/neo4j_import.rs:413-427 | known columns keep their type, new ones are added, the row takes the last field of a name |
| Neo4jRows.CollectIs | xtask/src/neo4j_import.rs:413-427 | a row holds under each name the last field whose column has it; a column's type is the one it had or that of the first such field; meta columns add nothing |
| Neo4jRows.LineIs | xtask/src/neo4j_import.rs:239-283 | a blank line is skipped, one with an odd number of quotes or of the wrong length is reported, one under a header with both end columns is an edge row and any other a node row |
| Neo4jImport.ImportPlan.ScanNodeRow | xtask/src/neo4j_import.rs:285-337 | a row goes into the table of each of its labels, or is reported and nothing else changes |
| Neo4jRows.NodeRowIs | xtask/src/neo4j_import.rs:285-337 | the table of each label gains one row for each time the row has that label, with its id and properties; the id gets the row's labels; all other tables, their rows and the rest of the plan stay |
| Neo4jRows.NodeRowRefused | xtask/src/neo4j_import.rs:292-308 | a row without an id column, or with a blank id, is reported and changes nothing else |
| Neo4jRows.LabelsAre | xtask/src/neo4j_import.rs:309-315 | labels joined by semicolons are taken apart again and brought to normal form; without any the node is "unlabeled" |
| Neo4jRows.LabelsAreCut | xtask/src/neo4j_import.rs:644-651 | a list of labels is cut at its semicolons, each piece trimmed and blank ones dropped |
| Neo4jImport.ImportPlan.ScanRelationshipRow | xtask/src/neo4j_import.rs:339-411 | a row goes into the table of its type, whose end labels are those of its first row |
| Neo4jRows.EdgeRowIs | xtask/src/neo4j_import.rs:339-411 | the table of the row's type gains one row with the trimmed ids of both ends and the properties; a new table gets the labels known for those ids, "unlabeled" if none is, and no other table changes |
| Neo4jRows.EdgeRowRefused | xtask/src/neo4j_import.rs:346-355 | a row under a header without one of the three columns is reported |
| Neo4jRows.BlankEdgeRefused | xtask/src/neo4j_import.rs:356-366 | so is one with a blank end or type |
| Neo4jImport.ImportPlan.ScanCsv | xtask/src/neo4j_import.rs:239-283 | all lines in order; an unreadable header leaves the plan as it was |
| Neo4jImport.BuildImportPlan | xtask/src/neo4j_import.rs:206-237 | all files in order, completed ones skipped |
| Neo4jImport.Importer.Run | xtask/src/neo4j_import.rs:145-190 | a run that fails leaves the saved state as it was; one that succeeds adds its files and labels to it |
| Neo4jResume.BuildKeeps | xtask/src/neo4j_import.rs:285-427 | every plan's tables have their id columns as BIGINT and rows only of known columns |
| Neo4jResume.ResumeEqualsOneShot | xtask/src/neo4j_import.rs:145-237 | a run resumed after some files plans the rest of what one run plans: rows in order, first-seen types and end labels, same labels, same failures |
| Neo4jResume.ResumeSavesSameState | xtask/src/neo4j_import.rs:165-176 | one run or two, the saved state is the same |
| Neo4jResume.NoFileTwice | xtask/src/neo4j_import.rs:220-235 | no file is planned by two successful runs, whatever runs lie between |
| Neo4jVerify.GatherProperties | xtask/src/neo4j_verify.rs:340-354 | the loop computes the verifier's own column and row building |
| Neo4jVerify.ExpectedGraph.ScanNodeRow | xtask/src/neo4j_verify.rs:275-298 | a row without an id column is dropped, any other is taken, empty ids included |
| Neo4jVerify.ExpectedGraph.ScanRelationshipRow | xtask/src/neo4j_verify.rs:300-338 | a row missing a column is dropped, any other is taken |
| Neo4jVerify.ExpectedGraph.ScanCsv | xtask/src/neo4j_verify.rs:233-273 | all lines in order, unreadable ones reported |
| Neo4jVerify.BuildExpectedGraph | xtask/src/neo4j_verify.rs:217-231 | all files in order, or an error at the first unreadable header |
| Neo4jVerify.BuildersAgree | xtask/src/neo4j_verify.rs:217-354 | importer and verifier read the same exports, and hold the same tables, types, rows, labels and failures exactly when the importer refused no row for its fields |
| Neo4jColumns.OrderedNamesInOrder | xtask/src/neo4j_verify.rs:497-506 | every column once, id columns first, the rest by name |
| Neo4jColumns.OrderedColumnsAgree | xtask/src/neo4j_import.rs:509-518 | importer and verifier order columns alike |
| SqlText.RenderCreateTable | xtask/src/neo4j_import.rs:460-477 | the text of the CREATE TABLE line is added to the buffer |
| SqlText.RenderInsert | xtask/src/neo4j_import.rs:479-507 | the text of the INSERT line is added to the buffer |
| SqlText.RenderSql | xtask/src/neo4j_import.rs:429-458 | the script is the lines of all node tables, then of all relationship tables, in order of their names |
| SqlLexer.NameSurvives | crates/aiondb-parser/src/lexer.rs:794-832 | a quoted identifier is read as it was printed exactly when it fits in 63 bytes, up to its last character |
| SqlLexer.LexQuote | crates/aiondb-parser/src/lexer.rs:834-895 | a printed string literal is read whole, whatever it holds |
| SqlMarks.LexMarks | crates/aiondb-parser/src/lexer.rs:32-313 | text printed from separated words, names, literals and punctuation is read as exactly those tokens |
| SqlRoundTrip.ParseLineBack | xtask/src/neo4j_import.rs:429-507 | the tokens of a printed statement parse to that statement, whatever follows |
| SqlScript.ScriptRoundTrip | xtask/src/neo4j_import.rs:429-507 | every printed script with fitting names and well-typed cells is read back as the statements it was printed from |
| SqlScript.TextInsertReadsBack | xtask/src/neo4j_import.rs:479-518 | an INSERT over TEXT columns gives back its table, its columns in order and one value each: the cell, or NULL for blank or missing |
| Neo4jExecution.TableLinesRun | xtask/src/neo4j_import.rs:432-443 | creating and filling a table succeeds exactly when its name is free and no cell of a NOT NULL column is blank, and stores all rows in order |
| Neo4jExecution.NodeRuns | crates/aiondb-catalog-store/src/writer.rs:873-937 | a node table is accepted with its label, its first column being "id", exactly when its name is free and no cell of a NOT NULL column is blank |
| Neo4jExecution.RelRuns | crates/aiondb-catalog-store/src/writer.rs:939-1010 | a relationship table is accepted exactly when its name is free, no cell of a NOT NULL column is blank and both end labels exist |
| Neo4jPlanRun.ScriptRuns | xtask/src/neo4j_import.rs:429-458 | on any database imports built, a plan's script runs exactly when its names are free and distinct, no cell of a NOT NULL column is blank and all end labels exist |
| Neo4jPlanRun.NodesAreStored | xtask/src/neo4j_import.rs:432-443 | every node table of an accepted plan holds the plan's columns and rows |
| Neo4jPlanRun.ResumedScriptRuns | xtask/src/neo4j_import.rs:165-176 | the script of a second run runs after the first exactly when they share no table, no cell of a NOT NULL column is blank and its end labels exist |
| Neo4jParity.Checksum | xtask/src/neo4j_verify.rs:533-544 | the nested loops compute 64-bit FNV-1a over the bytes of the rows, each with a line feed after it |
| Neo4jParity.FnvVectors | xtask/src/neo4j_verify.rs:533-544 | that hash gives the published FNV-1a values of the empty text and of "a" |
| Neo4jParity.Utf8IsRead | xtask/src/neo4j_verify.rs:533-544 | the bytes of a character are those section 3 of RFC 3629 reads as that character |
| Ordering.LexLtIs | xtask/src/neo4j_verify.rs:377-404 | rows are sorted in lexicographic order: by the first character that differs, or else the shorter first |
| Neo4jParity.CellsNormalizeAlike | xtask/src/neo4j_verify.rs:508-531 | a well-typed cell and the value stored for it normalize to the same text |
| Neo4jParity.ParityMeans | xtask/src/neo4j_verify.rs:373-412 | a table passes exactly when it has the expected number of rows and the hashes of the sorted distinct normalized rows are equal |
| Neo4jParity.SameRowsPass | xtask/src/neo4j_verify.rs:356-413 | rows that normalize alike pass in any order |
| Neo4jParityExact.ParityIsExact | xtask/src/neo4j_verify.rs:373-412 | counts and sets of normalized rows pin the stored rows down, as a multiset, exactly when their texts are all different or all equal and each is unambiguous; what they pass, parity passes |
| Neo4jParityExact.PinnedExactly | xtask/src/neo4j_verify.rs:508-531 | a normalized row has one row of the column types behind it exactly when no column boundary can be shifted and no nullable TEXT cell reads "null" |
| RowCuts.OneReading | xtask/src/neo4j_verify.rs:377-404 | cells joined by bars can be read in one way exactly when no boundary between neighbouring TEXT columns can be shifted |
| Neo4jParityExact.NullPassesForText | xtask/src/neo4j_verify.rs:508-522 | a table whose one row holds the text "null" passes with NULL in its place |
| Neo4jParityExact.BarPassesForBoundary | xtask/src/neo4j_verify.rs:377-404 | whatever stands around the bar, a row of two TEXT cells whose first holds a bar passes with what follows the bar moved into the second, if that is not blank |
| Neo4jEndToEnd.ImportIsVerified | xtask/src/neo4j_verify.rs:171-215 | for every accepted export with well-typed cells and fitting names: the script runs exactly when labels and types are disjoint, no cell of a NOT NULL column is blank and end labels are known, and then every table passes, in any row order |
| Neo4jEndToEnd.VerifiedIsImported | xtask/src/neo4j_verify.rs:356-413 | conversely, a table whose rows have the expected number and texts holds exactly the plan's rows, if the texts tell rows apart |
| Calendar.DaysOfCivil | xtask/src/ecosystem_compat.rs:2832-2845 | every day number gives a valid date, without unsigned underflow, and the date gives the number back |
| Calendar.CivilOfDays | xtask/src/check_ignored_tests.rs:172-179 | every valid date, negative years included, comes back from its day number |
| Calendar.EpochIsZero | xtask/src/check_ignored_tests.rs:172-179 | 1970-01-01 is day 0 |
| Calendar.SuccessorIsNext | xtask/src/check_ignored_tests.rs:172-179 | the day after a date has the next number |
| Calendar.OrderIsLexicographic | xtask/src/check_ignored_tests.rs:172-179 | day numbers of valid dates compare as year, month and day do |
| Calendar.ExpiryIsDateOrder | xtask/src/check_ignored_tests.rs:130-170 | for a date the parser takes, the expiry test is date order on every day if and only if the date exists |
| Calendar.StampRecomposes | xtask/src/ecosystem_compat.rs:2820-2830 | the printed fields are in range, and give the time back exactly when its seconds fit in 63 bits |
| Calendar.PrintedDateReads | xtask/src/ecosystem_compat.rs:2829-2829 | a printed date is read by the expiry check as its own day exactly when its year is not negative |
| Calendar.DateTextShape | xtask/src/ecosystem_compat.rs:2829-2829 | dates of four-digit years are printed in ten characters, digits but for two hyphens, as in section 5.6 of RFC 3339 |
| Calendar.YmdIsRead | xtask/src/check_ignored_tests.rs:161-170 | a day is read exactly from three numbers with hyphens between, none with a hyphen itself, the second from 1 to 12 and the third from 1 to 31; it is the day of that date |
| CrashLint.RequiresTestSound | xtask/src/runtime_crash_lints.rs:291-308 | a cfg predicate called test-only holds in test builds only, for every nesting |
| CrashLint.RequiresTestExact | xtask/src/runtime_crash_lints.rs:291-308 | the answer is exact for predicates that keep `test` out of negations, hold no empty choice and ask of no option both that it be set and unset |
| CrashLint.NegationIsMissed | xtask/src/runtime_crash_lints.rs:305-305 | `not(not(test))` is test-only and not recognized |
| CrashLint.TestOnlyIsNotAdmitted | xtask/src/runtime_crash_lints.rs:261-289 | what carries a test-only attribute is not compiled without `test` |
| CrashLint.TestOnlyIsExact | xtask/src/runtime_crash_lints.rs:261-289 | for plain predicates an attribute is test-only exactly when its path ends in `test` or it is compiled in test builds only |
| CrashLint.RuntimeCrashVisitor.Visit | xtask/src/runtime_crash_lints.rs:347-430 | a visit adds what the tree records, in order: exactly the calls of unwrap and expect and the panic macros outside test-only items and signatures, each with its place |
| CrashLint.RecordedIsReported | xtask/src/runtime_crash_lints.rs:347-430 | the same of the record of every tree, place by place |
| CrashLint.RecordsExposedSites | xtask/src/runtime_crash_lints.rs:347-430 | recorded are exactly the sites that neither a test-only item nor a function signature encloses |
| CrashLint.LiveSitesAreRecorded | xtask/src/runtime_crash_lints.rs:347-430 | a crash site that a build without `test` compiles is recorded if and only if it is not in a function signature |
| CrashLint.SignatureSitesAreMissed | xtask/src/runtime_crash_lints.rs:380-392 | a site in a signature is compiled in every build and not recorded |
| CrashLint.StatementAttributesAreIgnored | xtask/src/runtime_crash_lints.rs:347-430 | a test-only statement is reported all the same |
| CrashLint.CheckAllowlist | xtask/src/runtime_crash_lints.rs:94-108 | the lint passes exactly when the entries found are the allowlist, and otherwise names what is missing from either |
| CrashLint.SameLineIsUnseen | xtask/src/runtime_crash_lints.rs:151-154 | entries leave out the column, so a further site of an allowed kind on an allowed line changes nothing |
| DecayingRates.DecayingRate.Add | crates/aiondb-admission/src/decay_rate.rs:32-42 | on a counter that is not negative, a sample that is not negative raises every later reading by at least what is left of it then, and by exactly that if and only if there is no decay, the value was zero or the call loses no time |
| DecayingRates.DecayingRate.Current | crates/aiondb-admission/src/decay_rate.rs:44-54 | the result is the reading at that time; no later reading falls, and it stays the same if and only if there is no decay, the value is not positive or the call loses no time |
| DecayCounted.RunIsCounted | crates/aiondb-admission/src/decay_rate.rs:32-54 | for calls at any times and any samples, the counter reads what one that loses no time reads on counted time |
| DecayReadings.LazyDecayIsExact | crates/aiondb-admission/src/decay_rate.rs:32-54 | for calls at any times and any samples, the reading is at most the sum of samples decayed by counted time, and equal to it if and only if there is no decay or no time was counted while the sum was negative |
| DecayReadings.LazyDecayIsTheSum | crates/aiondb-admission/src/decay_rate.rs:32-54 | for calls in order of time and samples that are not negative, the reading is at least the sum of samples decayed by the whole microseconds since, and equal to it if and only if there is no decay or, for every positive sample, the rounded gaps between the calls since add up to them |
| DecayReadings.NegativeSamplesDoNotFade | crates/aiondb-admission/src/decay_rate.rs:48-52 | a negative sample is read unchanged after time has passed |
| DecayReadings.ReadsChangeNothing | crates/aiondb-admission/src/decay_rate.rs:44-54 | reads never lower a later result, and leave it as it would be without them if and only if there is no decay or, for every positive sample, no time since is lost to a read |
| DecayReadings.ReadingIsBounded | crates/aiondb-admission/src/decay_rate.rs:32-54 | samples of at most S in each counted microsecond keep the reading at most S / (1 - r) |
| DecayReadings.SpacedIsBounded | crates/aiondb-admission/src/decay_rate.rs:32-54 | samples of at most S, in calls at least a microsecond apart, keep the reading at most S / (1 - r) |
| DecayReadings.WholeIsBounded | crates/aiondb-admission/src/decay_rate.rs:32-54 | so do samples of at most S at each time in calls whole microseconds apart |
| DecayReadings.WholeMicrosecondsAreExact | crates/aiondb-admission/src/decay_rate.rs:32-54 | with calls whole microseconds apart the reading is at most the decayed sum and, for samples that are not negative, equal to it and independent of reads |
| DecayReadings.RapidCallsNeverDecay | crates/aiondb-admission/src/decay_rate.rs:35-41 | after calls each less than a microsecond after the one before, the value is the total of the samples |
| DecayReadings.BurstIsNotBounded | crates/aiondb-admission/src/decay_rate.rs:35-41 | after n samples of 1 every half microsecond the reading is n, and more than the decayed sum from the third on |
| DecayReadings.ReadStopsDecay | crates/aiondb-admission/src/decay_rate.rs:47-52 | a sample of 1 reads r after a microsecond, but 1 if it was also read after half of it |
| DecayingRates.AnyOrderIsBounded | crates/aiondb-admission/src/decay_rate.rs:35-35 | with times in any order the reading stays between zero and the sum of samples |
| Counting.CountOccurrences | xtask/src/compat_debt_report.rs:575-586 | the loop ends and counts occurrences left to right |
| Counting.GreedyIsOptimal | xtask/src/compat_debt_report.rs:575-586 | that is the largest number of occurrences without overlap |
| Counting.FindMatchingCloseBrace | xtask/src/compat_debt_report.rs:292-307 | the result is the first place where closing braces outnumber opening ones, or there is none |
| TestRegions.TrackRegions | xtask/src/check_adr.rs:557-586 | the loop skips the lines the tracker says |
| TestRegions.RegionIsBelow | xtask/src/check_adr.rs:579-583 | an open region was entered below the current depth |
| TestRegions.SkippedLines | xtask/src/check_adr.rs:567-586 | skipped are exactly the lines from an opening one to the one after which the depth is back |
| TestRegions.NothingLeftOpen | xtask/src/check_adr.rs:579-583 | a balanced file whose depth is never negative leaves no region open |
| TestRegions.NegativeDepthLeavesOpen | xtask/src/check_adr.rs:579-583 | a balanced file with a negative depth can leave one open |
| JsonText.JsonEscape | xtask/src/checkworld_lite.rs:770-784 | the loop escapes character by character |
| JsonText.DecodeEscaped | xtask/src/checkworld_lite.rs:770-784 | decoding by section 7 of RFC 8259 undoes escaping, for every string |
| JsonText.EscapeLengths | xtask/src/checkworld_lite.rs:770-784 | quotation mark, backslash, line feed, carriage return and tab take two characters, other control characters six, in small letters, and the rest stays |
| JsonText.EscapedIsClean | xtask/src/checkworld_lite.rs:770-784 | no control character and no unescaped quotation mark is left |
| JsonText.EscapesAgree | xtask/src/check_compat_tasks.rs:384-389 | the replacements in turn agree with the one-pass escape exactly on strings whose control characters are newlines |
| Percentiles.PercentileRank | xtask/src/neo4j_bench.rs:319-326 | with i the position, which is the percentile of n - 1 rounded up, at least i + 1 samples are at most the result and at least n - i at least it |
| Percentiles.OrderDoesNotMatter | xtask/src/neo4j_bench.rs:319-326 | the order of the samples is irrelevant |
| Percentiles.PercentileRises | xtask/src/neo4j_bench.rs:319-326 | a higher percentile is never lower |
| Percentiles.Extremes | xtask/src/neo4j_bench.rs:319-326 | percentile 0 is the least sample and 100 the greatest |
| Markdown.CollectListItems | docs/build.py:119-150 | lines are taken as long as they belong to the list, at least one, and there are as many items as lines among them that begin one |
| Markdown.RenderMarkdown | docs/build.py:153-277 | rendering ends on every source; blocks cover all lines in order, each once, end where they must, and are rendered inside likewise |
| MarkdownLines.KindIs | docs/build.py:169-277 | each kind of line is known by its own pattern alone: blank lines, fences, HTML, rules, headings, quotations, items, tables; no line fits two |
| MarkdownLines.HtmlIs | docs/build.py:191-194 | an HTML block begins with a bracket, a name that begins with a letter, and white space, a slash or a bracket; its tag is that name in small letters |
| MarkdownLines.SeparatorIs | docs/build.py:257-257 | the line under a table's head is an optional bar, white space, an optional colon, three hyphens and later a bar |
| MarkdownLines.TagDeltaIs | docs/build.py:196-201 | the depth of tags changes by the most opening tags a line holds without overlap, less the most closing ones |
| MarkdownLines.UnquotedIs | docs/build.py:229-235 | the text of a quoted line is what follows the brackets in front, stripped |
| MarkdownLines.BlockBreakIs | docs/build.py:106-116 | headings, quotations, fences, table rows and rules end a list, and nothing else does |
| MarkdownLines.InListIs | docs/build.py:119-150 | a line belongs to a list if it is not blank, begins no item of the other kind and ends no list |
| MarkdownLines.SplitLinesIs | docs/build.py:154-154 | the source is cut at its line breaks, a carriage return with a line feed being one, and a last line is there only if it is not empty |
| Markdown.InnerIsShorter | docs/build.py:183-231 | the text of a quotation and the body of a div are shorter than the source |
| MarkdownDiv.DivBodyIsExact | docs/build.py:204-207 | a body is captured exactly when the pattern fits the text; it then comes from the fit with the most white space before the body and, among those, the shortest body |
| MarkdownDiv.DivBodyIsShorter | docs/build.py:204-207 | a captured body is shorter than the text by the tags, the bracket and two line feeds at least |
| Inventory.ValidateInventory | scripts/dependency_inventory.py:94-149 | no errors exactly for valid inventories |
| Inventory.VerifyBundleInventory | scripts/verify_release_bundle.py:322-370 | passes exactly the valid inventories, so exactly those the other validator passes |
| InventoryMeaning.ValidMeans | scripts/dependency_inventory.py:94-149 | valid means: version 1 of a Cargo.lock; a non-empty list of packages, each with a name, a version, a source, no checksum or one of 64 hexadecimal digits and a count of dependencies, in strictly increasing order of name, version and source; and the three counts are right |
| InventoryMeaning.LockfileMeans | scripts/dependency_inventory.py:40-91 | an inventory is written exactly for a non-empty list of packages, each with a name, a version and, if any, a source, checksum and list of dependencies of the right form, no two of the same name, version and source |
| Inventory.ReadLockfile | scripts/dependency_inventory.py:40-91 | an inventory is written exactly for a non-empty list of well-formed packages with distinct keys |
| Inventory.GeneratedIsValid | scripts/dependency_inventory.py:40-91 | what is written for a Cargo.lock is valid and holds each package once |
| InventoryMeaning.GeneratedHolds | scripts/dependency_inventory.py:40-91 | what is written has a package for each of the Cargo.lock and no other, with its name, version, checksum and number of dependencies, and its source or "workspace" |

## Left out

- Writing and reading Raft's files, and changes of cluster membership: saving is taken to succeed, and the set of nodes is fixed.
- Election timers, and how a candidate counts its votes: the source leaves both to the caller; a node wins when a majority's grants have reached it.
- DOUBLE columns: the text of floating point numbers belongs to libraries, so cells of such columns are blank in the end-to-end results.
- Neo4jEndToEnd.ImportIsVerified: leaves out the sample queries over relationships, and cells the engine would convert, such as quoted text into a BOOLEAN column.
- Neo4jParityExact.ParityIsExact: compares the sets of normalized rows, where the source compares their checksums, so collisions are set aside; cells are well-typed and DOUBLE columns hold nothing, as in the end-to-end results.
- The rest of the SQL lexer and parser: comments, prefixed strings and all statements an import script does not contain are errors in the model.
- The literal -9223372036854775808: the engine's lexer reads its digits as a numeric literal (`crates/aiondb-parser/src/lexer.rs:638-652`), which the model takes for an integer like any other.
- Case folding of label names in the catalogue: names made by the importer are lower case.
- CSV fields that span lines: the tools split a file into lines first.
- The directory walk, file names that are not UTF-8, and the reports: files are given as an ordered list of names and lines.
- Calendar.DaysOfCivil: 64-bit overflow at years beyond the range of any clock is not modelled.
- CrashLint.LiveSitesAreRecorded: code inside macro arguments, which are opaque to the visitor, is not counted as a site; a path ending in `test` is taken to mark a test function.
- TestRegions.TrackRegions: a line is given by its brace counts and the four questions the tracker asks of it, not by its text.
- DecayReadings.LazyDecayIsExact: values and decay factors are real numbers, where the source computes in f64 and rounds.
- Counting.CountOccurrences: characters stand for the bytes of the source, where searching gives the same result.
- Markdown.RenderMarkdown: rendering inside lines is left out; digits of ordered lists and characters of tag names are ASCII, where `\d` and `\w` take all of Unicode.
- Inventory.ValidateInventory: documents are taken decoded; how `str` shows values that are not strings is a parameter.
- The test-function counter of the compatibility report and the fixed-phrase checks: substring tests with nothing to prove beyond their text.
- Admission control's token buckets, benchmarks, servers and clients: thin wrappers, or input and output.
