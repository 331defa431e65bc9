# DDoS detection system — a verified model of its core

This project models the detection core of a small DDoS-detection system. It
has three parts.

- **The monitor** (`monitoring.py`):
  - tails an append-only access log through a byte cursor;
  - parses each new `IP: <ip>, URL: <url>, Time: <time>` line;
  - bulk-inserts the parsed requests into a `requests` table;
  - for every distinct source address of the batch, queries that address's
    trailing window, computes a request rate and a distinct-URL count,
    classifies them with a random forest, and writes the verdict back onto
    the window's rows.
- **The table and its operations** (`database.py`), the feature computation
  (`utils.py`), and the classifier wrapper with its source-address encoder
  (`model.py`).
- **The two training-set builders**:
  - `create_training_data.py` labels every parsed log request by the request
    rate of the 30-second window that ends at it;
  - `data_processing.py` maps a CIC-DDoS flow table onto the same four
    columns through lists of candidate column names.

One Dafny module per source file:

| module | file | form |
|---|---|---|
| `Common`, `Text`, `Sorting` | — | Python's `str` operations, `Option`/`Result`, a stable sort |
| `Tailer` | tailer.dfy | the cursor, `readlines`, and what a poll returns |
| `LineParser` | line_parser.dfy | the monitor's line parser, as written and corrected, and the batch loop over either |
| `Monitoring` | monitoring.dfy | class `Monitor` (cursor and store as fields), proved against `StepSpec`/`RunSpec` |
| `Database` | database.dfy | class `Store` over a `seq<Row>`, proved against `Window`/`Annotate`/`Recent` |
| `Utils` | utils.dfy | `compute_features` |
| `Model` | model.dfy | class `DDoSModel` and a `Disk` class holding the three files |
| `CreateTrainingData` | create_training_data.dfy | the regular expressions, the script's loops as methods, and the functions that specify them |
| `DataProcessing` | data_processing.dfy | name normalisation, candidate lookup, the column assignments |

Modelling choices:

- **Timestamps** are whole seconds (`int`), written in the log as decimal
  digits. Rates are `real`.
- **The SQLite table** is a sequence of rows, and every statement is atomic.
  A store operation may fail in one of two ways:
  - the statement fails. The insert and the update catch this
    (`sqlite3.Error`). The window query does not: `pd.read_sql_query`
    re-raises it as pandas' `DatabaseError`, so it reaches the monitor's
    generic handler, and the rest of that sweep is lost;
  - the connection fails (raised out of the function, to the monitor's
    generic handler).
- **The clock, the log file's content and the store's failures** are inputs
  of each loop iteration (a `Tick`). The sleeps become the `Delay` the
  iteration ends with.
- **The forest** is an uninterpreted decision `FeatureRow -> bool`. Fitting
  it is a parameter `Learner`.
- **`pd.to_numeric`** is a parameter `Numeric` of type `string -> Option<real>`.
- **The line parsers** are modelled twice: as written, and corrected where
  the code evidently does not do what was meant (see "## Findings"). The
  monitor's loop takes its parser as a parameter of its `Config`; the
  program's `Start` installs `LineParser.ParseLineAsWritten`, so everything
  proved about `StepSpec` and `RunSpec` holds for the code as written. The
  training script is modelled as written, abort included
  (`CreateTrainingData.TrainingSet`); `IntendedTrainingSet` is the corrected
  script, and `AbortIsTheOnlyDifference` relates the two.
- **`train_test_split(test_size=0.2, stratify=y)`** is modelled by when it
  raises (`Model.Splittable`): an empty train part, a label that occurs
  once, or a part too small to hold every label. Which rows it draws is not
  modelled.

A batch whose store operations fail is not read again. `last_pos` moves to
the end of the file (monitoring.py:29) before `log_requests_bulk` runs, and
that function swallows `sqlite3.Error` (`Monitoring.StepSpec`,
`Monitoring.StepKeepsHistory`).

## Model

| member | source | states |
|---|---|---|
| Tailer.InitialCursor | monitoring.py:17-22 | the startup cursor is the log's length when the log exists, and 0 otherwise |
| Tailer.SplitLines | monitoring.py:28 | `readlines` yields non-empty lines; every line but the last ends in `\n`, and no line has a `\n` before its end |
| Tailer.SplitLinesConcat | monitoring.py:28 | joining the lines back gives exactly the text read |
| Tailer.SplitLinesEmpty | monitoring.py:28-31 | a poll yields no lines exactly when nothing was appended |
| Tailer.Poll | monitoring.py:26-29 | the cursor never decreases; a poll moves it to end-of-file and returns exactly the text after it; a cursor past the end reads nothing and stays put |
| Tailer.PollAfterAppend | monitoring.py:26-29 | after a poll, the next poll of a grown file returns exactly the appended text's lines; earlier text is never returned again |
| Tailer.ReadAllAppendOnly | monitoring.py:17-29 | while the log only grows, polling from the startup cursor reads every byte appended after startup exactly once, in order, and nothing written before |
| Tailer.PrefixChain | monitoring.py:24-29 | the file at startup is a prefix of every later snapshot of an append-only log |
| Text.SplitHeadIsPrefix | monitoring.py:41-42 | `split(",")[0]` is a prefix of the text |
| Text.SplitHeadWhole | monitoring.py:41-43 | `split(sep)[0]` of a text without the separator is the whole text |
| Text.SplitHeadStopsAtSeparator | monitoring.py:41-42 | `split(sep)[0]` holds no separator and is followed by one unless it is the whole text |
| Text.SplitSecondAt | monitoring.py:41-43 | `split(sep)[1]` starts right after the first separator and runs to the next one |
| Text.SplitSecondNone | monitoring.py:41-43 | `split(sep)[1]` exists exactly when the separator occurs |
| Text.AfterLast | monitoring.py:43 | the text after the last `Time: ` exists exactly when the marker occurs, and it contains no further marker |
| Text.Strip | monitoring.py:43 | `strip()` is no longer than the text and neither starts nor ends with whitespace |
| Text.StripIsSlice | monitoring.py:43 | `strip()` is a slice of the text and only whitespace is removed around it |
| Text.ParseNatToString | monitoring.py:44 | a timestamp written in decimal reads back as itself |
| LineParser.ParseLineAsWritten | monitoring.py:41-47 | the program's line parser: the address and the URL run from their markers to the next comma, the time is the stripped text between the first and the second `Time: `; a missing marker or an unreadable time drops the line |
| LineParser.ParseTimestamp | monitoring.py:43-44 | the time text parses exactly when it is a non-empty run of digits; the result is non-negative |
| LineParser.ParsedLineHasMarkers | monitoring.py:41-44 | a line that parses, as written or with the time taken after the last `Time: `, contains all three markers |
| LineParser.ParseProducerLine | monitoring.py:41-47 | round trip: the corrected parser reads back the address, URL and time of every line the front end writes, for an address without comma or space and a URL without comma or `URL: ` |
| LineParser.ParseProducerLineAsWritten | monitoring.py:41-47 | the same round trip for the parser as written; it additionally needs a URL without `Time: ` |
| LineParser.TimeInUrlIsDropped | monitoring.py:43 | as written, a well-formed front-end line whose URL contains `Time: ` is dropped |
| LineParser.TimeInUrlIsRead | monitoring.py:43 | the corrected parser reads that line back |
| LineParser.BadTimeDropsLine | monitoring.py:43-50 | a line whose time text is not a number is skipped |
| LineParser.ParseBatch | monitoring.py:37-50 | for either parser, the parsed batch is no longer than the lines read |
| LineParser.ParseBatchAppend | monitoring.py:39-50 | for either parser, lines are parsed independently: the parse of a concatenation is the concatenation of the parses, in line order |
| LineParser.MalformedLineSkipped | monitoring.py:39-50 | for either parser, a line that does not parse is dropped and the lines around it are still parsed |
| LineParser.ParseBatchSound | monitoring.py:39-50 | for either parser, every parsed entry is the parse of one of the lines |
| LineParser.TimeInUrlBatch | monitoring.py:39-50 | the loop as written keeps nothing of the front-end line for the path `/Time: 5` (URL `/Time: 5?`); the corrected loop keeps that request |
| Tailer.LineThen | monitoring.py:28 | a line ending in a newline at the front of the text is the first line `readlines` yields |
| Monitoring.DistinctIps | monitoring.py:60 | `unique()`: no address twice, and exactly the addresses of the batch |
| Monitoring.DistinctIpsInFirstOrder | monitoring.py:60 | `unique()` lists the addresses in the order of their first entries |
| Monitoring.Decision | monitoring.py:71-78 | the prediction is 0 or 1 |
| Monitoring.Sweep | monitoring.py:63-80 | the per-address loop keeps every row's ip, timestamp and url, and the number of rows; it raises, losing the rest of the sweep, whenever a window query fails or the window length is zero |
| Monitoring.SweepLabelsWindows | monitoring.py:63-80 | with a healthy store, every row of a swept address at or after the window start carries that address's window features and prediction; every other row is unchanged |
| Monitoring.SweepLabelsAll | monitoring.py:63-80 | the same for the whole list of addresses, all with one window start |
| Monitoring.StepSpec | monitoring.py:24-91 | one pass of the loop: a missing log backs off 5 s; an empty poll waits 1 s; a batch with no parsable line restarts at once; any other batch is inserted and swept, then the loop backs off; the cursor moves to end-of-file before anything is inserted |
| Monitoring.StepOfBatch | monitoring.py:37-64 | an iteration whose configured parser (the as-written one in the program) keeps a non-empty batch inserts it and sweeps its addresses from `now - window_size`, then backs off |
| Monitoring.StepDelay | monitoring.py:24-91 | for any line parser, the loop never stops: 1 s after an empty poll, an immediate restart after a batch with no parsable line, 5 s after everything else, errors included |
| Monitoring.StepKeepsHistory | monitoring.py:26-57 | the cursor never moves back; the table's keys are kept, followed by nothing or by exactly the batch the configured parser keeps, in line order |
| Monitoring.OneLineStep | monitoring.py:24-57 | a poll that reads one whole line either restarts at once with the table unchanged, when the line does not parse, or appends exactly the parsed request and backs off |
| Monitoring.TimeInUrlStep | monitoring.py:24-57 | with the parser as written, the front-end line for the path `/Time: 5` (URL `/Time: 5?`) moves the cursor past it and stores nothing; with the corrected parser, that request is stored |
| Monitoring.EmptyBatchWritesNothing | monitoring.py:52-57 | a batch with no parsable line writes nothing to the store |
| Monitoring.BatchLabelsWindows | monitoring.py:57-80 | with a healthy store, the batch is appended in line order and every row of each batch address in the window carries that window's verdict |
| Monitoring.RunSpec | monitoring.py:24-91 | one delay per iteration |
| Monitoring.RunKeepsHistory | monitoring.py:24-91 | over any number of iterations the cursor never moves back and no row is lost or altered in its ip, timestamp or url |
| Monitoring.RunCursorFollowsPolls | monitoring.py:24-29 | while the log exists, the cursor moves exactly as successive polls of the snapshots move it |
| Monitoring.Monitor.Start | monitoring.py:9-22 | `init_db` failure raises before anything else; the model is loaded or trained as `DDoSModel()` does, failing when the stratified split would raise; the cursor starts at end-of-file, or 0; the loop runs the parser as written |
| Monitoring.Monitor.ParseLines | monitoring.py:37-50 | the line loop returns exactly `ParseBatch` of the lines, for the monitor's parser |
| Monitoring.Monitor.ClassifyBatch | monitoring.py:59-80 | the per-address loop leaves the table `Sweep` describes and raises when it does |
| Monitoring.Monitor.ClassifyAddress | monitoring.py:64-80 | one pass for one address either raises where `Sweep` raises, or leaves the table from which `Sweep` goes on with the next address |
| Monitoring.Monitor.InsertAndClassify | monitoring.py:57-80 | bulk insert then per-address loop leave the table `InsertAndSweep` describes |
| Monitoring.Monitor.Step | monitoring.py:25-91 | one iteration moves cursor and table as `StepSpec` says and returns its delay |
| Monitoring.Monitor.Run | monitoring.py:24-91 | any number of iterations move cursor and table as `RunSpec` says |
| Database.Fresh | database.py:28-29 | an inserted row carries the entry's ip, timestamp and url |
| Database.FreshRows | database.py:28-29 | one fresh row per entry, in order |
| Database.Window | database.py:40-42 | the window holds exactly the table's rows with that ip and a timestamp at or after the start |
| Database.Annotate | database.py:58-60 | the update writes the three annotations on exactly the rows the window query selects, and changes no ip, timestamp or url and no other row |
| Database.Store.InitDb | database.py:8-16 | `CREATE TABLE IF NOT EXISTS` never touches existing rows; it raises exactly when the store fails |
| Database.Store.LogRequestsBulk | database.py:18-34 | a committed insert appends every entry in order with annotations `(0.0, 0.0, 0)`; a failed one changes nothing; only a failed connection raises |
| Database.Store.GetLogsInWindow | database.py:36-50 | the window rows when the store is healthy; any failure, a failing statement included, raises to the caller |
| Database.Store.UpdatePrediction | database.py:52-66 | the table becomes `Annotate` of it and the affected count is the window's size; a failed statement changes nothing |
| Database.Recent | database.py:71-73 | the table newest first, cut to `limit` rows when `limit` is between 0 and the table's size |
| Database.Store.GetRecentLogs | database.py:68-79 | at most `limit` rows, newest first, all taken from the table |
| Database.WindowOfAppend | database.py:40-42 | the window of a concatenation is the concatenation of the windows |
| Database.InsertThenQuery | database.py:28-42 | round trip: after a bulk insert the window query returns the old window followed by the batch entries of that ip at or after the start |
| Database.FreshWindow | database.py:28-42 | the window of freshly inserted rows is the fresh rows of the matching entries |
| Database.InsertedRowsAreQueried | database.py:28-42 | a window starting no later than every inserted entry of an ip finds all of them |
| Database.AnnotateIdempotent | database.py:58-60 | repeating an update with the same arguments changes nothing more |
| Database.UpdateTouchesQueriedRows | database.py:40-60 | the rows the update touches are the rows the query returned |
| Database.AnnotateOthersUnchanged | database.py:58-60 | rows of another ip or before the start are untouched |
| Database.WindowOfOtherIp | database.py:40-60 | an update for one ip does not change any other ip's window |
| Database.KeysAfterInsert | database.py:28-29 | after an insert the keys are the old keys followed by the batch |
| Database.RecentIsNewestPrefix | database.py:71-73 | the recent read is sorted newest first, is a sub-multiset of the table of the right size, and no row left out is newer than a row returned |
| Utils.DistinctUrls | utils.py:16 | the distinct URLs of the window, whose number `nunique()` counts |
| Utils.ComputeFeatures | utils.py:4-18 | an empty window gives `(0.0, 0.0)`; otherwise rate × window size = row count, and the proxy is the number of distinct URLs |
| Utils.DistinctUrlsBound | utils.py:16 | between 1 and the row count distinct URLs in a non-empty window |
| Utils.FeatureBounds | utils.py:8-16 | for a non-empty window of positive length: a positive rate and `1 <= unique_urls_proxy <= rows` |
| Utils.FeaturesIgnoreOrder | utils.py:13-16 | the features depend only on the multiset of rows |
| Model.InsertClass | model.py:32 | inserting into the sorted class list keeps it strictly sorted and adds exactly that value |
| Model.FitClasses | model.py:32 | `LabelEncoder.fit` keeps the distinct values, strictly sorted |
| Model.Encode | model.py:59-64 | a known address gets its index among the classes; an unknown one gets -1 |
| Model.DesignMatrix | model.py:33-36 | one feature row and one target per training row, with the encoded address and the two features |
| Model.EncodingOfTrainingSet | model.py:32-33 | an address gets a non-negative code exactly when it occurs in the training set |
| Model.EncodeInjective | model.py:59-64 | distinct known addresses never share a code |
| Model.DDoSModel.Unfitted | model.py:11-12 | a new wrapper is unfitted, with no classes |
| Model.DDoSModel.Create | model.py:10-19 | load when the model file exists (failing when the encoder file is missing), train otherwise (failing when the CSV is missing or the split raises), saving both files only on success |
| Model.DDoSModel.TrainModel | model.py:22-49 | a missing CSV raises before anything changes; otherwise the encoder is fitted on `src_ip`; when the stratified split raises, nothing is fitted further or saved; otherwise the forest is fitted on the design matrix and both are saved |
| Model.Splittable | model.py:38-40 | the split returns when the train part is not empty, no label occurs once, and both parts have at least as many rows as there are distinct labels; it raises otherwise |
| Model.TestSize | model.py:38-40 | the test part is the least count that is at least a fifth of the rows |
| Model.TwoLabelSplit | model.py:38-40 | with labels 0 and 1 both present, the split succeeds exactly when there are at least six rows and each label occurs at least twice |
| Model.LoneLabelFails | model.py:38-40 | a label that occurs on one row only makes the split raise |
| Model.DDoSModel.LoadModel | model.py:51-54 | the forest is loaded first; a missing encoder file raises after that |
| Model.DDoSModel.EncodeIp | model.py:59-64 | the address's index among the fitted classes, or -1 |
| Model.DDoSModel.Predict | model.py:56-57 | the prediction is 0 or 1, and 1 exactly when the forest says so |
| Sorting.SortBy | create_training_data.py:36 | `sort_values` yields a sorted permutation |
| CreateTrainingData.MatchAt | create_training_data.py:23-25 | a match at a position is the marker, a non-empty class run and a comma, and the group is that run |
| CreateTrainingData.NoMatchNoPattern | create_training_data.py:23-25 | no match at a position means no group length makes the pattern fit there |
| CreateTrainingData.Search | create_training_data.py:23-25 | `re.search` finds a position at or after the start where the pattern matches |
| CreateTrainingData.SearchIsLeftmost | create_training_data.py:23-25 | the position `re.search` finds is the leftmost match, and when it finds none no position matches |
| CreateTrainingData.GroupOf | create_training_data.py:23-25 | a captured group is non-empty and made of the class's characters |
| CreateTrainingData.GroupOfNone | create_training_data.py:23-25 | the search fails exactly when the pattern matches nowhere |
| CreateTrainingData.RunLengthExact | create_training_data.py:23-25 | a class run followed by a comma is the longest run, so the greedy group ends at the comma |
| CreateTrainingData.TimeGroup | create_training_data.py:24 | `Time: (.*)` matches exactly when the marker occurs, and the group stops before the newline |
| CreateTrainingData.ParseTrainingLine | create_training_data.py:22-30 | a parsed entry has a non-empty address and URL without commas, and a non-negative time |
| CreateTrainingData.ParseTrainingLineAsWritten | create_training_data.py:22-30 | the script's per-line parse: a line missing any of the three patterns is skipped; otherwise the entry, or an abort when the time text does not parse |
| CreateTrainingData.AsWrittenDiffersOnlyOnBadTime | create_training_data.py:22-30 | the script as written aborts exactly on a line all three patterns match whose time does not parse; on every other line it agrees with the corrected parser |
| CreateTrainingData.UnreadableTimeAborts | create_training_data.py:26-28 | as written, `IP: 1, URL: /, Time: x` aborts the script |
| CreateTrainingData.UnreadableTimeSkipped | create_training_data.py:26-30 | the corrected parser skips that line |
| CreateTrainingData.ParseTrainingProducerLine | create_training_data.py:23-26 | round trip: the patterns read back what the front end writes for a dotted-decimal address and a URL without comma or `Time: ` |
| CreateTrainingData.ParsedEntriesExact | create_training_data.py:21-30 | an entry is parsed exactly when some line parses to it |
| CreateTrainingData.MalformedLineSkipped | create_training_data.py:21-30 | a malformed line is dropped and the lines around it are still read |
| CreateTrainingData.SurvivorsAppend | create_training_data.py:21-30 | parsing is line by line: the parse of a concatenation is the concatenation of the parses |
| CreateTrainingData.SortByTime | create_training_data.py:36 | sorted by timestamp, a permutation of the parsed entries |
| CreateTrainingData.TrailingWindow | create_training_data.py:43-47 | the window keeps every entry, of every source, with `t - 30 < timestamp <= t`, each as often as it occurs, and nothing else |
| CreateTrainingData.Label | create_training_data.py:54 | the label is 1 exactly when the rate exceeds 10.0 |
| CreateTrainingData.Records | create_training_data.py:42-61 | one record per row, in row order, carrying the row's address |
| CreateTrainingData.RateAtLeastOnePerWindow | create_training_data.py:43-49 | a row is in its own window, so every rate is at least 1/30 |
| CreateTrainingData.LabelCountsRequests | create_training_data.py:47-54 | the label is 1 exactly when more than 300 requests, from any source, fall in the window |
| CreateTrainingData.SameTimeSameLabel | create_training_data.py:43-54 | the window is not filtered by source: two rows with one timestamp get the same features and label |
| CreateTrainingData.SortingKeepsFeatures | create_training_data.py:36-49 | a row's features depend only on the parsed entries, not on the order the sort leaves ties in |
| CreateTrainingData.WindowIgnoresOrder | create_training_data.py:47-49 | the window's features depend only on the multiset of entries |
| CreateTrainingData.Outcomes | create_training_data.py:21-30 | one outcome per line, the as-written parse of that line |
| CreateTrainingData.Keep | create_training_data.py:21-30 | the loop over outcomes fails only with the unreadable-time abort |
| CreateTrainingData.KeepFailsOnAbort | create_training_data.py:21-30 | the loop fails exactly when some line aborts |
| CreateTrainingData.KeepAgrees | create_training_data.py:21-30 | outcomes that agree with the corrected parses wherever they do not abort give the abort when some line aborts, and otherwise exactly the corrected parser's survivors |
| CreateTrainingData.ParsedLogAgrees | create_training_data.py:21-30 | the as-written loop aborts exactly when some line aborts, and otherwise keeps exactly the entries the corrected parser keeps |
| CreateTrainingData.TrainingSet | create_training_data.py:12-61 | as written: a missing log is an error; one line with an unreadable time aborts the script; with no abort, no parsable entry is an error; otherwise one record per parsed entry |
| CreateTrainingData.IntendedTrainingSet | create_training_data.py:12-61 | as intended: the same, except that no line aborts the script |
| CreateTrainingData.AbortIsTheOnlyDifference | create_training_data.py:21-30 | the script as written and as intended give the same result on every log in which no line aborts |
| CreateTrainingData.UnreadableTimeAbortsScript | create_training_data.py:21-33 | one line with an unreadable time makes the script as written fail, even when another line parses and the intended script succeeds |
| CreateTrainingData.OneRecordPerEntry | create_training_data.py:21-61 | when the script succeeds, the records' addresses are the parsed entries' addresses, each as often as it was parsed |
| CreateTrainingData.IpsOfKeepsMultiset | create_training_data.py:36 | reordering the entries reorders their addresses |
| CreateTrainingData.ParseLog | create_training_data.py:20-30 | the parse loop as written returns `ParsedLog`: the abort at the first line with an unreadable time, otherwise the entries of the lines that parse, in line order |
| CreateTrainingData.LabelRows | create_training_data.py:40-61 | the records loop returns exactly `Records` of the sorted rows |
| CreateTrainingData.CreateTrainingSet | create_training_data.py:12-67 | the script's result is `TrainingSet`, abort included; on success the CSV holds the records; on error the CSV is untouched; the model files are never touched |
| DataProcessing.Normalize | data_processing.py:10 | a normalised name is no longer than the original and has no space |
| DataProcessing.NormalizeIsCanonical | data_processing.py:8-11 | a normalised name has no surrounding whitespace, no space and no upper-case letter |
| DataProcessing.CanonicalIsFixed | data_processing.py:8-11 | such a name is its own normal form |
| DataProcessing.FixedIffCanonical | data_processing.py:8-11 | a name is its own normal form exactly when it is canonical |
| DataProcessing.NormalizeIdempotent | data_processing.py:8-11 | normalising twice is normalising once |
| DataProcessing.NormalizeIgnoresSurroundingSpace | data_processing.py:8-11 | whitespace around a column name does not change its normal form |
| DataProcessing.NormalizeIgnoresCase | data_processing.py:8-11 | the letter case of a column name does not change its normal form |
| DataProcessing.NormalizeColumns | data_processing.py:8-11 | every column renamed to its normal form, in place |
| DataProcessing.NormalizeColumnsIdempotent | data_processing.py:8-11 | renaming already normalised columns changes nothing |
| DataProcessing.FirstHitFrom | data_processing.py:14-21 | the first candidate from a given position on whose normal form is a column, with every candidate before it missing; none when no remaining candidate is a column |
| DataProcessing.FirstHit | data_processing.py:14-21 | the first candidate, in list order, whose normal form is a column; none exactly when no candidate's normal form is a column |
| DataProcessing.FirstExisting | data_processing.py:14-21 | a found name is one of the columns |
| DataProcessing.FirstExistingIsFirstHit | data_processing.py:14-21 | a name is found exactly when some candidate's normal form is a column, and it is the normal form of the first such candidate |
| DataProcessing.FindFirstExisting | data_processing.py:14-21 | the search loop with early return gives exactly `FirstExisting` |
| DataProcessing.VarianceFallbackSkipsFirst | data_processing.py:98-103 | the fallback's `packet_length_variance` entry can never match, so the fallback finds what `packet_length_var` alone finds |
| DataProcessing.SynthesizedIp | data_processing.py:85 | the synthesised address is `10.0.0.` followed by the decimal digits of `i mod 255` |
| DataProcessing.SynthesizedIpRepeats | data_processing.py:85 | two rows get the same synthesised address exactly when their numbers agree modulo 255 |
| DataProcessing.SourceColumn | data_processing.py:84-85 | without a source column, row `i` gets the synthesised address |
| DataProcessing.GroupCounts | data_processing.py:95 | each row's count is the number of rows sharing its address |
| DataProcessing.GroupCountsPositive | data_processing.py:95 | every such count is at least 1 |
| DataProcessing.RateColumn | data_processing.py:94-95 | with neither a rate nor a packet column, the rate is the group count |
| DataProcessing.UniqueColumn | data_processing.py:104-105 | with neither a unique-count nor a variance column, the proxy is 0.0 |
| DataProcessing.LabelTextColumn | data_processing.py:108-112 | without a label column, every label text is `BENIGN` |
| DataProcessing.LabelOf | data_processing.py:114 | the label is 0 exactly when the stripped, upper-cased text is `BENIGN`, and 1 otherwise |
| DataProcessing.BenignIsZero | data_processing.py:112-114 | the default label text maps to 0 |
| DataProcessing.LabelOfIgnoresSurroundingSpace | data_processing.py:114 | whitespace around the label text does not change the label |
| DataProcessing.LabelOfIgnoresCase | data_processing.py:114 | the letter case of the label text does not change the label |
| DataProcessing.Assemble | data_processing.py:117-122 | one output row per input row, built from the four columns |
| DataProcessing.Preprocess | data_processing.py:55-122 | one output row per input row, holding that row's source address, rate, proxy and label |
| DataProcessing.AssignSource | data_processing.py:82-85 | the `src_ip` assignment gives `SourceColumn` |
| DataProcessing.AssignRate | data_processing.py:88-95 | the `request_rate` assignment, with its fallbacks, gives `RateColumn` |
| DataProcessing.AssignUnique | data_processing.py:98-105 | the `unique_urls_proxy` assignment, with its fallbacks, gives `UniqueColumn` |
| DataProcessing.AssignLabelText | data_processing.py:108-112 | the `label_raw` assignment gives `LabelTextColumn` |
| DataProcessing.LoadAndPreprocess | data_processing.py:55-122 | the function's steps from the read table on give exactly `Preprocess` |
| DataProcessing.PreprocessLabels | data_processing.py:108-122 | each output label is 0 exactly when its row's label text reads BENIGN; with no label column every label is 0 |
| DataProcessing.PreprocessSynthesizesSources | data_processing.py:82-85 | without a source column, output row `i` is attributed to `10.0.0.<i mod 255>` |
| DataProcessing.PreprocessRateFallsBackToCounts | data_processing.py:88-95 | with neither a rate nor a packet column, each rate is the number of output rows carrying that address, and at least 1 |
| DataProcessing.PreprocessUniqueDefaultsToZero | data_processing.py:98-105 | with no unique-count column and no `packet_length_var` column, every proxy is 0.0 |
| DataProcessing.PreprocessKeepsSourceColumn | data_processing.py:82-83 | with a source column, each output address is that column's cell |
| DataProcessing.PreprocessReadsRateColumn | data_processing.py:88-89 | with a rate column, each rate is its cell read as a number, 0.0 when unreadable |
| DataProcessing.PreprocessRateFallsBackToPackets | data_processing.py:90-93 | without a rate column, the first packet-count column is read the same way |
| DataProcessing.PreprocessReadsUniqueColumn | data_processing.py:98-99 | with a unique-count column, each proxy is its cell read as a number, 0.0 when unreadable |
| DataProcessing.PreprocessUniqueFallsBackToVariance | data_processing.py:100-103 | without a unique-count column, a `packet_length_var` column is read the same way |

## Left out

- ISO-8601 timestamps: `pd.to_datetime`, `isoformat`, and the store's comparison of ISO text. Timestamps are whole seconds written in decimal, and the text comparison is taken to agree with time order.
- LineParser.ParseTimestamp: an empty time text, and the texts `NaT` and `nan`, are treated as unreadable. `pd.to_datetime` accepts them as NaT, so the monitor stores such a line with the timestamp text `NaT`, which every later window query of that address returns. The model drops the line.
- CreateTrainingData.ParseTrainingLineAsWritten: an empty, `NaT` or `nan` time text aborts here, as an unreadable time. The script keeps such a line, with the time NaT.
- CreateTrainingData.TrainingSet: for a log holding such a line, the model returns the unreadable-time error. The script writes a record for it with an empty window: rate 0.0, proxy 0 and label 0.
- Text-mode newline translation and character decoding: a byte of the log is one character, and the cursor counts characters.
- Python's Unicode rules:
  - `lower()` and `upper()` act on ASCII letters only;
  - the regular expression's `\d` is ASCII digits;
  - `isspace()` is the fixed whitespace set of `Text.IsSpace`.
- The random forest, `LabelEncoder` internals and `joblib`. The forest is an opaque decision and fitting is a parameter. The test-accuracy score is not modelled.
- Which rows `train_test_split` draws: the `Learner` is given the whole design matrix, and the split is modelled only by when it raises. The test size is computed exactly; the source computes `ceil(0.2 * n)` in floating point.
- CSV reading and writing, `glob`, combining and sampling source files, and `mkdir` (data_processing.py:34-55). The data-processing model starts from the table as read. `pd.to_numeric` is a parameter.
- DataProcessing.Column: duplicate names after normalisation select the first such column. pandas would return a frame.
- Empty CSV cells: pandas reads them as NaN, and `astype(str)` turns them into `nan`. The model takes the cell text as given.
- `time.sleep` and `pd.Timestamp.now()`. The clock is an input and the sleeps are the returned `Delay`.
- SQLite itself, the global lock and connection timeouts. The table is an in-memory sequence and failures are inputs.
- `ORDER BY timestamp DESC` among rows with equal timestamps. SQLite's order of ties is unspecified; the model fixes one.
- `sort_values` on equal timestamps. pandas' default sort is not stable. `CreateTrainingData.SortingKeepsFeatures` shows that the features do not depend on the order of ties.
- Floating point: rates and features are `real`.
- Printed output everywhere.
- The final `pd.to_numeric` and `astype(int)` of data_processing.py:120-122 are taken to be the identity on columns that are already numeric.
- Monitoring.Decision: the `DataFrame` built around the features is not modelled. The forest sees the three values directly.

## Findings

| source | as written | input that shows it | evidently intended | confidence | as-written member | corrected member |
|---|---|---|---|---|---|---|
| monitoring.py:43 | `line.split("Time: ")[1]` takes the text between the first and the second `Time: ` | the front end logs `request.full_path`, so a request for the path `/Time: 5` is logged as `IP: 1.2.3.4, URL: /Time: 5?, Time: 7`; the time text is `5?, `, which does not parse, so the request is never stored | the text after the `Time: ` the front end appends last | medium; not executed | Monitoring.TimeInUrlStep | LineParser.TimeInUrlIsRead |
| create_training_data.py:22-30 | only `AttributeError` is caught, so a line whose patterns all match but whose time text does not parse raises out of the loop and aborts the script | `IP: 1, URL: /, Time: x` | skip the line like any other malformed line | medium; not executed | CreateTrainingData.UnreadableTimeAbortsScript | CreateTrainingData.IntendedTrainingSet |
