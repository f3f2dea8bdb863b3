# vertx-web-kotlinx: a verified model of the benchmark's request logic

The vertx-web-kotlinx benchmark servers answer the TechEmpower requests
(`/updates`, `/fortunes` and the rest) on Vert.x with Kotlin coroutines. Most
of the code is server wiring. Inside it sit small pieces of sequential logic,
and this project models them in Dafny and proves what they promise:

- **The default verticle's `/updates` and `/fortunes` handlers** (`DefaultVerticle`).
  - `/updates` selects N worlds and gives each a fresh random number. It then
    sends the batch sorted by id, as `(randomNumber, id)` tuples, and answers
    with the worlds in selection order.
  - `/fortunes` collects the fetched fortunes and adds one more. It then sorts
    them stably by message and renders the page.
  - The database's answers, the id draws and the random numbers are
    parameters of the model.
- **The shared HTTP helpers** (`HttpUtils`): the `queries` parameter clamp,
  header appending into a `MultiMap`, and the Fortunes HTML page.
- **The R2DBC verticle's connection protocol** (`R2dbcVerticle`).
  - A `Connection` class records every request sent on it in a log, and a
    set of log positions says which requests the database fails.
  - `updateSortedWorlds` sends begin, one UPDATE per world and commit. On a
    failure it rolls back, swallows a failing rollback and rethrows the
    original failure.
  - `withOptionalTransaction` closes the connection in `finally`.
  - `selectWorld` demands exactly one row.
  - The code as written awaits begin, commit, rollback and close with
    `awaitFirst`. Those publishers complete without a value, so each of these
    awaits throws, and begin fails before any UPDATE is sent. The model proves
    the intended protocol and models the code as written separately (see
    "## Findings").
- **The byte-buffer adapters.**
  - `BufferOutputStream` is a `java.io.OutputStream` that appends to a Vert.x
    buffer (`BufferOutputStreams`).
  - `VertxBufferSink` is an Okio sink that moves bytes from an Okio buffer to
    the end of a Vert.x buffer (`OkioSink`).
  - Both are classes over a `Buffer` class (`VertxBuffer`).
- **Configuration parsing.**
  - The R2DBC entry point: its three command-line settings, the benchmark name
    built from them, and the rejection of separate-pool mode (`R2dbcMain`).
  - The `db.host` and `db.port` overrides (`ConnectionCommon`).
  - The two ways the Exposed variant reads `TRANSACTION_PROVIDER`
    (`TransactionProviderSelector`, `TransactionProviderConfig`).

Supporting modules:

- `KotlinText` gives the exact Kotlin standard-library behaviour these rely
  on: `toIntOrNull` over the 32-bit `Int` range, `Int.toString`,
  `toBooleanStrictOrNull`, `lowercase` and `uppercase`, and `compareTo` on
  strings.
- `StableSort` is a stable sort, standing for `sortedBy` and `sortBy`. It is
  proved ordered, a permutation and stable, and the result with those three
  properties is proved unique.
- `Models` holds the row types and the `single()` rule.
- `Wrappers` holds `Option`, `Result` and `Outcome`, which stand for nullable
  values and thrown exceptions.

The model also makes one point about the R2DBC entry point. Separate-pool
mode throws `IllegalStateException` while the connection factory is being
chosen, so the launch branch for a separate-pool verticle can never run.
`R2dbcMain.Start` states that no launch ever uses a separate-pool verticle.

## Model

| member | source | states |
|---|---|---|
| KotlinText.ToIntOrNull | frameworks/Kotlin/vertx-web-kotlinx/common/src/main/kotlin/common/HttpUtils.kt:37 | a parsed value is a 32-bit `Int`, and only text ending in a digit parses |
| KotlinText.ToIntOrNullIff | frameworks/Kotlin/vertx-web-kotlinx/common/src/main/kotlin/common/HttpUtils.kt:37 | a text parses to n exactly when it is an optional '+' or '-' followed by at least one decimal digit, leading zeros allowed, whose signed value is n and n is an `Int` |
| KotlinText.SignedAndPaddedNumerals | frameworks/Kotlin/vertx-web-kotlinx/common/src/main/kotlin/common/HttpUtils.kt:37 | "+20" parses to 20 and "007" to 7 |
| KotlinText.IntToString | frameworks/Kotlin/vertx-web-kotlinx/common/src/main/kotlin/common/HttpUtils.kt:61 | the numeral ends in a digit and starts with '-' exactly for negative numbers |
| KotlinText.ToIntOrNullOfIntToString | frameworks/Kotlin/vertx-web-kotlinx/with-db/r2dbc/src/main/kotlin/Main.kt:9 | parsing the decimal rendering of any `Int` gives that `Int` back |
| KotlinText.IntToStringInjective | frameworks/Kotlin/vertx-web-kotlinx/with-db/r2dbc/src/main/kotlin/Main.kt:17-19 | different numbers have different decimal renderings |
| KotlinText.LongNumeralIsNotInt | frameworks/Kotlin/vertx-web-kotlinx/with-db/common/src/main/kotlin/database/ConnectionCommon.kt:7 | a numeral with more than ten significant digits does not parse as an `Int` |
| KotlinText.ToBooleanStrictOrNull | frameworks/Kotlin/vertx-web-kotlinx/with-db/r2dbc/src/main/kotlin/Main.kt:8 | a boolean results exactly for the texts "true" and "false" |
| KotlinText.LowercaseEqualIff | frameworks/Kotlin/vertx-web-kotlinx/with-db/exposed-vertx-sql-client/src/main/kotlin/TransactionProviderSelector.kt:19-21 | two strings lower-case to the same string exactly when they are equal ignoring case |
| KotlinText.UppercaseEqualIff | frameworks/Kotlin/vertx-web-kotlinx/with-db/exposed-vertx-sql-client/src/main/kotlin/TransactionProviderConfig.kt:20 | two strings upper-case to the same string exactly when they are equal ignoring case |
| KotlinText.StringLeTotal | frameworks/Kotlin/vertx-web-kotlinx/with-db/default/src/main/kotlin/MainVerticle.kt:98 | any two messages are comparable |
| KotlinText.StringLeTransitive | frameworks/Kotlin/vertx-web-kotlinx/with-db/default/src/main/kotlin/MainVerticle.kt:98 | the message order is transitive |
| KotlinText.StringLeAntisymmetric | frameworks/Kotlin/vertx-web-kotlinx/with-db/default/src/main/kotlin/MainVerticle.kt:98 | messages that compare both ways are equal |
| Models.Single | frameworks/Kotlin/vertx-web-kotlinx/with-db/default/src/main/kotlin/MainVerticle.kt:74-76 | the only row of a result; an empty result and a result with several rows are distinct failures |
| StableSort.SortBy | frameworks/Kotlin/vertx-web-kotlinx/with-db/default/src/main/kotlin/MainVerticle.kt:98 | the sorted list is a permutation of its input |
| StableSort.SortByOrderedAndStable | frameworks/Kotlin/vertx-web-kotlinx/with-db/default/src/main/kotlin/MainVerticle.kt:98 | the result is ordered by the key, and elements with equal keys keep their input order |
| StableSort.StableSortIsUnique | frameworks/Kotlin/vertx-web-kotlinx/with-db/default/src/main/kotlin/MainVerticle.kt:98 | two ordered lists with the same tied elements in the same order are equal, so any stable sort agrees with `SortBy` |
| StableSort.SortBySortedIsIdentity | frameworks/Kotlin/vertx-web-kotlinx/with-db/default/src/main/kotlin/MainVerticle.kt:119 | sorting an already ordered list leaves it unchanged |
| HttpUtils.CoerceIn | frameworks/Kotlin/vertx-web-kotlinx/common/src/main/kotlin/common/HttpUtils.kt:37 | the result lies in the bounds: the input when it already does, the lower bound below them and the upper bound above them |
| HttpUtils.GetQueries | frameworks/Kotlin/vertx-web-kotlinx/common/src/main/kotlin/common/HttpUtils.kt:35-38 | the number of queries always lies in [1, 500] |
| HttpUtils.GetQueriesOfNumeral | frameworks/Kotlin/vertx-web-kotlinx/common/src/main/kotlin/common/HttpUtils.kt:37 | the numeral of any `Int` n gives n clamped to [1, 500] |
| HttpUtils.GetQueriesDefault | frameworks/Kotlin/vertx-web-kotlinx/common/src/main/kotlin/common/HttpUtils.kt:36-37 | a missing parameter, or one that is not an `Int`, gives 1 |
| HttpUtils.GetQueriesExamples | frameworks/Kotlin/vertx-web-kotlinx/common/src/main/kotlin/common/HttpUtils.kt:37 | "0" gives 1, "501" gives 500, "abc" and "99999999999" give 1, and "20" gives 20 |
| HttpUtils.MultiMap.Add | frameworks/Kotlin/vertx-web-kotlinx/common/src/main/kotlin/common/HttpUtils.kt:23-24 | one entry is appended and every earlier entry is kept |
| HttpUtils.AddCommonHeaders | frameworks/Kotlin/vertx-web-kotlinx/common/src/main/kotlin/common/HttpUtils.kt:22-25 | exactly Server: Vert.x-Web and then Date are appended after the existing headers |
| HttpUtils.AddJsonResponseHeaders | frameworks/Kotlin/vertx-web-kotlinx/common/src/main/kotlin/common/HttpUtils.kt:28-33 | the two common headers and then Content-Type: application/json are appended |
| HttpUtils.BuildFortunesHtml | frameworks/Kotlin/vertx-web-kotlinx/common/src/main/kotlin/common/HttpUtils.kt:46-67 | the builder's loop produces exactly the page: doctype, title, header row, then one row per fortune in list order |
| HttpUtils.FortunesPage | frameworks/Kotlin/vertx-web-kotlinx/common/src/main/kotlin/common/HttpUtils.kt:46-67 | the page starts with the doctype, the "Fortunes" title and the id/message header row, and ends by closing the table, body and document |
| HttpUtils.UnescapeEscape | frameworks/Kotlin/vertx-web-kotlinx/common/src/main/kotlin/common/HttpUtils.kt:61-62 | escaping loses nothing: unescaping the escaped text gives the message back |
| HttpUtils.EscapedHasNoMarkup | frameworks/Kotlin/vertx-web-kotlinx/common/src/main/kotlin/common/HttpUtils.kt:62 | escaped text contains no '<', '>' or '"' |
| HttpUtils.EscapeText | frameworks/Kotlin/vertx-web-kotlinx/common/src/main/kotlin/common/HttpUtils.kt:61-62 | escaping never shortens the text |
| HttpUtils.EscapeTextAppend | frameworks/Kotlin/vertx-web-kotlinx/common/src/main/kotlin/common/HttpUtils.kt:61-62 | text is escaped character by character, so escaping distributes over concatenation |
| HttpUtils.EscapeTagAsText | frameworks/Kotlin/vertx-web-kotlinx/benchmark-test/src/test/kotlin/VertxWebKotlinxBenchmarkTest.kt:205-206 | a tag such as `<script>` inside a message is written as `&lt;script&gt;` |
| HttpUtils.EscapePlainText | frameworks/Kotlin/vertx-web-kotlinx/common/src/main/kotlin/common/HttpUtils.kt:56-57 | text without markup characters, such as the header cells, is written unchanged |
| HttpUtils.ParseRowsOfFortuneRows | frameworks/Kotlin/vertx-web-kotlinx/common/src/main/kotlin/common/HttpUtils.kt:59-63 | reading the rows back gives exactly the fortunes, ids and messages, in list order |
| HttpUtils.FortunesPageReadsBack | frameworks/Kotlin/vertx-web-kotlinx/common/src/main/kotlin/common/HttpUtils.kt:46-67 | the page has the doctype, the title and the id/message header, and reading its rows back gives exactly the fortunes in list order |
| DefaultVerticle.SelectRandomWorld | frameworks/Kotlin/vertx-web-kotlinx/with-db/default/src/main/kotlin/MainVerticle.kt:74-76 | a lookup yields a world exactly when its query succeeds with exactly one row; a failed query is its own failure |
| DefaultVerticle.SelectRandomWorlds | frameworks/Kotlin/vertx-web-kotlinx/with-db/default/src/main/kotlin/MainVerticle.kt:78-80 | succeeds exactly when every lookup succeeds; then it has n worlds and world i is lookup i's world; otherwise it names the first lookup that failed and why |
| DefaultVerticle.UpdatedWorlds | frameworks/Kotlin/vertx-web-kotlinx/with-db/default/src/main/kotlin/MainVerticle.kt:115 | same length, same ids in the same order; only each random number is replaced, by its draw |
| DefaultVerticle.IdOrderIsTotalPreorder | frameworks/Kotlin/vertx-web-kotlinx/with-db/default/src/main/kotlin/MainVerticle.kt:119 | ordering by id is total and transitive |
| DefaultVerticle.ParamsOf | frameworks/Kotlin/vertx-web-kotlinx/with-db/default/src/main/kotlin/MainVerticle.kt:119 | one `(randomNumber, id)` tuple per world, in order, matching `$1` and `$2` of the UPDATE statement |
| DefaultVerticle.UpdateBatch | frameworks/Kotlin/vertx-web-kotlinx/with-db/default/src/main/kotlin/MainVerticle.kt:119 | the batch has one tuple per updated world, in non-decreasing id order |
| DefaultVerticle.UpdateBatchIsSortedPermutation | frameworks/Kotlin/vertx-web-kotlinx/with-db/default/src/main/kotlin/MainVerticle.kt:117-119 | the batch has one tuple per world, in non-decreasing id order, as a permutation of the worlds' tuples, and worlds with equal ids keep their order |
| DefaultVerticle.UpdateBatchOfSorted | frameworks/Kotlin/vertx-web-kotlinx/with-db/default/src/main/kotlin/MainVerticle.kt:119 | a selection already in id order is sent unchanged |
| DefaultVerticle.ApplyBatch | frameworks/Kotlin/vertx-web-kotlinx/with-db/default/src/main/kotlin/MainVerticle.kt:118-119 | executing a batch changes no row's existence |
| DefaultVerticle.ApplyBatchAt | frameworks/Kotlin/vertx-web-kotlinx/with-db/default/src/main/kotlin/MainVerticle.kt:118-119 | each row ends with the number of its last write in the batch, or keeps its own |
| DefaultVerticle.UpdateBatchOutcome | frameworks/Kotlin/vertx-web-kotlinx/with-db/default/src/main/kotlin/MainVerticle.kt:117-119 | sorting the batch does not change the database outcome: every row ends as it would with the batch in selection order |
| DefaultVerticle.UpdateBatchLastWrite | frameworks/Kotlin/vertx-web-kotlinx/with-db/default/src/main/kotlin/MainVerticle.kt:117-119 | after the sorted batch, each row holds its last write in selection order |
| DefaultVerticle.HandleUpdates | frameworks/Kotlin/vertx-web-kotlinx/with-db/default/src/main/kotlin/MainVerticle.kt:112-122 | the request fails exactly when selection or the batch fails; a selection failure sends no batch and is answered with that failure; otherwise the batch of the updated worlds sorted by id is sent, and the answer is `BatchUpdateFailed` when it fails and otherwise the N worlds, each with its lookup's id and its draw |
| DefaultVerticle.UpdatesRespondInSelectionOrder | frameworks/Kotlin/vertx-web-kotlinx/with-db/default/src/main/kotlin/MainVerticle.kt:118-121 | when every lookup succeeds and the batch goes through, the answer holds, in selection order, each lookup's world with its draw as the random number; the batch is a permutation of those worlds' parameters with non-decreasing ids |
| DefaultVerticle.UpdatesResponseInRange | frameworks/Kotlin/vertx-web-kotlinx/with-db/default/src/main/kotlin/MainVerticle.kt:112-122 | with ids and draws in [1, 10000], every answered world lies in that range |
| DefaultVerticle.BatchReordersTwo | frameworks/Kotlin/vertx-web-kotlinx/with-db/default/src/main/kotlin/MainVerticle.kt:117-121 | two worlds selected with the larger id first are sent to the database the other way round |
| DefaultVerticle.MessageOrderIsTotalPreorder | frameworks/Kotlin/vertx-web-kotlinx/with-db/default/src/main/kotlin/MainVerticle.kt:98 | ordering by message is total and transitive |
| DefaultVerticle.MessageOrderTies | frameworks/Kotlin/vertx-web-kotlinx/with-db/default/src/main/kotlin/MainVerticle.kt:98 | two fortunes tie in the sort exactly when their messages are equal |
| DefaultVerticle.SortByMessage | frameworks/Kotlin/vertx-web-kotlinx/with-db/default/src/main/kotlin/MainVerticle.kt:98 | sorting by message orders the fortunes and keeps fortunes with equal messages in their order |
| DefaultVerticle.BuildFortunesList | frameworks/Kotlin/vertx-web-kotlinx/with-db/default/src/main/kotlin/MainVerticle.kt:93-98 | the list is the fetched fortunes plus exactly one additional fortune, ordered by message, with equal messages in fetched order |
| DefaultVerticle.HandleFortunes | frameworks/Kotlin/vertx-web-kotlinx/with-db/default/src/main/kotlin/MainVerticle.kt:92-109 | the response is the page of the stably sorted list, and the common headers and then the HTML content type are appended |
| R2dbcVerticle.Connection.Perform | frameworks/Kotlin/vertx-web-kotlinx/with-db/r2dbc/src/main/kotlin/MainVerticle.kt:44 | one request is appended to the log, and it fails exactly when its position is a fault |
| R2dbcVerticle.Connection.UpdateSortedWorlds | frameworks/Kotlin/vertx-web-kotlinx/with-db/r2dbc/src/main/kotlin/MainVerticle.kt:42-64 | the loop sends exactly the protocol's trace and returns its outcome |
| R2dbcVerticle.Connection.SelectWorld | frameworks/Kotlin/vertx-web-kotlinx/with-db/r2dbc/src/main/kotlin/MainVerticle.kt:36-40 | one SELECT is sent, and the result is its single row or the failure |
| R2dbcVerticle.SelectResult | frameworks/Kotlin/vertx-web-kotlinx/with-db/r2dbc/src/main/kotlin/MainVerticle.kt:36-40 | a lookup yields a world only when its result has exactly one row, and yields that row; a failing SELECT surfaces its own failure |
| R2dbcVerticle.FirstFault | frameworks/Kotlin/vertx-web-kotlinx/with-db/r2dbc/src/main/kotlin/MainVerticle.kt:46-54 | names the first failing UPDATE, or says that none fails |
| R2dbcVerticle.UpdateTrace | frameworks/Kotlin/vertx-web-kotlinx/with-db/r2dbc/src/main/kotlin/MainVerticle.kt:42-64 | the trace opens with begin; unless begin fails, it ends with a commit or a rollback |
| R2dbcVerticle.UpdateOutcome | frameworks/Kotlin/vertx-web-kotlinx/with-db/r2dbc/src/main/kotlin/MainVerticle.kt:42-64 | a failure surfaced by the batch update is that of a failing request sent by it |
| R2dbcVerticle.UpdateFailedAt | frameworks/Kotlin/vertx-web-kotlinx/with-db/r2dbc/src/main/kotlin/MainVerticle.kt:46-62 | when the UPDATE at offset k fails, UPDATEs up to k are sent, then a rollback, and the failure at k surfaces |
| R2dbcVerticle.UpdatesPassed | frameworks/Kotlin/vertx-web-kotlinx/with-db/r2dbc/src/main/kotlin/MainVerticle.kt:46-62 | when every UPDATE succeeds, the commit follows; a rollback follows only a failing commit, whose failure surfaces |
| R2dbcVerticle.UpdateSucceeds | frameworks/Kotlin/vertx-web-kotlinx/with-db/r2dbc/src/main/kotlin/MainVerticle.kt:42-64 | success exactly when begin, every UPDATE and the commit succeed; the trace is then begin, one UPDATE per world in order, and commit, with no rollback |
| R2dbcVerticle.UpdateFailureRollsBack | frameworks/Kotlin/vertx-web-kotlinx/with-db/r2dbc/src/main/kotlin/MainVerticle.kt:56-62 | after a failed UPDATE or commit, the rollback is the last and only rollback request, and the surfaced failure is the first failing request before it |
| R2dbcVerticle.RollbackFailureIsSwallowed | frameworks/Kotlin/vertx-web-kotlinx/with-db/r2dbc/src/main/kotlin/MainVerticle.kt:57-61 | a failing rollback changes neither the requests sent nor the surfaced outcome |
| R2dbcVerticle.FirstFaultIgnoresLater | frameworks/Kotlin/vertx-web-kotlinx/with-db/r2dbc/src/main/kotlin/MainVerticle.kt:46-54 | a fault after the first one does not change which UPDATE fails first |
| R2dbcVerticle.BeginFailureSkipsRollback | frameworks/Kotlin/vertx-web-kotlinx/with-db/r2dbc/src/main/kotlin/MainVerticle.kt:44-45 | begin fails outside the try, so no UPDATE and no rollback are sent and begin's failure surfaces |
| R2dbcVerticle.UpdateTraceShape | frameworks/Kotlin/vertx-web-kotlinx/with-db/r2dbc/src/main/kotlin/MainVerticle.kt:44-54 | the trace opens with begin, and its UPDATEs are those of a prefix of the worlds, in list order |
| R2dbcVerticle.SelectWorldSingleRow | frameworks/Kotlin/vertx-web-kotlinx/with-db/r2dbc/src/main/kotlin/MainVerticle.kt:36-40 | the lookup yields a world exactly when the SELECT succeeds with one row; no row and several rows are distinct failures |
| R2dbcVerticle.RunBlock | frameworks/Kotlin/vertx-web-kotlinx/with-db/r2dbc/src/main/kotlin/MainVerticle.kt:30 | the block sends its trace and returns its result |
| R2dbcVerticle.BlockTraceHasNoClose | frameworks/Kotlin/vertx-web-kotlinx/with-db/r2dbc/src/main/kotlin/MainVerticle.kt:30-32 | no block closes the connection itself |
| R2dbcVerticle.WithOptionalTransaction | frameworks/Kotlin/vertx-web-kotlinx/with-db/r2dbc/src/main/kotlin/MainVerticle.kt:27-34 | an acquisition failure surfaces alone; otherwise the block runs, the connection is closed exactly once, and the block's result is returned unless the close fails |
| R2dbcVerticle.Connection.AwaitFirst | frameworks/Kotlin/vertx-web-kotlinx/with-db/r2dbc/src/main/kotlin/MainVerticle.kt:44 | as written: the request is sent, and awaiting it fails when the database fails it or when its publisher completes without a value |
| R2dbcVerticle.AwaitFirstOutcome | frameworks/Kotlin/vertx-web-kotlinx/with-db/r2dbc/src/main/kotlin/MainVerticle.kt:32 | as written: awaiting passes exactly when the request does not fail and its publisher emits a value |
| R2dbcVerticle.UpdateWorldsAsWritten | frameworks/Kotlin/vertx-web-kotlinx/with-db/r2dbc/src/main/kotlin/MainVerticle.kt:27-64 | as written: begin's `awaitFirst` throws before any UPDATE, the close's `awaitFirst` throws too, and the log is just begin and close |
| R2dbcVerticle.AsWrittenBeginFails | frameworks/Kotlin/vertx-web-kotlinx/with-db/r2dbc/src/main/kotlin/MainVerticle.kt:44 | with no failing request, the intended protocol sends every UPDATE and commits, while awaiting begin or close with `awaitFirst` fails |
| VertxBuffer.SignedValue | frameworks/Kotlin/vertx-web-kotlinx/src/main/kotlin/BufferOutputStream.kt:6 | a byte read as signed lies in [-128, 127] |
| VertxBuffer.ToByteOfByteValue | frameworks/Kotlin/vertx-web-kotlinx/src/main/kotlin/BufferOutputStream.kt:6 | converting a number in [-128, 127] to a byte and reading it back as signed gives the number |
| VertxBuffer.ToByteIgnoresHighBits | frameworks/Kotlin/vertx-web-kotlinx/src/main/kotlin/BufferOutputStream.kt:6 | numbers that differ by a multiple of 256 convert to the same byte |
| VertxBuffer.Buffer.AppendByte | frameworks/Kotlin/vertx-web-kotlinx/src/main/kotlin/BufferOutputStream.kt:6 | the byte is appended at the end |
| VertxBuffer.Buffer.AppendBytes | frameworks/Kotlin/vertx-web-kotlinx/src/main/kotlin/BufferOutputStream.kt:10 | the whole array is appended at the end, in order |
| VertxBuffer.Buffer.AppendBytesRange | frameworks/Kotlin/vertx-web-kotlinx/src/main/kotlin/BufferOutputStream.kt:14 | exactly the `len` bytes from `offset` are appended at the end |
| BufferOutputStreams.BufferOutputStream.constructor | frameworks/Kotlin/vertx-web-kotlinx/src/main/kotlin/BufferOutputStream.kt:4 | the stream writes to the given buffer |
| BufferOutputStreams.BufferOutputStream.WriteByte | frameworks/Kotlin/vertx-web-kotlinx/src/main/kotlin/BufferOutputStream.kt:5-7 | exactly one byte, the low eight bits of the argument, is appended |
| BufferOutputStreams.BufferOutputStream.Write | frameworks/Kotlin/vertx-web-kotlinx/src/main/kotlin/BufferOutputStream.kt:9-11 | all of the array is appended, in order |
| BufferOutputStreams.BufferOutputStream.WriteRange | frameworks/Kotlin/vertx-web-kotlinx/src/main/kotlin/BufferOutputStream.kt:13-15 | exactly `b[off .. off + len)` is appended |
| BufferOutputStreams.ToOutputStream | frameworks/Kotlin/vertx-web-kotlinx/src/main/kotlin/BufferOutputStream.kt:18-19 | a new stream over this very buffer |
| BufferOutputStreams.WriteThrough | frameworks/Kotlin/vertx-web-kotlinx/src/main/kotlin/BufferOutputStream.kt:4-19 | writes through the stream land in the original buffer; earlier contents are kept and the length grows by what was written |
| OkioSink.OkioBuffer.ReadByteArray | frameworks/Kotlin/vertx-web-kotlinx/src/main/kotlin/Okio.kt:37 | the first `byteCount` bytes are removed from the source and returned in a new array |
| OkioSink.VertxBufferSink.constructor | frameworks/Kotlin/vertx-web-kotlinx/src/main/kotlin/Okio.kt:35 | the sink appends to the given buffer |
| OkioSink.VertxBufferSink.Write | frameworks/Kotlin/vertx-web-kotlinx/src/main/kotlin/Okio.kt:36-38 | the first `byteCount` bytes move from the source to the end of the buffer, and buffer plus source is conserved |
| OkioSink.VertxBufferSink.Flush | frameworks/Kotlin/vertx-web-kotlinx/src/main/kotlin/Okio.kt:40 | the buffer is unchanged |
| OkioSink.VertxBufferSink.Close | frameworks/Kotlin/vertx-web-kotlinx/src/main/kotlin/Okio.kt:45 | the buffer is unchanged and stays usable |
| OkioSink.ToSink | frameworks/Kotlin/vertx-web-kotlinx/src/main/kotlin/Okio.kt:48-49 | a new sink over this very buffer |
| OkioSink.Drain | frameworks/Kotlin/vertx-web-kotlinx/src/main/kotlin/Okio.kt:34-49 | draining a whole source through the sink leaves the source empty and its bytes, in order, at the end of the buffer |
| R2dbcMain.ArgAt | frameworks/Kotlin/vertx-web-kotlinx/with-db/r2dbc/src/main/kotlin/Main.kt:8-10 | the i-th argument when there is one, else nothing |
| R2dbcMain.FlagOrTrue | frameworks/Kotlin/vertx-web-kotlinx/with-db/r2dbc/src/main/kotlin/Main.kt:8-10 | a flag is false exactly when its argument is present and exactly "false" |
| R2dbcMain.SizeOr512 | frameworks/Kotlin/vertx-web-kotlinx/with-db/r2dbc/src/main/kotlin/Main.kt:9 | the pool size is always an `Int` |
| R2dbcMain.ParseArgs | frameworks/Kotlin/vertx-web-kotlinx/with-db/r2dbc/src/main/kotlin/Main.kt:8-10 | the parsed pool size is always an `Int` |
| R2dbcMain.BenchmarkName | frameworks/Kotlin/vertx-web-kotlinx/with-db/r2dbc/src/main/kotlin/Main.kt:12-25 | the name always starts with "Vert.x-Web Kotlinx with R2DBC (and PostgreSQL)" |
| R2dbcMain.SharedPoolFlag | frameworks/Kotlin/vertx-web-kotlinx/with-db/r2dbc/src/main/kotlin/Main.kt:8-10 | a flag is off exactly when its argument is exactly "false"; a missing argument and anything else leave it on |
| R2dbcMain.PoolSizeArgument | frameworks/Kotlin/vertx-web-kotlinx/with-db/r2dbc/src/main/kotlin/Main.kt:9 | the pool size is the second argument when it is an `Int` numeral, and 512 otherwise |
| R2dbcMain.ParseArgsRoundTrip | frameworks/Kotlin/vertx-web-kotlinx/with-db/r2dbc/src/main/kotlin/Main.kt:8-10 | rendering any settings as arguments and parsing them gives the settings back |
| R2dbcMain.ParseArgsExamples | frameworks/Kotlin/vertx-web-kotlinx/with-db/r2dbc/src/main/kotlin/Main.kt:8-10 | no arguments and unrecognised arguments give the defaults (true, 512, true), and ["false", "8", "false"] gives (false, 8, false) |
| R2dbcMain.BaseNameIffDefault | frameworks/Kotlin/vertx-web-kotlinx/with-db/r2dbc/src/main/kotlin/Main.kt:12-25 | the name is the bare base name exactly for the default settings |
| R2dbcMain.OptimizedSuffixIff | frameworks/Kotlin/vertx-web-kotlinx/with-db/r2dbc/src/main/kotlin/Main.kt:21-23 | outside the defaults, the name ends with " Optimized" exactly when the optimized flag is on |
| R2dbcMain.DefaultNameExample | frameworks/Kotlin/vertx-web-kotlinx/with-db/r2dbc/src/main/kotlin/Main.kt:14 | nothing is appended for the default settings |
| R2dbcMain.SharedPoolNameExample | frameworks/Kotlin/vertx-web-kotlinx/with-db/r2dbc/src/main/kotlin/Main.kt:14-23 | (true, 8, true) appends " - Shared Pool Size 8 Optimized" |
| R2dbcMain.SeparatePoolNameExample | frameworks/Kotlin/vertx-web-kotlinx/with-db/r2dbc/src/main/kotlin/Main.kt:14-23 | (false, 512, false) appends " - Separate Pool Size 512" |
| R2dbcMain.PoolDescriptionInjective | frameworks/Kotlin/vertx-web-kotlinx/with-db/r2dbc/src/main/kotlin/Main.kt:16-20 | the pool description determines the pool mode and the size |
| R2dbcMain.BenchmarkNameInjective | frameworks/Kotlin/vertx-web-kotlinx/with-db/r2dbc/src/main/kotlin/Main.kt:12-25 | different settings give different benchmark names |
| R2dbcMain.Start | frameworks/Kotlin/vertx-web-kotlinx/with-db/r2dbc/src/main/kotlin/Main.kt:6-52 | fails with the separate-pool `IllegalStateException` exactly when shared pool is off; otherwise it launches a shared-pool verticle with the computed name, the pool size and the optimized or original pool |
| ConnectionCommon.Host | frameworks/Kotlin/vertx-web-kotlinx/with-db/common/src/main/kotlin/database/ConnectionCommon.kt:6 | the `db.host` property when set, else "tfb-database" |
| ConnectionCommon.Port | frameworks/Kotlin/vertx-web-kotlinx/with-db/common/src/main/kotlin/database/ConnectionCommon.kt:7 | always an `Int`; the parsed `db.port` property when set and parseable |
| ConnectionCommon.HostOverride | frameworks/Kotlin/vertx-web-kotlinx/with-db/common/src/main/kotlin/database/ConnectionCommon.kt:6 | setting `db.host` to anything, the empty string included, makes it the host |
| ConnectionCommon.PortOverride | frameworks/Kotlin/vertx-web-kotlinx/with-db/common/src/main/kotlin/database/ConnectionCommon.kt:7 | setting `db.port` to the numeral of any `Int` makes that the port |
| ConnectionCommon.PortFallback | frameworks/Kotlin/vertx-web-kotlinx/with-db/common/src/main/kotlin/database/ConnectionCommon.kt:7 | an absent or unparseable `db.port` gives 5432, without a failure |
| ConnectionCommon.DefaultConnection | frameworks/Kotlin/vertx-web-kotlinx/with-db/common/src/main/kotlin/database/ConnectionCommon.kt:4-7 | with no properties set, the host is "tfb-database" and the port 5432 |
| ConnectionCommon.UnparseablePortExamples | frameworks/Kotlin/vertx-web-kotlinx/with-db/common/src/main/kotlin/database/ConnectionCommon.kt:7 | "abc" and the out-of-range "99999999999" both give 5432 |
| ConnectionCommon.NumeralPortExample | frameworks/Kotlin/vertx-web-kotlinx/with-db/common/src/main/kotlin/database/ConnectionCommon.kt:7 | "15432" gives 15432 |
| TransactionProviderSelector.GetProviderType | frameworks/Kotlin/vertx-web-kotlinx/with-db/exposed-vertx-sql-client/src/main/kotlin/TransactionProviderSelector.kt:18-24 | an unset variable gives JDBC |
| TransactionProviderSelector.DatabaseIffAnyCase | frameworks/Kotlin/vertx-web-kotlinx/with-db/exposed-vertx-sql-client/src/main/kotlin/TransactionProviderSelector.kt:18-24 | DATABASE exactly for "database" in any letter case; an unset variable and any other value give JDBC |
| TransactionProviderSelector.ProviderTypeExamples | frameworks/Kotlin/vertx-web-kotlinx/with-db/exposed-vertx-sql-client/src/main/kotlin/TransactionProviderSelector.kt:18-24 | unset gives JDBC, "DataBase" gives DATABASE, and "jdbc" and "" give JDBC |
| TransactionProviderSelector.CreateProvider | frameworks/Kotlin/vertx-web-kotlinx/with-db/exposed-vertx-sql-client/src/main/kotlin/TransactionProviderSelector.kt:26-37 | the database provider is built exactly when the provider type is DATABASE |
| TransactionProviderConfig.ValueOf | frameworks/Kotlin/vertx-web-kotlinx/with-db/exposed-vertx-sql-client/src/main/kotlin/TransactionProviderConfig.kt:20 | the constant whose name is exactly the text, and a failure for any other text |
| TransactionProviderConfig.CurrentProvider | frameworks/Kotlin/vertx-web-kotlinx/with-db/exposed-vertx-sql-client/src/main/kotlin/TransactionProviderConfig.kt:18-25 | an unset variable gives JDBC; a set value gives DATABASE exactly when it upper-cases to "DATABASE" |
| TransactionProviderConfig.NameInAnyCase | frameworks/Kotlin/vertx-web-kotlinx/with-db/exposed-vertx-sql-client/src/main/kotlin/TransactionProviderConfig.kt:18-25 | a value equal to a constant's name ignoring case selects that constant |
| TransactionProviderConfig.InvalidValueGivesJdbc | frameworks/Kotlin/vertx-web-kotlinx/with-db/exposed-vertx-sql-client/src/main/kotlin/TransactionProviderConfig.kt:21-24 | a value that names no constant, the empty string included, gives JDBC instead of a failure |
| TransactionProviderConfig.CurrentProviderExamples | frameworks/Kotlin/vertx-web-kotlinx/with-db/exposed-vertx-sql-client/src/main/kotlin/TransactionProviderConfig.kt:18-25 | unset, "jdbc", "" and "postgres" give JDBC, and "Database" gives DATABASE |
| TransactionProviderConfig.CreateProvider | frameworks/Kotlin/vertx-web-kotlinx/with-db/exposed-vertx-sql-client/src/main/kotlin/TransactionProviderConfig.kt:30-45 | a JDBC provider whichever constant is configured |

## Left out

- Concurrency. The `async`/`awaitAll` fan-out of `selectRandomWorlds` is modelled as n lookups in argument order, which is the order `awaitAll` returns them in. A failing lookup is reported by index, where the program cancels the others.
- DefaultVerticle.SelectRandomWorlds: each lookup is given by the database's answer at its position, a row set or a failed query. The random id it asks for is part of that answer and is not modelled separately.
- Randomness and time. The random ids, the random numbers and the current date are parameters. `getCurrentDate` and its RFC 1123 formatting are library code and are not modelled.
- JSON serialisation of the responses, the coroutine handler dispatch, and the `/db` and `/queries` routes are library code or simple wiring.
- `selectFortunesInto` and `selectFortuneQuery` are modelled only through their result, the fetched fortunes.
- The database itself is outside the model. Row sets, per-request failures and the success of `executeBatch` are inputs. `DefaultVerticle.ApplyBatch` models a batch as statements executed in batch order. Prepared queries and the r2dbc pool configuration are not modelled.
- R2dbcVerticle.Connection.UpdateSortedWorlds: each request either completes or fails. The `rowsUpdated` count is awaited and then ignored.
- R2dbcVerticle.Connection.UpdateSortedWorlds: this models the intended protocol, not the code as written. Begin, commit, rollback and close return publishers that complete without a value, and `awaitFirst` throws NoSuchElementException on such a publisher. As written, begin therefore throws before any UPDATE is sent, and every close in `finally` throws and replaces the block's result. `R2dbcVerticle.UpdateWorldsAsWritten` models that reading, and "## Findings" records it.
- R2dbcVerticle.WithOptionalTransaction: the source accepts any block. The model runs only the two blocks this verticle passes, the batch update and the lookup. A block that closes the connection itself is not considered.
- kotlinx.html text escaping is modelled as replacing `<`, `>`, `&` and `"` by their entities. The library itself is not part of this model.
- HttpUtils.FortunesPageReadsBack: the read-back holds for fortunes whose ids are 32-bit `Int`s, the column type.
- KotlinText.ToIntOrNull: only ASCII digits are modelled. Kotlin also accepts other Unicode decimal digits.
- KotlinText.LowercaseEqualIff: only ASCII letters change case. Unicode case mapping, such as the Kelvin sign (U+212A), which lower-cases to 'k', is not modelled.
- KotlinText.UppercaseEqualIff: the same ASCII restriction applies. Kotlin upper-cases 'ſ' (U+017F) to 'S', so `TransactionProviderConfig.CurrentProvider` gives JDBC for "databaſe" where Kotlin gives DATABASE.
- KotlinText.StringLeTotal: strings are compared by Unicode scalar value. Kotlin compares UTF-16 code units, which orders characters beyond U+FFFF differently against characters from U+E000 to U+FFFF.
- OkioSink.VertxBufferSink.Write: `byteCount` must lie within the source. Okio throws for an out-of-range count, and that exception is not modelled.
- BufferOutputStreams.BufferOutputStream.WriteRange: `off` and `len` must lie within the array. Vert.x throws for an out-of-range slice, and that exception is not modelled.
- VertxBuffer.Buffer.AppendBytesRange: the same range precondition applies, for the same reason.
- OkioSink.OkioBuffer.ReadByteArray: the same range precondition applies, for the same reason.
- `VertxBufferWriteStreamSink`, `WriteStream.toSink` and `VertxWriteStreamOutputStream` are left out. They block on a write stream, and the first two are unused.
- The sinks' `timeout()` is a constant and is left out.
- The connection factories `connectionPoolOptimized` and `connectionPoolOriginal` are represented by which one is chosen and its pool size.
- R2dbcMain.Start: building the pool is assumed to succeed. r2dbc-pool's checks on the pool size passed as `initialSize` and `maxSize` are not modelled. Such a check can reject a non-positive size such as "0" or "-5", so a shared-pool start can fail where the model launches.
- The launch call at Main.kt:44 passes a factory to a verticle whose shown constructor takes none, so the launch is modelled only as the chosen verticle and name.
- The Exposed-based verticles and their batch updates are not modelled. The transaction providers are represented by their kind.
- The `println` messages of the provider selection are console output and are not modelled.
- Metrics, the server and container lifecycle, the load test and the build files are outside the request logic.

## Findings

| source | as written | input that shows it | evidently intended | confidence | as-written member | corrected member |
|---|---|---|---|---|---|---|
| frameworks/Kotlin/vertx-web-kotlinx/with-db/r2dbc/src/main/kotlin/MainVerticle.kt:44 | begin (line 44), commit (55), rollback (58) and close (32) are awaited with `awaitFirst()`. Their R2DBC publishers are `Publisher<Void>` and complete without a value, and `awaitFirst` throws NoSuchElementException on such a publisher | any `/updates` request on a database that fails nothing: awaiting begin throws before the first UPDATE, and the close in `finally` throws as well (`R2dbcVerticle.AsWrittenBeginFails`) | await completion only (`awaitFirstOrNull`), so begin, the UPDATEs and commit run, and a successful close leaves the block's result in place | not executed; medium: it follows from the R2DBC interface's `Publisher<Void>` types and the documented behaviour of `awaitFirst` | R2dbcVerticle.UpdateWorldsAsWritten | R2dbcVerticle.Connection.UpdateSortedWorlds |
