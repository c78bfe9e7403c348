# Verified model of the websocket relay core

This project models three parts of a WebSocket publish/subscribe relay that runs
on AWS, and proves properties of the models.

- **Backoff** (`backoff.dfy`). `backoff.New(maxRetries)` returns a closure over a
  counter. Here the closure is the class `Backoff.Generator`, and
  `Generator.Advance` is one call of it. The closure's body comes in two
  versions, chosen by the `Schedule` parameter. `AsWritten` is the code exactly
  as it stands. `Documented` follows the table in the doc comment. The sleep of
  each call is a ghost delay in milliseconds.
- **Subscription store** (`db.dfy`, `datelayout.dfy`).
  - `NewRecord` builds a subscription record: partition key `"topic/" + topic`,
    sort key timestamp + `/` + connection ID, and TTL. `DateLayout.Format`
    renders the timestamp with the layout `20060102150405`.
  - The table is a map from (pk, sk) keys to records, written by blind upserts.
    `Put` writes one record. `BatchPut` builds one put request per topic, then
    runs the retry loop: it resubmits what the storage left unprocessed, and
    calls the backoff generator between rounds. The loop is described in two
    halves: `RetryRounds` gives the requests it sends and how it ends, and
    `Replay` applies those writes to the table in order.
  - `Query` concatenates the connection IDs of the pages it receives.
  - What the storage does on each call is an oracle given to the operation: a
    write error, the unprocessed items, the pages. So are the clock and the
    encoder.
- **Dispatcher** (`sender.dfy`). `Handle` first flags every message ID of the
  batch as unprocessed. It then visits the records in order: it posts each
  addressed record to its connection, flags the ID on success, and stops after a
  successful post seen later than the cutoff. It reports every ID whose flag is
  still false. The push channel is an oracle: one answer per record, plus the
  clock reading taken after a successful post.

`wrappers.dfy` holds the `Option` type.

**Three points where the model follows the code as it stands:**
- *Backoff counter.* The table in the comment above `New`
  (backoff/backoff.go:13-21) gives retry 0 no sleep and retry n ≥ 1 a sleep of
  2^n·100 ms, and the closure fails once the counter passes maxRetries. In the code the
  `retry == 0` return comes before `retry++`, so the counter never leaves 0.
- *Query key.* `Put` stores a record under the partition key
  `"topic/" + topic` (db/db.go:84), while `Query` uses its argument as the
  partition key verbatim (db/db.go:162). So after `Put("c1", "ab12")`, only
  `Query("topic/ab12")` finds `c1` (`Db.PutThenQuery`,
  `Db.PutIsNotUnderBareTopic`).
- *Dispatcher cutoff.* The comment at sender/main.go:48 says to leave five
  seconds at the end to clean up. The code adds five seconds to the deadline
  instead, and reads the clock only after a successful post.

## Model

| member | source | states |
|---|---|---|
| Backoff.AsWrittenStep | backoff/backoff.go:40-52 | A call fails exactly when the counter exceeds maxRetries, and a failing call changes nothing. At counter 0 it returns nil without sleeping, and the counter stays 0. At counter r ≥ 1 the counter becomes r+1 and the call sleeps 2^(r+1)·100 ms, twice the table's delay for row r. |
| Backoff.DocumentedStep | backoff/backoff.go:13-21 | The schedule of the doc comment: a call fails exactly when the counter exceeds maxRetries. Otherwise it sleeps the delay of the table's row for the current counter, and then advances the counter. |
| Backoff.DocumentedDelay | backoff/backoff.go:13-21 | The "Backoff" column: the delay is zero exactly for retry 0. |
| Backoff.Generator.constructor | backoff/backoff.go:38-39 | New captures the ceiling, and the counter starts at 0. |
| Backoff.Generator.Advance | backoff/backoff.go:40-52 | One call of the closure: the new counter, the value returned and the sleep are those of the step function for the generator's schedule. A failing call leaves the counter unchanged. As written, a counter at 0 stays at 0. |
| Backoff.NegativeCeilingAlwaysFails | backoff/backoff.go:39-43 | With maxRetries < 0, every call of a fresh generator returns ErrMaxBackoffReached and the counter stays 0, under either schedule. |
| Backoff.AsWrittenNeverAdvances | backoff/backoff.go:39-52 | With maxRetries ≥ 0, any number of calls of the closure as written all return nil, none sleeps, and the counter never leaves 0. |
| Backoff.DocumentedCalls | backoff/backoff.go:13-21 | Under the documented schedule, call k returns nil after sleeping the table's delay for row retry+k while the counter is within the ceiling. From then on, every call fails. |
| Backoff.DocumentedExhaustsAfterCeiling | backoff/backoff.go:41-43 | Under the documented schedule, the first maxRetries+1 calls succeed and the next one returns ErrMaxBackoffReached. |
| Backoff.DocumentedTotalDelay | backoff/backoff.go:13-21 | The time slept by the first n ≤ maxRetries+1 documented calls is the "Total elapsed" entry of row n−1. |
| Backoff.ElapsedClosedForm | backoff/backoff.go:13-21 | The total elapsed after retry n is 200·(2^n − 1) ms. |
| Backoff.DocumentedTable | backoff/backoff.go:13-21 | The delays for retries 0..7 are 0, 200, …, 12800 ms, and the totals are 0, 200, 600, 1400, 3000, 6200, 12600, 25400 ms. |
| DateLayout.Format | db/db.go:80-85 | `now.Format(dateLayout)` is at least fourteen characters, starts with a minus sign exactly for years before 0, and is decimal digits everywhere else: the zero-padded four-digit year, then two-digit month, day, hour, minute and second. |
| DateLayout.ParseFormat | db/db.go:80 | For years 0..9999 the formatted timestamp is fourteen digits, and reading them back gives the same date and time. |
| DateLayout.FormatReferenceTime | db/db.go:80 | Formatting Go's reference time 2006-01-02 15:04:05 yields the layout string itself. |
| Db.NewRecord | db/db.go:82-90 | The partition key is "topic/" followed by the topic. The topic and connection ID fields are copied verbatim. The TTL is the creation time in Unix seconds plus exactly 8100. |
| Db.SortKeyLayout | db/db.go:85 | The sort key is the fourteen-character timestamp of the creation time, a slash, then the connection ID, so dropping the first fifteen characters gives back the connection ID. |
| Db.SortKeyDistinguishes | db/db.go:85 | Two records of a topic with equal sort keys belong to the same connection and were made in the same second. |
| Db.Put | db/db.go:105-116 | One record from one clock reading and at most one write. An encoding error returns before any write, with the table unchanged. The call succeeds exactly when the record encodes and PutItem succeeds, and then the record is upserted under its key. |
| Db.RetryRounds | db/db.go:138-151 | Bounds of the retry loop: at most `fuel` writes, exactly `fuel` when the fuel runs out, and the first request is the batch itself. |
| Db.BatchPut | db/db.go:118-152 | The method's end, final table and sequence of requests are those of the specification function. |
| Db.BuildRequests | db/db.go:119-130 | The request array holds one record per topic, in topic order, each built from its own clock reading. The method reports failure exactly when some record does not encode. |
| Db.WriteUntilProcessed | db/db.go:131-151 | The write-and-backoff loop, driving a Backoff.Generator, ends as the retry loop function does: same end, same table, same requests. |
| Db.RequestAt | db/db.go:119-130 | Request j is the record for topic j and the caller's connection, with partition key "topic/" + topic j. |
| Db.BatchPutRequests | db/db.go:119-130 | If any record fails to encode, BatchPut returns the encoding error before any write and leaves the table unchanged. Otherwise its first request is exactly one record per topic, in order, all for the same connection ID. |
| Db.WriteLoopResubmits | db/db.go:143-149 | Every request after the first is exactly the non-empty remainder that the previous write left unprocessed. |
| Db.WriteLoopLastWrite | db/db.go:139-151 | A run that returns does so right after its last write: nil only after a write that left nothing unprocessed, the store error right after a failed write, and the backoff error only after a write that left items unprocessed. No other error comes out. |
| Db.RoundsWithinBatch | db/db.go:143-149 | When the storage reports as unprocessed only items it was sent, every item of every request the loop sends is an item of the original batch. |
| Db.ReplayFrame | db/db.go:139-149 | Writes whose items all come from a batch keep every stored key, and leave under each key its old record or an item of the batch. A table whose records sit under their own keys stays so. |
| Db.DrainedRunDrains | db/db.go:139-151 | In a run that returns nil, every write but the last left exactly the next request unprocessed, and the last write left nothing unprocessed. |
| Db.DrainsWithinFirst | db/db.go:143-149 | Along such a run, every item of a later request is an item of the first. |
| Db.ReplayStores | db/db.go:139-149 | Replaying the writes of such a run stores every item of the first request, and what ends up under its key is an item of that request. |
| Db.WriteLoopFrame | db/db.go:139-149 | The writes keep every key already stored. Under every key there is afterwards the old record or one of the batch. A table whose records sit under their own keys stays so. |
| Db.DrainedLoopStoresAll | db/db.go:138-151 | When the loop returns nil, every record of the batch has a record of the batch stored under its key. |
| Db.DocumentedWriteLoopBounded | db/db.go:136-151 | With the documented backoff, the loop makes at most MaxBatchRetries + 2 − retry writes, and given that much fuel it always returns. |
| Db.AsWrittenWriteLoopNeverReturns | db/db.go:137-151 | With the backoff as written and a storage that leaves every request unprocessed, the loop resubmits the whole batch on every write and never returns, however much fuel it gets. |
| Db.DocumentedBatchPutBounded | db/db.go:136-151 | BatchPut with the documented backoff makes at most seven writes, and always returns when it has fuel for them. |
| Db.AsWrittenBatchPutNeverReturns | db/db.go:136-151 | BatchPut as written, on a non-empty batch against a storage that processes nothing, is still writing after any number of writes. |
| Db.Query | db/db.go:154-181 | The method returns what the page-concatenation function gathers from the pages. |
| Db.AppendConnectionIds | db/db.go:176-178 | The inner loop leaves what was gathered before in front, followed by the connection ID of each record of the page, in page order. |
| Db.CollectPrefix | db/db.go:166-180 | Query returns the connection IDs of all records on all pages before the first failing page, in page order, together with that page's error (none if every page arrives and decodes). |
| Db.QueryServed | db/db.go:154-181 | However the records stored under a key are split into pages, Query returns no error, and it returns every connection ID stored under that key and no other. |
| Db.PutThenQuery | db/db.go:157-163 | After a successful Put(c, t), Query("topic/" + t) returns c. |
| Db.PutIsNotUnderBareTopic | db/db.go:157-163 | After Put(c, t) into an empty table, Query(t) returns no connection ID, because the argument is matched verbatim. |
| Db.BatchPutThenQuery | db/db.go:131-151 | After BatchPut(c, topics) returns nil, Query("topic/" + t) returns c for every t in topics. |
| Sender.Handle | sender/main.go:38-97 | If the configuration fails to load, the call returns the error with an empty report and makes no post. Otherwise it reports exactly the IDs of the redelivery set, with no ID twice, and the posts are those made for the visited records. |
| Sender.Cutoff | sender/main.go:48-50 | The cutoff lies exactly five seconds from `ctx.Deadline()`, which is the zero time when there is no deadline. It lies after the deadline exactly under the rule as written, and before it under the comment's rule. |
| Sender.ConnectionIdOf | sender/main.go:60-69 | A record is addressed exactly when it has a "connectionId" attribute whose string value is not nil, and then the connection ID is that value. |
| Sender.InitFlags | sender/main.go:52-56 | The flag map holds every message ID of the batch, each flagged as not processed. |
| Sender.Dispatch | sender/main.go:58-84 | After the loop, an ID's flag is true exactly when a visited record carrying it was delivered. The posts are one per visited record that has a connection ID, in order, with that ID and the record's body. |
| Sender.Failures | sender/main.go:86-94 | The report lists exactly the IDs whose flag is false, each once. |
| Sender.RedeliveryMembers | sender/main.go:87-94 | An ID is reported exactly when some record of the batch carries it and no visited record carrying it was delivered. |
| Sender.VisitedFirstStop | sender/main.go:79-83 | The loop ends right after the first successful post observed later than the cutoff. |
| Sender.VisitedNoStop | sender/main.go:59-84 | Without such a post, the loop visits every record. |
| Sender.VisitedStopsAtFirstLateSuccess | sender/main.go:79-83 | No record before the last visited one stopped the loop. If records are left unvisited, the last visited one is a successful post past the cutoff. |
| Sender.DeliveredNotReported | sender/main.go:79-90 | Once a visited record has been delivered, its ID is not reported, so a later failure of a record with the same ID cannot bring the ID back into the report. |
| Sender.UndeliveredRecordReported | sender/main.go:60-78 | A record without a connection ID attribute, or with a nil value, gets no post. Neither such a record nor a record whose post fails stops the loop. With distinct IDs, both are reported. |
| Sender.LateRecordsReported | sender/main.go:79-94 | When the loop stops at record k, exactly k+1 records are visited, and with distinct IDs every later record is reported, whatever its own outcome would have been. |
| Sender.PunctualBatchDelivered | sender/main.go:59-94 | When every record has a connection ID and every post succeeds no later than the cutoff, the whole batch is visited, each body is posted to its connection in order, and the report is empty. |
| Sender.PostsOfAddressed | sender/main.go:71-74 | When all records are addressed, post i carries record i's connection ID and body unchanged. |
| Sender.EarlierSuccessesWithinCutoff | sender/main.go:79-83 | Every successful post before the last visited record was observed no later than the cutoff. |
| Sender.CutoffAgainstDeadline | sender/main.go:48-50 | The cutoff as written lies five seconds after the deadline. The cutoff of the comment lies five seconds before it. |
| Sender.IntendedLeavesMargin | sender/main.go:48 | With the comment's cutoff, every successful post that the loop followed with more work was observed at least five seconds before the deadline. |
| Sender.AsWrittenPostsPastDeadline | sender/main.go:48-50 | As written, a post that succeeds one second after the deadline does not stop the loop, and the next record is still posted. With the comment's cutoff, the loop stops there and reports the next record. |
| Sender.NoDeadlineStopsAtFirstSuccess | sender/main.go:49-83 | Without a deadline, the cutoff is five seconds after Go's zero time, so the loop stops right after the first successful post. |
| Sender.ThreeMessageBatch | sender/main.go:59-94 | The batch (delivered in time, failed post, no connection ID attribute) posts to the first two records and reports exactly the second and third. |

## Left out

- AWS calls are oracles given to the operations: PutItem, BatchWriteItem, the Query paginator, PostToConnection and LoadDefaultConfig. The same goes for the attribute-value encoder and decoder, which give a yes/no verdict per record or page. The DynamoDB encoding itself is not modelled.
- A failed PutItem or BatchWriteItem call is taken to store nothing.
- `UnprocessedItems` is modelled as a sequence of records for the one table the store writes to, not as a map from table names to write requests.
- The key condition of Query is applied by the storage: `Db.Served` relates the pages to the table. `HasMorePages`/`NextPage` become a finite sequence of pages.
- Clock readings are inputs. `Db.Time` carries the broken-down UTC fields and the Unix seconds of one instant, and the conversion between the two is not modelled.
- `time.Sleep` is a ghost delay. `ctx.Deadline()` is an optional integer instant in nanoseconds since Go's zero time.
- Backoff.Generator.Advance: `math.Pow` and `time.Duration` are taken as exact integer arithmetic. The int64 overflow of the sleep duration for counters of about 37 and above is not modelled.
- Db.NewRecord: the TTL is an unbounded integer, with no int64 wrap-around.
- Db.SortKeyLayout: stated only for years 0 to 9999. `DateLayout.Format` also renders earlier and later years, as Go does, but the sort key is then no longer fourteen digits.
- Db.RetryRounds: the retry loop can run forever with the backoff as written, so the model stops after `fuel` writes and reports `FuelSpent`. Behaviour beyond the fuel bound is not captured.
- Go's map iteration order: the report is a list without duplicates whose elements form the redelivery set, in no particular order.
- Sender.Handle: the error returned when the configuration fails to load is the boolean `failed`. The API client and its endpoint resolution are not modelled.
- Not modelled at all: logging, `main`, `NewHandler`, `NewStore` and its options, the unused `Namespace` field, the fan-out to topics the dispatcher leaves as a TODO, infrastructure provisioning, and the default-route handler.

## Findings

| source | as written | input that shows it | evidently intended | confidence | as-written member | corrected member |
|---|---|---|---|---|---|---|
| backoff/backoff.go:44-47 | `if retry == 0 { return nil }` comes before `retry++`, so the counter never leaves 0 | `New(5)` called any number of times: every call returns nil, none sleeps, none fails | call n sleeps 2^n·100 ms, and the call after maxRetries+1 successes fails | not executed | Backoff.AsWrittenNeverAdvances | Backoff.DocumentedExhaustsAfterCeiling |
| backoff/backoff.go:47-49 | the counter is incremented before the power is taken | a counter at 1 sleeps 400 ms where the table's row 1 says 200 ms | retry n sleeps 2^n·100 ms, total 200·(2^n − 1) ms | not executed | Backoff.AsWrittenStep | Backoff.DocumentedTotalDelay |
| db/db.go:136-151 | "Retry up to 5 times" relies on the backoff, which as written never fails | a storage that leaves the whole batch unprocessed on every call: BatchPut never returns | at most 7 writes, then ErrMaxBackoffReached | not executed | Db.AsWrittenBatchPutNeverReturns | Db.DocumentedBatchPutBounded |
| sender/main.go:48-50 | `deadline.Add(5 * time.Second)` moves the cutoff after the deadline | deadline d, first post succeeds at d + 1 s: the loop goes on and posts the next record after the deadline | stop once a success is seen later than d − 5 s, leaving five seconds to clean up | not executed | Sender.AsWrittenPostsPastDeadline | Sender.IntendedLeavesMargin |

The third row reads the table of backoff/backoff.go:13-21 as the Documented
schedule does: its rows are labelled Retry 0..7, the code tests
`retry > maxRetries` before anything else, and `retry == 0` is the call with no
delay. So `New(5)` allows the calls at rows 0..5, six successful backoff calls
in all, and BatchPut makes at most seven writes. The comment at db/db.go:136,
"Retry up to 5 times, over 6.2 seconds", can also be read as five sleeping calls
at rows 1..5. Those sleep 6.2 s in total as well, which the row-0 reading matches
because row 0 sleeps nothing.

The `Schedule` parameter (backoff and BatchPut) and the `CutoffRule` parameter
(dispatcher) select the code as written or the corrected behaviour. Every
operation and lemma is stated for both, or for the one it names.
