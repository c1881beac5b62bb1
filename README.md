# CloudWatch log4j appender: delivery engine

This project models the delivery engine of `CloudWatchAppender`, a log4j appender that ships log
events to an AWS CloudWatch Logs stream. The model covers these parts:

- **Bounded enqueue** (`append`). An event is offered, without blocking, to a queue of fixed capacity
  (`AWS_LOG_STREAM_MAX_QUEUE_DEPTH`). A `queueFull` flag is flipped by the rule the code uses.
- **Flush** (`flush`). A `do … while` loop works in passes. Each pass does the following:
  - drains up to `AWS_DRAIN_LIMIT` events;
  - sorts them stably by timestamp;
  - when the high-water mark `lastReportedTimestamp` is positive, raises the leading events older than
    the mark up to it;
  - records the batch's last timestamp as the new mark;
  - sends the batch with the cached sequence token;
  - takes the new token from the service's answer;
  - drops the batch.

  The loop repeats while a full slice was drained.
- **Provisioning** (`createLogGroupAndLogStreamIfNeeded`):
  - creates the log group unless a described group has exactly its name;
  - creates the log stream unless a described stream has exactly its name;
  - returns the upload token of the last stream with that name.
- **Stream-name fallback** (`activateOptions`): the configured name, then `ENV_LOG_STREAM_NAME`, then
  `AWS_INSTANCE_ID`.
- **Shutdown** (`close`) and the end of the delivery thread: flush what is left.
- **Configuration accessors.** The flush period is stored in milliseconds, computed with 32-bit `int`
  arithmetic.

Modules:

| file | module | contents |
|---|---|---|
| `wrappers.dfy` | `Wrappers` | `Option`, used for Java's nullable strings and lists |
| `events.dfy` | `Events` | `LogEvent` (timestamp, message), sortedness, message projection |
| `batching.dfy` | `Batching` | stable sort by timestamp, normalization against the mark, the batch-assembly methods |
| `delivery.dfy` | `Delivery` | the send outcomes, the token rule, `FlushFrom` (what a whole flush does, as a function), chunking, the flush theorems |
| `provisioning.dfy` | `Provisioning` | the describe-list scans and the stream-name fallback |
| `javaint.dfy` | `JavaInt` | 32-bit `int` wrap-around and Java's truncating division |
| `appender.dfy` | `Appender` | class `CloudWatchAppender`, with the source's fields and a ghost log of sent requests and create calls |

The log service is an oracle, `respond: nat -> SendOutcome`. Its argument is the number of the send
within the current flush. Its answers stand for the three cases the code handles:

- `Accepted(next)` is a normal `PutLogEventsResult`.
- `DataAlreadyAccepted(expected)` and `InvalidSequenceToken(expected)` are the two named exceptions.
- `OtherError` is any other exception.

`Config` is outside this model, so `AWS_DRAIN_LIMIT` and the queue capacity are positive parameters of
the constructor. `ENV_LOG_STREAM_NAME` and the instance id are parameters of `ActivateOptions`, and what
`describeLogGroups` and `describeLogStreams` return are inputs.

`Collections.sort` is a stable merge sort in the JDK. Here it is modelled by `SortByTimestamp`, an
insertion sort written as a function. What the model relies on is proved about it:

- the result is sorted;
- it is a permutation of the input;
- it is stable: for every timestamp, the events with that timestamp stay in input order.

## Model

| member | source | states |
|---|---|---|
| Appender.CloudWatchAppender.constructor | src/main/java/com/vi/aws/logging/log4jappenders/CloudWatchAppender.java:34-51 | a new appender has an empty queue of the given capacity, both flags clear, no cached token, mark -1, the default group name, no stream name, region or keys, and the default flush period in 32-bit milliseconds |
| Appender.CloudWatchAppender.Offer | src/main/java/com/vi/aws/logging/log4jappenders/CloudWatchAppender.java:34 | the offer succeeds iff fewer than `capacity` events are queued; then the event is at the tail, otherwise the queue is unchanged |
| Appender.CloudWatchAppender.Append | src/main/java/com/vi/aws/logging/log4jappenders/CloudWatchAppender.java:171-182 | with room, the event is appended at the tail and `queueFull` ends false; when full, the queue is unchanged and `queueFull` becomes the negation of its old value (a second refusal clears it, as written) |
| Appender.CloudWatchAppender.DrainTo | src/main/java/com/vi/aws/logging/log4jappenders/CloudWatchAppender.java:125 | returns the oldest min(size, limit) events in FIFO order and leaves exactly the rest queued |
| Appender.CloudWatchAppender.SendDrained | src/main/java/com/vi/aws/logging/log4jappenders/CloudWatchAppender.java:129-164 | one pass: the request carries the assembled batch and the token held before the send; the mark becomes the batch's last timestamp whatever the answer; the token follows the answer |
| Appender.CloudWatchAppender.Flush | src/main/java/com/vi/aws/logging/log4jappenders/CloudWatchAppender.java:98-166 | the loop terminates, the queue is empty, and mark, token and requests are those of `FlushFrom` on the starting queue; a positive mark never decreases; afterwards the delivery thread waits for the flush period exactly when it is not shutting down (line 104) |
| Appender.CloudWatchAppender.DrainRemaining | src/main/java/com/vi/aws/logging/log4jappenders/CloudWatchAppender.java:115-117 | flushing until empty ends with an empty queue and the same state one `FlushFrom` gives |
| Appender.CloudWatchAppender.Close | src/main/java/com/vi/aws/logging/log4jappenders/CloudWatchAppender.java:245-260 | sets `shutdown`, and the remaining events are flushed exactly as `FlushFrom` says, leaving the queue empty |
| Appender.CloudWatchAppender.CreateLogGroupAndLogStreamIfNeeded | src/main/java/com/vi/aws/logging/log4jappenders/CloudWatchAppender.java:191-232 | the create calls made are exactly a group creation when no described group has the name, then a stream creation when no described stream has the name; the result is the upload token of the last matching stream. With a null stream name, an empty or missing stream list still leads to a creation under a null name and a null token, and a non-empty list throws at the first name comparison |
| Appender.CloudWatchAppender.ActivateOptions | src/main/java/com/vi/aws/logging/log4jappenders/CloudWatchAppender.java:76-87 | the stream name is the first present of configured, environment, instance id; the create calls are those provisioning makes for that name; when provisioning returns, its token is cached and the delivery thread starts; when it throws (no name and a non-empty stream list), the token and the thread are left as they were |
| Appender.CloudWatchAppender.SetLogStreamFlushPeriodInSeconds | src/main/java/com/vi/aws/logging/log4jappenders/CloudWatchAppender.java:308-319 | the stored milliseconds are `seconds * 1000` wrapped to 32 bits, and the getter reads the seconds back whenever their milliseconds fit in an `int` |
| Appender.CloudWatchAppender.GetLogStreamFlushPeriodInSeconds | src/main/java/com/vi/aws/logging/log4jappenders/CloudWatchAppender.java:317-319 | the seconds read back from any `int` of milliseconds lie within -2147483 to 2147483 |
| Appender.CloudWatchAppender.SetLogGroupName | src/main/java/com/vi/aws/logging/log4jappenders/CloudWatchAppender.java:272-283 | the group name becomes the given one, and `GetLogGroupName` reads it back |
| Appender.CloudWatchAppender.SetLogStreamName | src/main/java/com/vi/aws/logging/log4jappenders/CloudWatchAppender.java:290-301 | the stream name becomes the given one, and `GetLogStreamName` reads it back |
| Appender.CloudWatchAppender.SetAwsRegion | src/main/java/com/vi/aws/logging/log4jappenders/CloudWatchAppender.java:326-337 | the region becomes the given one, and `GetAwsRegion` reads it back |
| Appender.CloudWatchAppender.SetAwsAccessKey | src/main/java/com/vi/aws/logging/log4jappenders/CloudWatchAppender.java:343-345 | the access key becomes the given one |
| Appender.CloudWatchAppender.SetAwsSecretKey | src/main/java/com/vi/aws/logging/log4jappenders/CloudWatchAppender.java:352-354 | the secret key becomes the given one |
| Appender.FlushPeriodRoundTrip | src/main/java/com/vi/aws/logging/log4jappenders/CloudWatchAppender.java:308-319 | reading back a flush period set in seconds gives the same seconds whenever the milliseconds fit in an `int` |
| Appender.FlushPeriodWraps | src/main/java/com/vi/aws/logging/log4jappenders/CloudWatchAppender.java:308-319 | past that range the milliseconds wrap: 2147484 seconds read back as -2147483 |
| Appender.FirstOfThree | src/main/java/com/vi/aws/logging/log4jappenders/CloudWatchAppender.java:76-81 | the fallback chain picks the configured name if present, else the environment's, else the instance id |
| JavaInt.Wrap | src/main/java/com/vi/aws/logging/log4jappenders/CloudWatchAppender.java:309 | the result is an `int`, congruent to the input modulo 2^32, and equal to it when it already fits |
| JavaInt.Quot | src/main/java/com/vi/aws/logging/log4jappenders/CloudWatchAppender.java:318 | division truncates toward zero: the quotient brackets the dividend from below for non-negative and from above for negative dividends |
| Batching.SortSorted | src/main/java/com/vi/aws/logging/log4jappenders/CloudWatchAppender.java:129-134 | the sorted batch has non-decreasing timestamps |
| Batching.SortPermutes | src/main/java/com/vi/aws/logging/log4jappenders/CloudWatchAppender.java:129-134 | sorting is a permutation of the drained events |
| Batching.SortKeepsMessages | src/main/java/com/vi/aws/logging/log4jappenders/CloudWatchAppender.java:129-134 | sorting keeps the multiset of messages |
| Batching.SortStable | src/main/java/com/vi/aws/logging/log4jappenders/CloudWatchAppender.java:129-134 | sorting is stable: events sharing a timestamp keep their drained order |
| Batching.InsertSorted | src/main/java/com/vi/aws/logging/log4jappenders/CloudWatchAppender.java:129-134 | inserting into a sorted list keeps it sorted |
| Batching.InsertPermutes | src/main/java/com/vi/aws/logging/log4jappenders/CloudWatchAppender.java:129-134 | insertion adds exactly the inserted event |
| Batching.InsertStable | src/main/java/com/vi/aws/logging/log4jappenders/CloudWatchAppender.java:129-134 | for every timestamp, the events with it come out in the order of the new event followed by the list |
| Batching.LeadingBelow | src/main/java/com/vi/aws/logging/log4jappenders/CloudWatchAppender.java:139-144 | the length of the maximal prefix strictly older than the mark: all of it is below, and the next event is not |
| Batching.RaiseLeadingTimestamps | src/main/java/com/vi/aws/logging/log4jappenders/CloudWatchAppender.java:139-144 | the `for … break` loop sets the leading events older than the mark to the mark and stops at the first event that is not older |
| Batching.AssembleBatch | src/main/java/com/vi/aws/logging/log4jappenders/CloudWatchAppender.java:129-145 | sorting then normalizing only when the mark is positive yields `Assemble` of the drained events |
| Batching.NormalizedSpec | src/main/java/com/vi/aws/logging/log4jappenders/CloudWatchAppender.java:135-145 | same length and messages; with a mark at most 0 nothing changes; otherwise exactly the maximal prefix below the mark is set to the mark and every later event is unchanged |
| Batching.NormalizedSorted | src/main/java/com/vi/aws/logging/log4jappenders/CloudWatchAppender.java:135-145 | on a sorted batch with a positive mark, the result stays sorted, no event is older than the mark, and each timestamp is the larger of its own and the mark |
| Batching.AssembleSorted | src/main/java/com/vi/aws/logging/log4jappenders/CloudWatchAppender.java:129-145 | an assembled batch is sorted and, for a positive mark, has no event older than it |
| Batching.AssembleMessages | src/main/java/com/vi/aws/logging/log4jappenders/CloudWatchAppender.java:129-145 | an assembled batch has the drained events' messages |
| Batching.SortedLastIsMax | src/main/java/com/vi/aws/logging/log4jappenders/CloudWatchAppender.java:146 | in a sorted batch the last timestamp is the maximum, so the new mark is the batch's latest timestamp |
| Batching.AssembleSpec | src/main/java/com/vi/aws/logging/log4jappenders/CloudWatchAppender.java:129-146 | the assembled batch has the drained length, is sorted, keeps the messages, respects a positive mark, and ends with its maximum timestamp |
| Delivery.ChunksPartition | src/main/java/com/vi/aws/logging/log4jappenders/CloudWatchAppender.java:125 | the chunks concatenate to the queue in order, each holds 1 to `limit` events, and all but the last hold exactly `limit` |
| Delivery.ChunksCount | src/main/java/com/vi/aws/logging/log4jappenders/CloudWatchAppender.java:124-165 | a queue of n events has ceil(n / limit) chunks, stated as (c-1)·limit < n <= c·limit, and none when it is empty |
| Delivery.FlushRequests | src/main/java/com/vi/aws/logging/log4jappenders/CloudWatchAppender.java:124-165 | the i-th request of a flush holds the i-th chunk, assembled against the mark left by request i-1, with the token left by the first i answers |
| Delivery.FlushLeaves | src/main/java/com/vi/aws/logging/log4jappenders/CloudWatchAppender.java:146-163 | after a flush the mark is the one left by the last request and the token reflects every answer in order |
| Delivery.FlushTokenFromLastAnswer | src/main/java/com/vi/aws/logging/log4jappenders/CloudWatchAppender.java:149-163 | the token a flush leaves is set by the answer to its last request: the next token when accepted, the expected token on either rejection, and the token that request carried on any other error |
| Delivery.FlushNextRequestToken | src/main/java/com/vi/aws/logging/log4jappenders/CloudWatchAppender.java:149-165 | within one flush, the request after an accepted send carries the next token the service returned, the request after either rejection carries exactly the expected token, and after any other error it carries the same token again |
| Delivery.FlushSendsChunks | src/main/java/com/vi/aws/logging/log4jappenders/CloudWatchAppender.java:124-165 | one request per FIFO chunk of the queue, each built from its chunk, the mark before it and the token before it; each batch is sent once whatever its answer |
| Delivery.FlushBatchCount | src/main/java/com/vi/aws/logging/log4jappenders/CloudWatchAppender.java:124-165 | a flush sends ceil(n / limit) requests, and none for an empty queue |
| Delivery.FlushBatchShape | src/main/java/com/vi/aws/logging/log4jappenders/CloudWatchAppender.java:123-145 | every request holds 1 to `limit` events, is sorted by timestamp, and carries the messages of its chunk |
| Delivery.FlushMonotone | src/main/java/com/vi/aws/logging/log4jappenders/CloudWatchAppender.java:135-146 | from a positive mark everything sent across all batches is in timestamp order and no older than the mark, and the final mark is the last timestamp sent, so it never decreases |
| Delivery.FlushConservesMessages | src/main/java/com/vi/aws/logging/log4jappenders/CloudWatchAppender.java:124-165 | the messages sent by a flush are exactly the queued messages, none lost and none duplicated |
| Provisioning.ShouldCreateLogGroup | src/main/java/com/vi/aws/logging/log4jappenders/CloudWatchAppender.java:192-203 | the scan asks for a group creation iff no described group is named exactly `logGroupName`; a missing result or list counts as no group |
| Provisioning.LastMatch | src/main/java/com/vi/aws/logging/log4jappenders/CloudWatchAppender.java:217-222 | none iff no stream has the name; otherwise the index of a matching stream after which no stream matches |
| Provisioning.InspectLogStreams | src/main/java/com/vi/aws/logging/log4jappenders/CloudWatchAppender.java:209-231 | a stream creation is asked for iff no described stream has the name; the token is that of the last matching stream, so it is none whenever the stream is created |
| Provisioning.FirstPresent | src/main/java/com/vi/aws/logging/log4jappenders/CloudWatchAppender.java:76-81 | none iff every candidate is absent; otherwise one of the candidates, the first present one |

## Left out

- The delivery thread, `monitor.wait`/`notify`, the `volatile` flags and `join` with a timeout are not
  modelled, because their point is concurrency and timing. The wait condition is kept as
  `WaitsBeforeNextFlush`, and "flush until empty" as `DrainRemaining`. `Flush` assumes no concurrent
  producer.
- AWS client construction, credentials and region selection are not modelled, because they are SDK
  calls. The access-key and secret-key setters only store their values, and `deliveryStarted` records only
  whether the delivery thread was started.
- Log4j layout formatting, `LoggingEvent` conversion and `requiresLayout` are not modelled, because
  they belong to a foreign library. An event is given as (timestamp, message).
- `debug`, `getTimeNow` and the date format are not modelled, because they are console output and
  wall-clock formatting.
- The `Config` constants and `retrieveInstanceId` are outside this model. Their values are parameters
  here.
- The 1 MB request cap in the comment at line 151 is not modelled, because the code does not enforce it.
- The service is an oracle indexed by the number of the send within one flush. Answers do not depend
  on the request's contents. The client's describe and create calls are inputs and ghost records.
- `Batching.SortByTimestamp`: `Collections.sort` sorts the `ArrayList` in place. Here it is a function
  on sequences. `flush` raises timestamps by mutating the event objects, so the queued objects and the
  request share them. The model copies values, so that aliasing is not captured, nor is the reuse and
  `clear` of the one `ArrayList`.
- Timestamps are Java `long` values. They are unbounded integers here, because the code does no
  arithmetic on them.
- A null `logGroupName` (set through `setLogGroupName(null)`) is not modelled. The group name is a
  plain string.
- `Appender.CloudWatchAppender.ActivateOptions`: with no stream name at all, provisioning is called with a
  null name. If the described stream list is non-empty, `logStreamName.equals` throws a
  `NullPointerException` at line 218, which `activateOptions` catches and prints. The model keeps only
  the effect: the group step happens, no stream is created, the token cache keeps its value and the
  delivery thread is not started. If the list is null or empty, the model records the
  `createLogStream` call with a null name and lets it return, as it does every service call.
- Every describe and create call is assumed to return. In the source, an SDK exception at line 193,
  207, 214 or 229 (for example `ResourceAlreadyExistsException` when the group is not on the first
  describe page) reaches the catch at line 89, so the token is never assigned and the delivery thread
  never starts. The model does not have that path, and a describe result is the whole list rather than
  its first page.
- `Delivery.Request`: a request records only its batch and token. Each `PutLogEventsRequest` also
  names the group and the stream (line 147), so the ghost request log cannot say where a batch went
  if the group or stream name is changed between flushes.
- `Delivery.ChunksCount` and `Delivery.FlushBatchCount` state ceil(n / limit) as the bracket
  (c-1)·limit < n <= c·limit rather than with division. The two are equivalent.
