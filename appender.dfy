/** `CloudWatchAppender` as an object: the bounded queue with its queue-full flag, the flush loop with
    the high-water mark and the cached sequence token, provisioning at activation, shutdown, and the
    configuration accessors. The delivery thread's waiting and the log service are not modelled: a
    flush is given the service's answers as `respond`, and `sent` records every request made. */
module Appender {
  import opened Wrappers
  import opened Events
  import opened Batching
  import opened Delivery
  import opened Provisioning
  import opened JavaInt

  /** A `createLogGroup` or `createLogStream` call made while provisioning; the stream name of the
      latter may be null. */
  datatype CreateRequest = CreateLogGroup(group: string) | CreateLogStream(group: string, stream: Option<string>)

  /** How `createLogGroupAndLogStreamIfNeeded` ends: it returns a token, or, called with a null stream
      name and a non-empty described stream list, throws from `logStreamName.equals`. */
  datatype Provisioned = Returned(token: Option<string>) | NullStreamName

  /** The create calls provisioning makes for the chosen names and the described lists. A null stream
      name matches no described stream; with an empty list the creation is still attempted, and with a
      non-empty list the scan throws before the stream step. */
  function Creations(group: string, stream: Option<string>, groups: Option<seq<LogGroup>>,
                     streams: Option<seq<LogStream>>): seq<CreateRequest>
  {
    (if NamesGroup(Listed(groups), group) then [] else [CreateLogGroup(group)])
    + match stream
      case Some(name) => if LastMatch(Listed(streams), name).Some? then [] else [CreateLogStream(group, stream)]
      case None => if Listed(streams) == [] then [CreateLogStream(group, None)] else []
  }

  class CloudWatchAppender {
    /** `AWS_LOG_STREAM_MAX_QUEUE_DEPTH`, the capacity of the queue. */
    const capacity: nat
    /** `AWS_DRAIN_LIMIT`, the most events one flush pass takes from the queue. */
    const drainLimit: nat

    var queue: seq<LogEvent>
    var queueFull: bool
    var shutdown: bool
    /** Whether `activateOptions` got as far as starting the delivery thread. */
    var deliveryStarted: bool
    var flushPeriodMillis: int
    var sequenceTokenCache: Option<string>
    var lastReportedTimestamp: int

    var logGroupName: string
    var logStreamName: Option<string>
    var regionName: Option<string>
    var accessKey: Option<string>
    var secretKey: Option<string>

    /** Every `PutLogEventsRequest` made so far, oldest first. */
    ghost var sent: seq<Request>
    /** Every create call provisioning made so far. */
    ghost var created: seq<CreateRequest>

    ghost predicate Valid()
      reads this
    {
      0 < capacity && 0 < drainLimit && |queue| <= capacity && IsInt(flushPeriodMillis)
    }

    /** A fresh appender; the `Config` constants it reads are parameters here. */
    constructor (capacity: nat, drainLimit: nat, flushPeriodSeconds: int, defaultLogGroupName: string)
      requires 0 < capacity && 0 < drainLimit && IsInt(flushPeriodSeconds)
      ensures Valid() && this.capacity == capacity && this.drainLimit == drainLimit
      ensures queue == [] && !queueFull && !shutdown && !deliveryStarted
      ensures flushPeriodMillis == Wrap(flushPeriodSeconds * 1000)
      ensures sequenceTokenCache == None && lastReportedTimestamp == -1
      ensures logGroupName == defaultLogGroupName && logStreamName == None
      ensures regionName == None && accessKey == None && secretKey == None
      ensures sent == [] && created == []
    {
      this.capacity := capacity;
      this.drainLimit := drainLimit;
      queue := [];
      queueFull := false;
      shutdown := false;
      deliveryStarted := false;
      flushPeriodMillis := Wrap(flushPeriodSeconds * 1000);
      sequenceTokenCache := None;
      lastReportedTimestamp := -1;
      logGroupName := defaultLogGroupName;
      logStreamName := None;
      regionName := None;
      accessKey := None;
      secretKey := None;
      sent := [];
      created := [];
    }

    /** `BlockingQueue.offer`: adds at the tail unless the queue is at capacity, and never blocks. */
    method Offer(e: LogEvent) returns (accepted: bool)
      requires Valid()
      modifies this`queue
      ensures Valid()
      ensures accepted <==> |old(queue)| < capacity
      ensures queue == if accepted then old(queue) + [e] else old(queue)
    {
      accepted := |queue| < capacity;
      if accepted {
        queue := queue + [e];
      }
    }

    /** `BlockingQueue.drainTo`: removes and returns the oldest `maxElements` events, or all of them. */
    method DrainTo(maxElements: nat) returns (drained: seq<LogEvent>)
      requires Valid()
      modifies this`queue
      ensures Valid()
      ensures drained == old(queue)[..DrainCount(|old(queue)|, maxElements)]
      ensures queue == old(queue)[DrainCount(|old(queue)|, maxElements)..]
    {
      var n := DrainCount(|queue|, maxElements);
      drained := queue[..n];
      queue := queue[n..];
    }

    /** `append`: offers the event without blocking. An accepted event lands at the tail and leaves the
        flag clear; a refused event leaves the queue as it was and flips the flag, so a refusal while
        the flag is already set clears it. */
    method Append(e: LogEvent)
      requires Valid()
      modifies this`queue, this`queueFull
      ensures Valid()
      ensures |old(queue)| < capacity ==> queue == old(queue) + [e] && !queueFull
      ensures capacity <= |old(queue)| ==> queue == old(queue) && queueFull == !old(queueFull)
    {
      var accepted := Offer(e);
      if !accepted && !queueFull {
        queueFull := true;
      } else if queueFull {
        queueFull := false;
      }
    }

    /** The body of one pass of `flush` after a non-empty drain: assemble the batch, record its last
        timestamp as the high-water mark before sending, send it with the cached token, and take the
        token the answer `outcome` calls for. The batch is then dropped, whatever the answer. */
    method SendDrained(logEvents: seq<LogEvent>, outcome: SendOutcome)
      requires logEvents != []
      modifies this`lastReportedTimestamp, this`sequenceTokenCache, this`sent
      ensures var batch := Assemble(logEvents, old(lastReportedTimestamp));
        && lastReportedTimestamp == Last(batch).timestamp
        && sent == old(sent) + [Request(batch, old(sequenceTokenCache))]
        && sequenceTokenCache == NextToken(outcome, old(sequenceTokenCache))
    {
      var batch := AssembleBatch(logEvents, lastReportedTimestamp);
      lastReportedTimestamp := batch[|batch| - 1].timestamp;
      sent := sent + [Request(batch, sequenceTokenCache)];
      sequenceTokenCache := NextToken(outcome, sequenceTokenCache);
    }

    /** `flush`: with no other producer, empties the queue, and its mark, token and requests are those
        `FlushFrom` gives for the queue it started with; a positive mark never goes down. */
    method Flush(respond: nat -> SendOutcome)
      requires Valid()
      modifies this`queue, this`lastReportedTimestamp, this`sequenceTokenCache, this`sent
      ensures Valid() && queue == []
      ensures var d := FlushFrom(old(queue), drainLimit, old(lastReportedTimestamp), old(sequenceTokenCache), respond, 0);
        lastReportedTimestamp == d.mark && sequenceTokenCache == d.token && sent == old(sent) + d.sent
      ensures 0 < old(lastReportedTimestamp) ==> old(lastReportedTimestamp) <= lastReportedTimestamp
      ensures WaitsBeforeNextFlush() <==> !shutdown
    {
      ghost var goal := FlushFrom(queue, drainLimit, lastReportedTimestamp, sequenceTokenCache, respond, 0);
      ghost var queue0, mark0, token0, log0 := queue, lastReportedTimestamp, sequenceTokenCache, sent;
      ghost var done: seq<Request> := [];
      var k := 0;
      while true
        invariant Valid()
        invariant sent == log0 + done
        invariant var rest := FlushFrom(queue, drainLimit, lastReportedTimestamp, sequenceTokenCache, respond, k);
          goal == FlushResult(rest.mark, rest.token, done + rest.sent)
        decreases |queue|
      {
        ghost var before, mark, token := queue, lastReportedTimestamp, sequenceTokenCache;
        var logEvents := DrainTo(drainLimit);
        var drained := |logEvents|;
        if logEvents == [] {
          assert done + [] == done;
          assert goal == FlushResult(lastReportedTimestamp, sequenceTokenCache, done);
          break;
        }
        FlushStep(goal, done, before, drainLimit, mark, token, respond, k);
        ghost var batch := Assemble(logEvents, mark);
        ghost var rest := FlushFrom(queue, drainLimit, Last(batch).timestamp, NextToken(respond(k), token), respond, k + 1);
        SendDrained(logEvents, respond(k));
        AppendRequest(log0, done, Request(batch, token));
        k := k + 1;
        done := done + [Request(batch, token)];
        assert rest == FlushFrom(queue, drainLimit, lastReportedTimestamp, sequenceTokenCache, respond, k);
        if drained < drainLimit {
          assert queue == [] && rest == FlushResult(lastReportedTimestamp, sequenceTokenCache, []);
          assert done + [] == done;
          assert goal == FlushResult(lastReportedTimestamp, sequenceTokenCache, done);
          break;
        }
      }
      assert sent == log0 + goal.sent;
      if mark0 > 0 {
        FlushMonotone(queue0, drainLimit, mark0, token0, respond, 0);
      }
    }

    /** The tail of the delivery thread (`while (!queue.isEmpty()) flush()`): flushes until the queue is
        empty, which one flush already achieves without other producers. */
    method DrainRemaining(respond: nat -> SendOutcome)
      requires Valid()
      modifies this`queue, this`lastReportedTimestamp, this`sequenceTokenCache, this`sent
      ensures Valid() && queue == []
      ensures var d := FlushFrom(old(queue), drainLimit, old(lastReportedTimestamp), old(sequenceTokenCache), respond, 0);
        lastReportedTimestamp == d.mark && sequenceTokenCache == d.token && sent == old(sent) + d.sent
    {
      while |queue| > 0
        invariant Valid()
        invariant queue != [] ==>
          queue == old(queue) && lastReportedTimestamp == old(lastReportedTimestamp)
          && sequenceTokenCache == old(sequenceTokenCache) && sent == old(sent)
        invariant queue == [] ==>
          var d := FlushFrom(old(queue), drainLimit, old(lastReportedTimestamp), old(sequenceTokenCache), respond, 0);
          lastReportedTimestamp == d.mark && sequenceTokenCache == d.token && sent == old(sent) + d.sent
        decreases |queue|
      {
        Flush(respond);
      }
    }

    /** `close`, on the closing thread: raises the shutdown flag and, if events remain, flushes them. */
    method Close(respond: nat -> SendOutcome)
      requires Valid()
      modifies this`shutdown, this`queue, this`lastReportedTimestamp, this`sequenceTokenCache, this`sent
      ensures Valid() && shutdown && queue == []
      ensures var d := FlushFrom(old(queue), drainLimit, old(lastReportedTimestamp), old(sequenceTokenCache), respond, 0);
        lastReportedTimestamp == d.mark && sequenceTokenCache == d.token && sent == old(sent) + d.sent
    {
      shutdown := true;
      if |queue| > 0 {
        Flush(respond);
      }
    }

    /** After a flush the delivery thread waits for the flush period or a wake-up only when it is not
        shutting down and less than a full drain is queued; otherwise it flushes again at once. */
    predicate WaitsBeforeNextFlush()
      reads this
    {
      !shutdown && |queue| < drainLimit
    }

    /** `createLogGroupAndLogStreamIfNeeded`: creates the group unless a described group has exactly its
        name, then the stream unless a described stream has exactly its name, and returns the upload
        token of the last such stream (none for a created stream). With a null stream name the scan of
        a non-empty stream list throws; with an empty one the stream is created under a null name and
        no token is returned. */
    method CreateLogGroupAndLogStreamIfNeeded(group: string, stream: Option<string>,
                                              describedGroups: Option<seq<LogGroup>>,
                                              describedStreams: Option<seq<LogStream>>)
      returns (outcome: Provisioned)
      modifies this`created
      ensures created == old(created) + Creations(group, stream, describedGroups, describedStreams)
      ensures stream.Some? ==> outcome == Returned(UploadToken(Listed(describedStreams), stream.value))
      ensures stream.None? ==>
        outcome == if Listed(describedStreams) == [] then Returned(None) else NullStreamName
    {
      var createGroup := ShouldCreateLogGroup(group, describedGroups);
      if createGroup {
        created := created + [CreateLogGroup(group)];
      }
      match stream {
        case Some(name) =>
          var createStream, token := InspectLogStreams(name, describedStreams);
          if createStream {
            created := created + [CreateLogStream(group, stream)];
          }
          outcome := Returned(token);
        case None =>
          if Listed(describedStreams) == [] {
            created := created + [CreateLogStream(group, None)];
            outcome := Returned(None);
          } else {
            outcome := NullStreamName;
          }
      }
    }

    /** The part of `activateOptions` that is not client set-up: default the stream name to the
        environment's, then to the instance id, provision, and on return take the token and start the
        delivery thread. An exception from provisioning is caught, so the token stays as it was and no
        thread is started. */
    method ActivateOptions(envLogStreamName: Option<string>, instanceId: Option<string>,
                           describedGroups: Option<seq<LogGroup>>, describedStreams: Option<seq<LogStream>>)
      requires Valid()
      modifies this`logStreamName, this`sequenceTokenCache, this`created, this`deliveryStarted
      ensures Valid()
      ensures logStreamName == FirstPresent([old(logStreamName), envLogStreamName, instanceId])
      ensures created == old(created) + Creations(logGroupName, logStreamName, describedGroups, describedStreams)
      ensures logStreamName.Some? ==>
        && sequenceTokenCache == UploadToken(Listed(describedStreams), logStreamName.value)
        && deliveryStarted
      ensures logStreamName.None? && Listed(describedStreams) == [] ==>
        sequenceTokenCache == None && deliveryStarted
      ensures logStreamName.None? && Listed(describedStreams) != [] ==>
        sequenceTokenCache == old(sequenceTokenCache) && deliveryStarted == old(deliveryStarted)
    {
      FirstOfThree(logStreamName, envLogStreamName, instanceId);
      if logStreamName.None? {
        logStreamName := envLogStreamName;
      }
      if logStreamName.None? {
        logStreamName := instanceId;
      }
      var outcome := CreateLogGroupAndLogStreamIfNeeded(logGroupName, logStreamName, describedGroups, describedStreams);
      if outcome.Returned? {
        sequenceTokenCache := outcome.token;
        deliveryStarted := true;
      }
    }

    /** `getLogGroupName`. */
    function GetLogGroupName(): string
      reads this
    {
      logGroupName
    }

    /** `setLogGroupName`: the getter reads the new name back. */
    method SetLogGroupName(name: string)
      modifies this`logGroupName
      ensures logGroupName == name && GetLogGroupName() == name
    {
      logGroupName := name;
    }

    /** `getLogStreamName`. */
    function GetLogStreamName(): Option<string>
      reads this
    {
      logStreamName
    }

    /** `setLogStreamName`: the getter reads the new name back. */
    method SetLogStreamName(name: Option<string>)
      modifies this`logStreamName
      ensures logStreamName == name && GetLogStreamName() == name
    {
      logStreamName := name;
    }

    /** `setLogStreamFlushPeriodInSeconds`: the milliseconds are computed in 32-bit `int` arithmetic, so
        the getter reads the seconds back exactly when their milliseconds fit in an `int`. */
    method SetLogStreamFlushPeriodInSeconds(seconds: int)
      requires Valid() && IsInt(seconds)
      modifies this`flushPeriodMillis
      ensures Valid() && flushPeriodMillis == Wrap(seconds * 1000)
      ensures -2147483 <= seconds <= 2147483 ==> GetLogStreamFlushPeriodInSeconds() == seconds
    {
      flushPeriodMillis := Wrap(seconds * 1000);
      if -2147483 <= seconds <= 2147483 {
        FlushPeriodRoundTrip(seconds);
      }
    }

    /** `getLogStreamFlushPeriodInSeconds`: the stored milliseconds divided by 1000, truncating, so
        within the seconds whose milliseconds fit in an `int`. */
    function GetLogStreamFlushPeriodInSeconds(): (seconds: int)
      reads this
      ensures IsInt(flushPeriodMillis) ==> -2147483 <= seconds <= 2147483
    {
      Quot(flushPeriodMillis, 1000)
    }

    /** `getAwsRegion`. */
    function GetAwsRegion(): Option<string>
      reads this
    {
      regionName
    }

    /** `setAwsRegion`: the getter reads the new region back. */
    method SetAwsRegion(name: Option<string>)
      modifies this`regionName
      ensures regionName == name && GetAwsRegion() == name
    {
      regionName := name;
    }

    /** `setAwsAccessKey`: stored for client construction, which is not modelled. */
    method SetAwsAccessKey(key: Option<string>)
      modifies this`accessKey
      ensures accessKey == key
    {
      accessKey := key;
    }

    /** `setAwsSecretKey`: stored for client construction, which is not modelled. */
    method SetAwsSecretKey(key: Option<string>)
      modifies this`secretKey
      ensures secretKey == key
    {
      secretKey := key;
    }
  }

  lemma FirstOfThree(a: Option<string>, b: Option<string>, c: Option<string>)
    ensures FirstPresent([a, b, c]) == if a.Some? then a else if b.Some? then b else c
  {
    assert [c][1..] == [];
    assert FirstPresent([c]) == c;
    assert [b, c][1..] == [c];
    assert FirstPresent([b, c]) == if b.Some? then b else c;
    assert [a, b, c][1..] == [b, c];
  }

  /** The flush period read back is the one set, as long as its milliseconds fit in an `int`. */
  lemma FlushPeriodRoundTrip(seconds: int)
    requires -2147483 <= seconds <= 2147483
    ensures Quot(Wrap(seconds * 1000), 1000) == seconds
  {
  }

  /** Beyond that the milliseconds wrap around: 2147484 seconds read back as -2147483. */
  lemma FlushPeriodWraps()
    ensures Quot(Wrap(2147484 * 1000), 1000) == -2147483
  {
  }
}
