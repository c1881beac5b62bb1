/** The send side of `CloudWatchAppender.flush`: the transport's possible answers, the sequence-token
    update they cause, and the effect of one whole flush as a function of the queue it starts from. */
module Delivery {
  import opened Wrappers
  import opened Events
  import opened Batching

  /** What a `putLogEvents` call can come back with. The log service is not modelled: a flush is given
      these answers as an oracle. */
  datatype SendOutcome =
    | Accepted(nextSequenceToken: Option<string>)
    | DataAlreadyAccepted(expectedSequenceToken: Option<string>)
    | InvalidSequenceToken(expectedSequenceToken: Option<string>)
    | OtherError

  /** One `PutLogEventsRequest`: the batch and the sequence token it carried. */
  datatype Request = Request(batch: seq<LogEvent>, token: Option<string>)

  /** The state a flush leaves behind and the requests it sent, oldest first. */
  datatype FlushResult = FlushResult(mark: int, token: Option<string>, sent: seq<Request>)

  /** The cached sequence token after a send that carried `token` came back with `outcome`. */
  function NextToken(outcome: SendOutcome, token: Option<string>): Option<string> {
    match outcome
    case Accepted(next) => next
    case DataAlreadyAccepted(expected) => expected
    case InvalidSequenceToken(expected) => expected
    case OtherError => token
  }

  /** The high-water mark once `batch` has been assembled: its last timestamp (an empty drain leaves it). */
  function MarkAfter(batch: seq<LogEvent>, mark: int): int {
    if batch == [] then mark else Last(batch).timestamp
  }

  /** One flush, pass by pass (the `do ... while` loop): drain up to `limit` events, stop on an empty
      drain, assemble and send the batch with the cached token, update mark and token, and go round
      again only when a full `limit` events were drained. `respond(k)` answers the k-th send. */
  function FlushFrom(queue: seq<LogEvent>, limit: nat, mark: int, token: Option<string>,
                     respond: nat -> SendOutcome, k: nat): FlushResult
    requires limit > 0
    decreases |queue|
  {
    if queue == [] then FlushResult(mark, token, [])
    else
      var drained := DrainCount(|queue|, limit);
      var batch := Assemble(queue[..drained], mark);
      var request := Request(batch, token);
      var mark' := Last(batch).timestamp;
      var token' := NextToken(respond(k), token);
      if drained < limit then FlushResult(mark', token', [request])
      else
        var rest := FlushFrom(queue[drained..], limit, mark', token', respond, k + 1);
        FlushResult(rest.mark, rest.token, [request] + rest.sent)
  }

  /** The queue cut into consecutive slices of `limit` events, the last one possibly shorter. */
  function Chunks(queue: seq<LogEvent>, limit: nat): seq<seq<LogEvent>>
    requires limit > 0
    decreases |queue|
  {
    if queue == [] then []
    else if |queue| < limit then [queue]
    else [queue[..limit]] + Chunks(queue[limit..], limit)
  }

  /** The token cached after the `n` answers `respond(k)`, ..., `respond(k + n - 1)`. */
  function TokenAfter(token: Option<string>, respond: nat -> SendOutcome, k: nat, n: nat): Option<string>
    decreases n
  {
    if n == 0 then token else TokenAfter(NextToken(respond(k), token), respond, k + 1, n - 1)
  }

  /** The high-water mark after the first `n` of the requests `sent`. */
  function MarkBefore(sent: seq<Request>, mark: int, n: nat): int
    requires n <= |sent|
    decreases n
  {
    if n == 0 then mark else MarkBefore(sent[1..], MarkAfter(sent[0].batch, mark), n - 1)
  }

  /** All events of the requests `sent`, in sending order. */
  function Batches(sent: seq<Request>): seq<LogEvent> {
    if sent == [] then [] else sent[0].batch + Batches(sent[1..])
  }

  /** How many events a drain of at most `limit` takes from a queue of `size`. */
  function DrainCount(size: nat, limit: nat): nat {
    if size < limit then size else limit
  }

  /** One pass of the flush loop, unfolded: a non-empty queue yields one request, then whatever the
      rest of the queue yields from the updated mark and token (nothing once a short drain emptied it). */
  lemma FlushUnfold(queue: seq<LogEvent>, limit: nat, mark: int, token: Option<string>,
                    respond: nat -> SendOutcome, k: nat)
    requires limit > 0 && queue != []
    ensures var n := DrainCount(|queue|, limit);
            var batch := Assemble(queue[..n], mark);
            var d := FlushFrom(queue, limit, mark, token, respond, k);
            var rest := FlushFrom(queue[n..], limit, Last(batch).timestamp, NextToken(respond(k), token), respond, k + 1);
      && 0 < n <= limit
      && d.sent == [Request(batch, token)] + rest.sent
      && d.mark == rest.mark
      && d.token == rest.token
  {
  }

  /** The loop invariant of `flush` survives one pass: what is still to come from the queue, after the
      requests `done`, stays what the whole flush yields. */
  lemma FlushStep(goal: FlushResult, done: seq<Request>, queue: seq<LogEvent>, limit: nat, mark: int,
                  token: Option<string>, respond: nat -> SendOutcome, k: nat)
    requires limit > 0 && queue != []
    requires var rest := FlushFrom(queue, limit, mark, token, respond, k);
      goal == FlushResult(rest.mark, rest.token, done + rest.sent)
    ensures var n := DrainCount(|queue|, limit);
            var batch := Assemble(queue[..n], mark);
            var rest := FlushFrom(queue[n..], limit, Last(batch).timestamp, NextToken(respond(k), token), respond, k + 1);
      goal == FlushResult(rest.mark, rest.token, (done + [Request(batch, token)]) + rest.sent)
  {
    FlushUnfold(queue, limit, mark, token, respond, k);
    var n := DrainCount(|queue|, limit);
    var batch := Assemble(queue[..n], mark);
    var rest := FlushFrom(queue[n..], limit, Last(batch).timestamp, NextToken(respond(k), token), respond, k + 1);
    assert done + ([Request(batch, token)] + rest.sent) == (done + [Request(batch, token)]) + rest.sent;
  }

  /** The ghost request log grows by one request per pass. */
  lemma AppendRequest(log: seq<Request>, done: seq<Request>, r: Request)
    ensures (log + done) + [r] == log + (done + [r])
  {
  }

  lemma BatchesCons(r: Request, rest: seq<Request>)
    ensures Batches([r] + rest) == r.batch + Batches(rest)
  {
    assert ([r] + rest)[1..] == rest;
  }

  lemma SortedAppend(a: seq<LogEvent>, b: seq<LogEvent>)
    requires Sorted(a) && Sorted(b) && a != [] && NoneBefore(b, Last(a).timestamp)
    ensures Sorted(a + b)
  {
    var ab := a + b;
    forall i, j | 0 <= i < j < |ab| ensures ab[i].timestamp <= ab[j].timestamp {
      if j < |a| {
      } else if i < |a| {
        assert ab[i].timestamp <= Last(a).timestamp;
        assert ab[j] == b[j - |a|];
      } else {
        assert ab[i] == b[i - |a|];
        assert ab[j] == b[j - |a|];
      }
    }
  }

  /** The chunks are consecutive, in FIFO order, cover the queue exactly, each holds between 1 and
      `limit` events and all but the last hold exactly `limit`. */
  lemma {:induction false} ChunksPartition(queue: seq<LogEvent>, limit: nat)
    requires limit > 0
    ensures var cs := Chunks(queue, limit);
      && Flatten(cs) == queue
      && (forall i :: 0 <= i < |cs| ==> 0 < |cs[i]| <= limit)
      && (forall i :: 0 <= i < |cs| - 1 ==> |cs[i]| == limit)
    decreases |queue|
  {
    if queue == [] {
    } else if |queue| < limit {
      assert Flatten([queue]) == queue + Flatten([]);
    } else {
      var rest := Chunks(queue[limit..], limit);
      ChunksPartition(queue[limit..], limit);
      var cs := [queue[..limit]] + rest;
      assert cs[1..] == rest;
      assert queue == queue[..limit] + queue[limit..];
    }
  }

  /** There are ceil(|queue| / limit) chunks: none for an empty queue, otherwise the smallest count
      whose total capacity covers the queue. */
  lemma {:induction false} ChunksCount(queue: seq<LogEvent>, limit: nat)
    requires limit > 0
    ensures var c := |Chunks(queue, limit)|;
      && (queue == [] <==> c == 0)
      && (queue != [] ==> (c - 1) * limit < |queue| <= c * limit)
    decreases |queue|
  {
    if |queue| >= limit {
      var c' := |Chunks(queue[limit..], limit)|;
      ChunksCount(queue[limit..], limit);
      assert |Chunks(queue, limit)| == c' + 1;
      CountStep(c', limit, |queue| - limit);
    }
  }

  lemma CountStep(c: nat, limit: nat, m: nat)
    requires limit > 0
    requires m == 0 <==> c == 0
    requires m != 0 ==> (c - 1) * limit < m <= c * limit
    ensures c * limit < m + limit <= (c + 1) * limit
  {
    assert (c + 1) * limit == c * limit + limit;
    if c > 0 {
      assert (c - 1) * limit == c * limit - limit;
    }
  }

  /** Cutting a non-empty queue takes off one drain's worth of events first. */
  lemma ChunksUnfold(queue: seq<LogEvent>, limit: nat)
    requires limit > 0 && queue != []
    ensures var n := DrainCount(|queue|, limit);
      Chunks(queue, limit) == [queue[..n]] + Chunks(queue[n..], limit)
  {
    if |queue| < limit {
      assert queue[..|queue|] == queue;
      assert queue[|queue|..] == [];
    }
  }

  /** A flush sends one request per chunk. */
  lemma {:induction false} FlushChunkCount(queue: seq<LogEvent>, limit: nat, mark: int, token: Option<string>,
                                           respond: nat -> SendOutcome, k: nat)
    requires limit > 0
    ensures |FlushFrom(queue, limit, mark, token, respond, k).sent| == |Chunks(queue, limit)|
    decreases |queue|
  {
    if queue != [] {
      var n := DrainCount(|queue|, limit);
      var batch := Assemble(queue[..n], mark);
      FlushUnfold(queue, limit, mark, token, respond, k);
      FlushChunkCount(queue[n..], limit, Last(batch).timestamp, NextToken(respond(k), token), respond, k + 1);
      ChunksUnfold(queue, limit);
    }
  }

  lemma {:induction false} FlushRequests(queue: seq<LogEvent>, limit: nat, mark: int, token: Option<string>,
                                         respond: nat -> SendOutcome, k: nat)
    requires limit > 0
    ensures var d := FlushFrom(queue, limit, mark, token, respond, k);
            var cs := Chunks(queue, limit);
      && |d.sent| == |cs|
      && (forall i :: 0 <= i < |cs| ==>
            d.sent[i] == Request(Assemble(cs[i], MarkBefore(d.sent, mark, i)), TokenAfter(token, respond, k, i)))
    decreases |queue|
  {
    FlushChunkCount(queue, limit, mark, token, respond, k);
    if queue != [] {
      var d := FlushFrom(queue, limit, mark, token, respond, k);
      var n := DrainCount(|queue|, limit);
      var batch := Assemble(queue[..n], mark);
      var mark' := Last(batch).timestamp;
      var token' := NextToken(respond(k), token);
      var rest := FlushFrom(queue[n..], limit, mark', token', respond, k + 1);
      FlushUnfold(queue, limit, mark, token, respond, k);
      FlushRequests(queue[n..], limit, mark', token', respond, k + 1);
      ChunksUnfold(queue, limit);
      assert MarkAfter(batch, mark) == mark';
      assert d.sent[1..] == rest.sent;
      var cs := Chunks(queue, limit);
      forall i | 0 < i < |cs|
        ensures d.sent[i] == Request(Assemble(cs[i], MarkBefore(d.sent, mark, i)), TokenAfter(token, respond, k, i))
      {
        assert d.sent[i] == rest.sent[i - 1];
        assert MarkBefore(d.sent, mark, i) == MarkBefore(rest.sent, mark', i - 1);
      }
    }
  }

  lemma {:induction false} FlushLeaves(queue: seq<LogEvent>, limit: nat, mark: int, token: Option<string>,
                                       respond: nat -> SendOutcome, k: nat)
    requires limit > 0
    ensures var d := FlushFrom(queue, limit, mark, token, respond, k);
      && d.mark == MarkBefore(d.sent, mark, |d.sent|)
      && d.token == TokenAfter(token, respond, k, |d.sent|)
    decreases |queue|
  {
    if queue != [] {
      var d := FlushFrom(queue, limit, mark, token, respond, k);
      var n := DrainCount(|queue|, limit);
      var batch := Assemble(queue[..n], mark);
      var mark' := Last(batch).timestamp;
      var token' := NextToken(respond(k), token);
      var rest := FlushFrom(queue[n..], limit, mark', token', respond, k + 1);
      FlushUnfold(queue, limit, mark, token, respond, k);
      FlushLeaves(queue[n..], limit, mark', token', respond, k + 1);
      assert MarkAfter(batch, mark) == mark';
      assert d.sent[1..] == rest.sent;
      assert MarkBefore(d.sent, mark, |d.sent|) == MarkBefore(rest.sent, mark', |rest.sent|);
    }
  }

  /** A flush sends exactly one request per chunk of the queue, in order: the i-th request carries the
      i-th chunk, stably sorted and normalized against the mark left by the request before it, and the
      token left by the i answers before it. Afterwards the mark is that of the last batch and the
      token reflects every answer. So a batch is sent once and never again, whatever its answer. */
  lemma FlushSendsChunks(queue: seq<LogEvent>, limit: nat, mark: int, token: Option<string>,
                         respond: nat -> SendOutcome, k: nat)
    requires limit > 0
    ensures var d := FlushFrom(queue, limit, mark, token, respond, k);
            var cs := Chunks(queue, limit);
      && |d.sent| == |cs|
      && (forall i :: 0 <= i < |cs| ==>
            d.sent[i] == Request(Assemble(cs[i], MarkBefore(d.sent, mark, i)), TokenAfter(token, respond, k, i)))
      && d.mark == MarkBefore(d.sent, mark, |cs|)
      && d.token == TokenAfter(token, respond, k, |cs|)
  {
    FlushRequests(queue, limit, mark, token, respond, k);
    FlushLeaves(queue, limit, mark, token, respond, k);
  }

  /** Reading the token cache after one more answer: the last answer updates what the ones before it left. */
  lemma {:induction false} TokenAfterLast(token: Option<string>, respond: nat -> SendOutcome, k: nat, n: nat)
    ensures TokenAfter(token, respond, k, n + 1) == NextToken(respond(k + n), TokenAfter(token, respond, k, n))
    decreases n
  {
    if n > 0 {
      TokenAfterLast(NextToken(respond(k), token), respond, k + 1, n - 1);
    }
  }

  /** The token a flush of a non-empty queue leaves cached is decided by the answer to its last request:
      the next token of an accepted send, the expected token of a rejected one, and otherwise the token
      that last request carried. */
  lemma FlushTokenFromLastAnswer(queue: seq<LogEvent>, limit: nat, mark: int, token: Option<string>,
                                 respond: nat -> SendOutcome, k: nat)
    requires limit > 0 && queue != []
    ensures var d := FlushFrom(queue, limit, mark, token, respond, k);
            var c := |d.sent|;
            var last := respond(k + c - 1);
      && 0 < c
      && (last.Accepted? ==> d.token == last.nextSequenceToken)
      && (last.DataAlreadyAccepted? ==> d.token == last.expectedSequenceToken)
      && (last.InvalidSequenceToken? ==> d.token == last.expectedSequenceToken)
      && (last.OtherError? ==> d.token == d.sent[c - 1].token)
  {
    var d := FlushFrom(queue, limit, mark, token, respond, k);
    var c := |d.sent|;
    FlushSendsChunks(queue, limit, mark, token, respond, k);
    TokenAfterLast(token, respond, k, c - 1);
    assert d.sent[c - 1].token == TokenAfter(token, respond, k, c - 1);
    assert d.token == NextToken(respond(k + c - 1), d.sent[c - 1].token);
  }

  /** The token the next request carries after a request with token `before` got `answer`: the next
      token of an accepted send, the expected token of either rejection, and `before` after any other
      error. */
  predicate PassesOn(answer: SendOutcome, before: Option<string>, after: Option<string>) {
    && (answer.Accepted? ==> after == answer.nextSequenceToken)
    && (answer.DataAlreadyAccepted? ==> after == answer.expectedSequenceToken)
    && (answer.InvalidSequenceToken? ==> after == answer.expectedSequenceToken)
    && (answer.OtherError? ==> after == before)
  }

  /** Within one flush, each request carries the token the answer to the request before it called for:
      after a rejection, exactly the token the service said it expected. */
  lemma FlushNextRequestToken(queue: seq<LogEvent>, limit: nat, mark: int, token: Option<string>,
                              respond: nat -> SendOutcome, k: nat)
    requires limit > 0
    ensures var sent := FlushFrom(queue, limit, mark, token, respond, k).sent;
      forall i :: 0 <= i < |sent| - 1 ==> PassesOn(respond(k + i), sent[i].token, sent[i + 1].token)
  {
    var sent := FlushFrom(queue, limit, mark, token, respond, k).sent;
    FlushRequests(queue, limit, mark, token, respond, k);
    forall i | 0 <= i < |sent| - 1
      ensures PassesOn(respond(k + i), sent[i].token, sent[i + 1].token)
    {
      TokenAfterLast(token, respond, k, i);
      assert sent[i].token == TokenAfter(token, respond, k, i);
      assert sent[i + 1].token == TokenAfter(token, respond, k, i + 1);
    }
  }

  /** A flush sends ceil(|queue| / limit) requests: none for an empty queue, otherwise the fewest
      whose `limit`-sized batches cover the queue. */
  lemma FlushBatchCount(queue: seq<LogEvent>, limit: nat, mark: int, token: Option<string>,
                        respond: nat -> SendOutcome, k: nat)
    requires limit > 0
    ensures var c := |FlushFrom(queue, limit, mark, token, respond, k).sent|;
      && (queue == [] <==> c == 0)
      && (queue != [] ==> (c - 1) * limit < |queue| <= c * limit)
  {
    FlushSendsChunks(queue, limit, mark, token, respond, k);
    ChunksCount(queue, limit);
  }

  /** Every request a flush sends holds between 1 and `limit` events, sorted by timestamp, whose
      messages are those of the matching chunk of the queue. */
  lemma FlushBatchShape(queue: seq<LogEvent>, limit: nat, mark: int, token: Option<string>,
                        respond: nat -> SendOutcome, k: nat)
    requires limit > 0
    ensures var sent := FlushFrom(queue, limit, mark, token, respond, k).sent;
            var cs := Chunks(queue, limit);
      && |sent| == |cs|
      && forall i :: 0 <= i < |sent| ==>
           && 0 < |sent[i].batch| <= limit
           && Sorted(sent[i].batch)
           && multiset(Messages(sent[i].batch)) == multiset(Messages(cs[i]))
  {
    var sent := FlushFrom(queue, limit, mark, token, respond, k).sent;
    var cs := Chunks(queue, limit);
    FlushSendsChunks(queue, limit, mark, token, respond, k);
    ChunksPartition(queue, limit);
    forall i | 0 <= i < |sent|
      ensures 0 < |sent[i].batch| <= limit
      ensures Sorted(sent[i].batch) && multiset(Messages(sent[i].batch)) == multiset(Messages(cs[i]))
    {
      var m := MarkBefore(sent, mark, i);
      assert sent[i].batch == Assemble(cs[i], m);
      AssembleSpec(cs[i], m);
    }
  }

  /** With a positive mark to start from, everything a flush sends, read across all its batches, is in
      timestamp order and no older than that mark, and the mark it leaves is the last timestamp sent,
      so it never decreases. */
  lemma {:induction false} FlushMonotone(queue: seq<LogEvent>, limit: nat, mark: int, token: Option<string>,
                                         respond: nat -> SendOutcome, k: nat)
    requires limit > 0 && mark > 0
    ensures var d := FlushFrom(queue, limit, mark, token, respond, k);
      && Sorted(Batches(d.sent))
      && NoneBefore(Batches(d.sent), mark)
      && mark <= d.mark
      && (d.sent != [] ==> Batches(d.sent) != [] && d.mark == Last(Batches(d.sent)).timestamp)
    decreases |queue|
  {
    if queue != [] {
      var d := FlushFrom(queue, limit, mark, token, respond, k);
      var n := DrainCount(|queue|, limit);
      var batch := Assemble(queue[..n], mark);
      var mark' := Last(batch).timestamp;
      var token' := NextToken(respond(k), token);
      var rest := FlushFrom(queue[n..], limit, mark', token', respond, k + 1);
      FlushUnfold(queue, limit, mark, token, respond, k);
      AssembleSpec(queue[..n], mark);
      assert mark <= mark';
      FlushMonotone(queue[n..], limit, mark', token', respond, k + 1);
      BatchesCons(Request(batch, token), rest.sent);
      var all := Batches(d.sent);
      var later := Batches(rest.sent);
      assert all == batch + later;
      SortedAppend(batch, later);
      if rest.sent != [] {
        assert Last(all) == Last(later);
      } else {
        assert later == [];
        assert all == batch;
      }
    }
  }

  /** No message is lost or duplicated: the batches of a flush hold exactly the queue's messages. */
  lemma {:induction false} FlushConservesMessages(queue: seq<LogEvent>, limit: nat, mark: int, token: Option<string>,
                                                  respond: nat -> SendOutcome, k: nat)
    requires limit > 0
    ensures multiset(Messages(Batches(FlushFrom(queue, limit, mark, token, respond, k).sent)))
         == multiset(Messages(queue))
    decreases |queue|
  {
    if queue != [] {
      var d := FlushFrom(queue, limit, mark, token, respond, k);
      var n := DrainCount(|queue|, limit);
      var batch := Assemble(queue[..n], mark);
      var mark' := Last(batch).timestamp;
      var token' := NextToken(respond(k), token);
      var rest := FlushFrom(queue[n..], limit, mark', token', respond, k + 1);
      FlushUnfold(queue, limit, mark, token, respond, k);
      AssembleSpec(queue[..n], mark);
      FlushConservesMessages(queue[n..], limit, mark', token', respond, k + 1);
      assert queue == queue[..n] + queue[n..];
      MessagesAppend(queue[..n], queue[n..]);
      BatchesCons(Request(batch, token), rest.sent);
      MessagesAppend(batch, Batches(rest.sent));
    }
  }
}
