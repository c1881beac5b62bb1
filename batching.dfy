/** Batch assembly inside `CloudWatchAppender.flush`: the stable sort by timestamp and the
    raising of a leading run of too-old timestamps to the high-water mark. */
module Batching {
  import opened Events

  /** Places `x` before the first event of `s` that is not older than it, so that `x` stays ahead
      of the events with its own timestamp. */
  function Insert(x: LogEvent, s: seq<LogEvent>): (r: seq<LogEvent>)
    ensures |r| == |s| + 1
  {
    if s == [] || x.timestamp <= s[0].timestamp then [x] + s
    else [s[0]] + Insert(x, s[1..])
  }

  /** `Collections.sort` with the timestamp comparator: a stable sort, modelled as insertion sort. */
  function SortByTimestamp(s: seq<LogEvent>): (r: seq<LogEvent>)
    ensures |r| == |s|
  {
    if s == [] then [] else Insert(s[0], SortByTimestamp(s[1..]))
  }

  lemma SortedCons(a: LogEvent, s: seq<LogEvent>)
    requires Sorted(s) && (s != [] ==> a.timestamp <= s[0].timestamp)
    ensures Sorted([a] + s)
  {
    var r := [a] + s;
    forall i, j | 0 <= i < j < |r| ensures r[i].timestamp <= r[j].timestamp {
      assert r[j] == s[j - 1];
      if i == 0 {
        assert s[0].timestamp <= s[j - 1].timestamp;
      } else {
        assert r[i] == s[i - 1];
      }
    }
  }

  lemma SortedTail(s: seq<LogEvent>)
    requires Sorted(s) && s != []
    ensures Sorted(s[1..])
  {
    var t := s[1..];
    forall i, j | 0 <= i < j < |t| ensures t[i].timestamp <= t[j].timestamp {
      assert t[i] == s[i + 1] && t[j] == s[j + 1];
    }
  }

  lemma {:induction false} InsertSorted(x: LogEvent, s: seq<LogEvent>)
    requires Sorted(s)
    ensures Sorted(Insert(x, s))
    ensures s != [] ==> Insert(x, s)[0] == x || Insert(x, s)[0] == s[0]
  {
    if s == [] || x.timestamp <= s[0].timestamp {
      SortedCons(x, s);
    } else {
      var rest := Insert(x, s[1..]);
      SortedTail(s);
      InsertSorted(x, s[1..]);
      if |s| > 1 {
        assert s[0].timestamp <= s[1].timestamp;
      }
      SortedCons(s[0], rest);
    }
  }

  lemma {:induction false} InsertPermutes(x: LogEvent, s: seq<LogEvent>)
    ensures multiset(Insert(x, s)) == multiset(s) + multiset{x}
  {
    if s == [] || x.timestamp <= s[0].timestamp {
    } else {
      InsertPermutes(x, s[1..]);
      assert s == [s[0]] + s[1..];
    }
  }

  lemma {:induction false} InsertMessages(x: LogEvent, s: seq<LogEvent>)
    ensures multiset(Messages(Insert(x, s))) == multiset(Messages(s)) + multiset{x.message}
  {
    if s == [] || x.timestamp <= s[0].timestamp {
      assert Messages([x] + s) == [x.message] + Messages(s);
    } else {
      var rest := Insert(x, s[1..]);
      InsertMessages(x, s[1..]);
      assert Messages(s) == [s[0].message] + Messages(s[1..]);
      assert Messages([s[0]] + rest) == [s[0].message] + Messages(rest);
    }
  }

  /** The sort orders by timestamp. */
  lemma {:induction false} SortSorted(s: seq<LogEvent>)
    ensures Sorted(SortByTimestamp(s))
  {
    if s != [] {
      SortSorted(s[1..]);
      InsertSorted(s[0], SortByTimestamp(s[1..]));
    }
  }

  /** The sort rearranges the events and nothing else. */
  lemma {:induction false} SortPermutes(s: seq<LogEvent>)
    ensures multiset(SortByTimestamp(s)) == multiset(s)
  {
    if s != [] {
      SortPermutes(s[1..]);
      InsertPermutes(s[0], SortByTimestamp(s[1..]));
      assert s == [s[0]] + s[1..];
    }
  }

  /** Sorting neither loses nor duplicates a message. */
  lemma {:induction false} SortKeepsMessages(s: seq<LogEvent>)
    ensures multiset(Messages(SortByTimestamp(s))) == multiset(Messages(s))
  {
    if s != [] {
      var tail := SortByTimestamp(s[1..]);
      assert SortByTimestamp(s) == Insert(s[0], tail);
      SortKeepsMessages(s[1..]);
      InsertMessages(s[0], tail);
      assert Messages(s) == [s[0].message] + Messages(s[1..]);
    }
  }

  lemma {:induction false} InsertStable(x: LogEvent, s: seq<LogEvent>, t: int)
    ensures WithTimestamp(Insert(x, s), t) == WithTimestamp([x] + s, t)
  {
    if s == [] || x.timestamp <= s[0].timestamp {
    } else {
      var rest := Insert(x, s[1..]);
      InsertStable(x, s[1..], t);
      assert ([s[0]] + rest)[1..] == rest;
      assert ([x] + s)[1..] == s;
      assert ([x] + s[1..])[1..] == s[1..];
    }
  }

  /** The sort is stable: for every timestamp, the events carrying it keep their relative order. */
  lemma {:induction false} SortStable(s: seq<LogEvent>, t: int)
    ensures WithTimestamp(SortByTimestamp(s), t) == WithTimestamp(s, t)
  {
    if s != [] {
      SortStable(s[1..], t);
      InsertStable(s[0], SortByTimestamp(s[1..]), t);
      assert ([s[0]] + SortByTimestamp(s[1..]))[1..] == SortByTimestamp(s[1..]);
    }
  }

  /** The length of the longest prefix of `s` whose timestamps are all below `mark`. */
  function LeadingBelow(s: seq<LogEvent>, mark: int): (n: nat)
    ensures n <= |s|
    ensures forall i :: 0 <= i < n ==> s[i].timestamp < mark
    ensures n < |s| ==> mark <= s[n].timestamp
  {
    if s == [] || mark <= s[0].timestamp then 0 else 1 + LeadingBelow(s[1..], mark)
  }

  /** `s` with its leading run of timestamps below `mark` set to `mark`, and nothing else changed. */
  function Raised(s: seq<LogEvent>, mark: int): seq<LogEvent> {
    var n := LeadingBelow(s, mark);
    seq(|s|, i requires 0 <= i < |s| => if i < n then s[i].(timestamp := mark) else s[i])
  }

  /** The normalization step of a flush pass: it runs only when the high-water mark is positive. */
  function Normalized(s: seq<LogEvent>, mark: int): seq<LogEvent> {
    if mark > 0 then Raised(s, mark) else s
  }

  /** The batch a flush pass hands to the transport for the drained slice `drained`. */
  function Assemble(drained: seq<LogEvent>, mark: int): (batch: seq<LogEvent>)
    ensures |batch| == |drained|
  {
    Normalized(SortByTimestamp(drained), mark)
  }

  /** The `for` loop with `break` of `flush`: walks the sorted batch from the front, raising each
      event older than `mark` to `mark`, and stops at the first event that is not older. */
  method RaiseLeadingTimestamps(events: seq<LogEvent>, mark: int) returns (r: seq<LogEvent>)
    ensures r == Raised(events, mark)
  {
    r := events;
    var i := 0;
    while i < |r|
      invariant 0 <= i <= |r| == |events|
      invariant forall j :: 0 <= j < i ==> events[j].timestamp < mark && r[j] == events[j].(timestamp := mark)
      invariant forall j :: i <= j < |r| ==> r[j] == events[j]
    {
      if r[i].timestamp < mark {
        r := r[i := r[i].(timestamp := mark)];
        i := i + 1;
      } else {
        break;
      }
    }
    assert LeadingBelow(events, mark) == i;
  }

  /** Lines of `flush` between the drain and the send: sort the drained events, then, when the
      high-water mark is positive, raise the leading run below it. */
  method AssembleBatch(logEvents: seq<LogEvent>, lastReportedTimestamp: int) returns (batch: seq<LogEvent>)
    ensures batch == Assemble(logEvents, lastReportedTimestamp)
  {
    batch := SortByTimestamp(logEvents);
    if lastReportedTimestamp > 0 {
      batch := RaiseLeadingTimestamps(batch, lastReportedTimestamp);
    }
  }

  /** What normalization promises: lengths and messages are kept; a non-positive mark changes nothing;
      otherwise exactly the maximal prefix below the mark is set to it. On a sorted batch this is the
      same as raising every timestamp to at least the mark, and the batch stays sorted. */
  lemma NormalizedSpec(s: seq<LogEvent>, mark: int)
    ensures var r := Normalized(s, mark);
      && |r| == |s|
      && Messages(r) == Messages(s)
      && (mark <= 0 ==> r == s)
      && (mark > 0 ==> forall i :: 0 <= i < |s| ==>
            if i < LeadingBelow(s, mark) then s[i].timestamp < mark && r[i].timestamp == mark else r[i] == s[i])
  {
  }

  lemma NormalizedSorted(s: seq<LogEvent>, mark: int)
    requires Sorted(s)
    ensures var r := Normalized(s, mark);
      && Sorted(r)
      && (mark > 0 ==> NoneBefore(r, mark))
      && (mark > 0 ==> forall i :: 0 <= i < |s| ==>
            r[i] == s[i].(timestamp := if s[i].timestamp < mark then mark else s[i].timestamp))
  {
    if mark > 0 {
      var n := LeadingBelow(s, mark);
      var r := Raised(s, mark);
      forall i | n <= i < |s| ensures mark <= s[i].timestamp {
        assert mark <= s[n].timestamp;
      }
    }
  }

  lemma AssembleSorted(drained: seq<LogEvent>, mark: int)
    ensures Sorted(Assemble(drained, mark))
    ensures mark > 0 ==> NoneBefore(Assemble(drained, mark), mark)
  {
    SortSorted(drained);
    NormalizedSorted(SortByTimestamp(drained), mark);
  }

  lemma AssembleMessages(drained: seq<LogEvent>, mark: int)
    ensures multiset(Messages(Assemble(drained, mark))) == multiset(Messages(drained))
  {
    SortKeepsMessages(drained);
    NormalizedSpec(SortByTimestamp(drained), mark);
  }

  lemma SortedLastIsMax(b: seq<LogEvent>)
    requires Sorted(b) && b != []
    ensures forall i :: 0 <= i < |b| ==> b[i].timestamp <= Last(b).timestamp
  {
    forall i | 0 <= i < |b| ensures b[i].timestamp <= Last(b).timestamp {
      if i < |b| - 1 {
        assert b[i].timestamp <= b[|b| - 1].timestamp;
      }
    }
  }

  /** An assembled batch is sorted, holds the drained messages, starts no earlier than a positive mark,
      and its last event carries its largest timestamp. */
  lemma AssembleSpec(drained: seq<LogEvent>, mark: int)
    ensures var b := Assemble(drained, mark);
      && Sorted(b)
      && multiset(Messages(b)) == multiset(Messages(drained))
      && (mark > 0 ==> NoneBefore(b, mark))
      && (b != [] ==> forall i :: 0 <= i < |b| ==> b[i].timestamp <= Last(b).timestamp)
  {
    AssembleSorted(drained, mark);
    AssembleMessages(drained, mark);
    var b := Assemble(drained, mark);
    if b != [] {
      SortedLastIsMax(b);
    }
  }
}
