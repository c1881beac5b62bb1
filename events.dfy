/** The log event the appender queues and ships, and the orderings the delivery engine relies on. */
module Events {

  /** An `InputLogEvent`: the event's time in milliseconds since the epoch and its formatted message.
      The engine only compares and copies timestamps, so the 64-bit range of a Java `long` plays no role. */
  datatype LogEvent = LogEvent(timestamp: int, message: string)

  /** Timestamps never decrease from left to right. */
  predicate Sorted(s: seq<LogEvent>) {
    forall i, j :: 0 <= i < j < |s| ==> s[i].timestamp <= s[j].timestamp
  }

  /** No event of `s` is older than `t`. */
  predicate NoneBefore(s: seq<LogEvent>, t: int) {
    forall i :: 0 <= i < |s| ==> t <= s[i].timestamp
  }

  /** The messages of `s`, in order. */
  function Messages(s: seq<LogEvent>): seq<string> {
    seq(|s|, i requires 0 <= i < |s| => s[i].message)
  }

  /** The events of `s` that carry timestamp `t`, in their order in `s`; two sequences with the same
      such sub-sequence for every `t` agree on the relative order of equal-timestamp events. */
  function WithTimestamp(s: seq<LogEvent>, t: int): seq<LogEvent> {
    if s == [] then [] else (if s[0].timestamp == t then [s[0]] else []) + WithTimestamp(s[1..], t)
  }

  function Last(s: seq<LogEvent>): LogEvent
    requires s != []
  {
    s[|s| - 1]
  }

  /** The concatenation of consecutive slices. */
  function Flatten(ss: seq<seq<LogEvent>>): seq<LogEvent> {
    if ss == [] then [] else ss[0] + Flatten(ss[1..])
  }

  lemma MessagesAppend(a: seq<LogEvent>, b: seq<LogEvent>)
    ensures Messages(a + b) == Messages(a) + Messages(b)
  {
  }
}
