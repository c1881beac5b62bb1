/** The decisions of `createLogGroupAndLogStreamIfNeeded` and of the stream-name default in
    `activateOptions`, over the lists the log service describes. The describe and create calls
    themselves are not modelled; a described list that is absent (a null result or a null list)
    is `None`. */
module Provisioning {
  import opened Wrappers

  /** A described log group and a described log stream, with only the fields the decisions read. */
  datatype LogGroup = LogGroup(logGroupName: Option<string>)
  datatype LogStream = LogStream(logStreamName: Option<string>, uploadSequenceToken: Option<string>)

  /** The described list, an absent one read as empty. */
  function Listed<T>(described: Option<seq<T>>): seq<T> {
    match described
    case None => []
    case Some(items) => items
  }

  /** Some described group is named exactly `name`. */
  predicate NamesGroup(groups: seq<LogGroup>, name: string) {
    exists i :: 0 <= i < |groups| && groups[i].logGroupName == Some(name)
  }

  /** The position of the last described stream named exactly `name`, if any. */
  function LastMatch(streams: seq<LogStream>, name: string): (r: Option<nat>)
    ensures r.None? <==> forall i :: 0 <= i < |streams| ==> streams[i].logStreamName != Some(name)
    ensures r.Some? ==> r.value < |streams| && streams[r.value].logStreamName == Some(name)
    ensures r.Some? ==> forall j :: r.value < j < |streams| ==> streams[j].logStreamName != Some(name)
  {
    if streams == [] then None
    else if streams[|streams| - 1].logStreamName == Some(name) then Some(|streams| - 1)
    else LastMatch(streams[..|streams| - 1], name)
  }

  /** The upload token of the last stream named exactly `name`; none when no stream is. */
  function UploadToken(streams: seq<LogStream>, name: string): Option<string> {
    match LastMatch(streams, name)
    case None => None
    case Some(i) => streams[i].uploadSequenceToken
  }

  /** The group scan: the group is to be created unless a described group has exactly its name
      (the scan stops at the first one). */
  method ShouldCreateLogGroup(logGroupName: string, described: Option<seq<LogGroup>>) returns (create: bool)
    ensures create <==> !NamesGroup(Listed(described), logGroupName)
  {
    create := true;
    if described.Some? && |described.value| > 0 {
      var groups := described.value;
      var i := 0;
      while i < |groups|
        invariant 0 <= i <= |groups|
        invariant forall j :: 0 <= j < i ==> groups[j].logGroupName != Some(logGroupName)
      {
        if groups[i].logGroupName == Some(logGroupName) {
          create := false;
          break;
        }
        i := i + 1;
      }
    }
  }

  /** The stream scan: the stream is to be created unless a described stream has exactly its name;
      the scan does not stop, so the token kept is that of the last such stream. */
  method InspectLogStreams(logStreamName: string, described: Option<seq<LogStream>>)
    returns (create: bool, token: Option<string>)
    ensures create <==> forall i :: 0 <= i < |Listed(described)| ==> Listed(described)[i].logStreamName != Some(logStreamName)
    ensures token == UploadToken(Listed(described), logStreamName)
    ensures create ==> token == None
  {
    token := None;
    create := true;
    if described.Some? && |described.value| > 0 {
      var streams := described.value;
      for i := 0 to |streams|
        invariant create <==> LastMatch(streams[..i], logStreamName).None?
        invariant token == UploadToken(streams[..i], logStreamName)
      {
        assert streams[..i + 1][..i] == streams[..i];
        if streams[i].logStreamName == Some(logStreamName) {
          create := false;
          token := streams[i].uploadSequenceToken;
        }
      }
      assert streams[..|streams|] == streams;
    }
    assert create <==> LastMatch(Listed(described), logStreamName).None?;
  }

  /** The first present candidate: `activateOptions` takes the configured stream name, else the
      environment's, else the instance id. */
  function FirstPresent(candidates: seq<Option<string>>): (r: Option<string>)
    ensures r.None? <==> forall i :: 0 <= i < |candidates| ==> candidates[i].None?
    ensures r.Some? ==> exists i :: 0 <= i < |candidates| && candidates[i] == r
                                    && forall j :: 0 <= j < i ==> candidates[j].None?
  {
    if candidates == [] then None
    else if candidates[0].Some? then candidates[0]
    else
      var r := FirstPresent(candidates[1..]);
      assert r.Some? ==> exists i :: 1 <= i < |candidates| && candidates[i] == r
                                     && forall j :: 0 <= j < i ==> candidates[j].None? by {
        if r.Some? {
          var i' :| 0 <= i' < |candidates[1..]| && candidates[1..][i'] == r
                    && forall j :: 0 <= j < i' ==> candidates[1..][j].None?;
          assert candidates[i' + 1] == r;
          assert forall j :: 0 <= j < i' + 1 ==> candidates[j].None?;
        }
      }
      r
  }
}
