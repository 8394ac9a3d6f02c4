/** Mirroring one instance's output from CloudWatch Logs, shared by both
    variants: `Stream` starts one reader for the instance's stdout stream and
    one for its stderr stream, and each reader (`streamFromCloudwatch`) pages
    its stream with a continuation token. The copies of this code in
    lib/Invocation.go and lib/cloudwatch.go are identical.

    The reader's endless loop is modelled over a finite script of backend
    replies, one per `GetLogEvents` call; running out of script ends the model,
    not the reader. What the reader writes is modelled as the sequence of lines
    and flushes it hands its logstreamer. */
module Logs {
  import opened Outcomes
  import opened Text

  const ShellPlugin := "aws-runShellScript"
  const ResourceNotFound := "ResourceNotFoundException"

  /** The CloudWatch stream SSM mirrors one output channel of an instance to. */
  function StreamName(commandId: string, instanceId: string, channel: string): string
  {
    commandId + "/" + instanceId + "/" + ShellPlugin + "/" + channel
  }

  /** A stream name splits back into its command, instance, plugin and channel. */
  lemma StreamNameParts(commandId: string, instanceId: string, channel: string)
    requires '/' !in commandId && '/' !in instanceId && '/' !in channel
    ensures Split(StreamName(commandId, instanceId, channel), '/') == [commandId, instanceId, ShellPlugin, channel]
  {
    var parts := [commandId, instanceId, ShellPlugin, channel];
    assert Join(parts, "/") == StreamName(commandId, instanceId, channel) by {
      assert parts[1..][1..][1..] == [channel];
      assert Join(parts[1..][1..], "/") == ShellPlugin + "/" + channel;
      assert Join(parts[1..], "/") == instanceId + "/" + (ShellPlugin + "/" + channel);
    }
    SplitJoin(parts, '/');
  }

  /** One reader started by `Stream`: the log group, the stream, and the tag
      its logstreamer puts on each line. */
  datatype Reader = Reader(logGroup: string, logStream: string, prefix: string)

  /** The stdout and stderr streams of one instance are different streams. */
  lemma ChannelsDiffer(commandId: string, instanceId: string)
    ensures StreamName(commandId, instanceId, "stdout") != StreamName(commandId, instanceId, "stderr")
  {
    var out := StreamName(commandId, instanceId, "stdout");
    var err := StreamName(commandId, instanceId, "stderr");
    assert |out| == |err|;
    assert out[|out| - 1] == 't' && err[|err| - 1] == 'r';
  }

  /** The two readers `Stream` starts for an instance. */
  function Readers(logGroup: string, commandId: string, instanceId: string): (readers: seq<Reader>)
    ensures |readers| == 2
  {
    [Reader(logGroup, StreamName(commandId, instanceId, "stdout"), "stdout"),
     Reader(logGroup, StreamName(commandId, instanceId, "stderr"), "stderr")]
  }

  /** The two readers are stdout then stderr, both on the given log group;
      each reads the stream of its own channel, so the two never read the
      same stream. */
  lemma ReaderChannels(logGroup: string, commandId: string, instanceId: string)
    ensures var readers := Readers(logGroup, commandId, instanceId);
            && readers[0].prefix == "stdout" && readers[1].prefix == "stderr"
            && readers[0].logGroup == logGroup && readers[1].logGroup == logGroup
            && readers[0].logStream == StreamName(commandId, instanceId, "stdout")
            && readers[1].logStream == StreamName(commandId, instanceId, "stderr")
            && readers[0].logStream != readers[1].logStream
  {
    ChannelsDiffer(commandId, instanceId);
  }

  /** Each reader's stream name splits back into the command, the instance,
      the plugin and the reader's own channel. */
  lemma ReaderStreams(logGroup: string, commandId: string, instanceId: string)
    requires '/' !in commandId && '/' !in instanceId
    ensures var readers := Readers(logGroup, commandId, instanceId);
            && Split(readers[0].logStream, '/') == [commandId, instanceId, ShellPlugin, "stdout"]
            && Split(readers[1].logStream, '/') == [commandId, instanceId, ShellPlugin, "stderr"]
  {
    StreamNameParts(commandId, instanceId, "stdout");
    StreamNameParts(commandId, instanceId, "stderr");
  }

  /** A `cloudwatchlogs.GetLogEventsInput`. */
  datatype GetLogEventsInput = GetLogEventsInput(startFromHead: bool, logGroupName: string,
                                                 logStreamName: string, nextToken: Option<string>)

  /** What one `GetLogEvents` call returns: a page of event messages with the
      forward token (nil or not), an AWS error with its code, or an error that
      is not an AWS error. */
  datatype LogReply =
    | Page(messages: seq<string>, nextForwardToken: Option<string>)
    | AwsError(code: string)
    | OtherError(message: string)

  /** What a reader hands its logstreamer. */
  datatype Emission = Line(text: string) | Flush

  /** How a reader's run ends in the model: the script ran out while the reader
      was still paging; `log.Fatal` on an error that is not an AWS error; or a
      nil dereference of the missing page after an AWS error other than
      ResourceNotFoundException. */
  datatype ReaderEnd = ScriptExhausted | Fatal(message: string) | NilDereference

  /** The replies after which the reader goes on paging. */
  predicate Continues(reply: LogReply)
  {
    reply.Page? || reply == AwsError(ResourceNotFound)
  }

  /** The `NextToken` of a request: attached only when the stored token is not
      empty. */
  function TokenParam(token: string): Option<string>
  {
    if token == "" then None else Some(token)
  }

  function RequestFor(logGroup: string, logStream: string, token: string): GetLogEventsInput
  {
    GetLogEventsInput(true, logGroup, logStream, TokenParam(token))
  }

  /** The stored token after the given replies: a page with a forward token
      replaces it, anything else leaves it alone. */
  function TokenAfter(replies: seq<LogReply>): (token: string)
  {
    if |replies| == 0 then ""
    else
      var last := replies[|replies| - 1];
      if CarriesToken(last) then last.nextForwardToken.value
      else TokenAfter(replies[..|replies| - 1])
  }

  function Lines(messages: seq<string>): seq<Emission>
  {
    seq(|messages|, i requires 0 <= i < |messages| => Line(messages[i]))
  }

  /** What the reader writes for the given replies: each page's messages, then
      a flush. */
  function Output(replies: seq<LogReply>): seq<Emission>
  {
    if |replies| == 0 then []
    else
      var last := replies[|replies| - 1];
      Output(replies[..|replies| - 1]) + (if last.Page? then Lines(last.messages) + [Flush] else [])
  }

  function EndFor(reply: LogReply): ReaderEnd
  {
    match reply
    case OtherError(m) => Fatal(m)
    case _ => if Continues(reply) then ScriptExhausted else NilDereference
  }

  /** Request `k` carries the token stored after the first `k` replies. */
  predicate RequestsFollow(logGroup: string, logStream: string, replies: seq<LogReply>, requests: seq<GetLogEventsInput>)
  {
    |requests| <= |replies| &&
    forall k :: 0 <= k < |requests| ==> requests[k] == RequestFor(logGroup, logStream, TokenAfter(replies[..k]))
  }

  /** Every one of the first `n` replies lets the reader go on. */
  predicate ContinuesThrough(replies: seq<LogReply>, n: nat)
    requires n <= |replies|
  {
    forall k :: 0 <= k < n ==> Continues(replies[k])
  }

  lemma RequestsExtend(logGroup: string, logStream: string, replies: seq<LogReply>,
                       requests: seq<GetLogEventsInput>)
    requires RequestsFollow(logGroup, logStream, replies, requests) && |requests| < |replies|
    ensures RequestsFollow(logGroup, logStream, replies,
                           requests + [RequestFor(logGroup, logStream, TokenAfter(replies[..|requests|]))])
  {
  }

  lemma ContinuesExtend(replies: seq<LogReply>, n: nat)
    requires n < |replies| && ContinuesThrough(replies, n) && Continues(replies[n])
    ensures ContinuesThrough(replies, n + 1)
  {
  }

  /** The token and the output after one more reply. */
  lemma ReplyStep(replies: seq<LogReply>, i: nat)
    requires i < |replies|
    ensures var r := replies[i];
            && TokenAfter(replies[..i + 1]) ==
                 (if r.Page? && r.nextForwardToken.Some? then r.nextForwardToken.value else TokenAfter(replies[..i]))
            && Output(replies[..i + 1]) == Output(replies[..i]) + (if r.Page? then Lines(r.messages) + [Flush] else [])
  {
    assert replies[..i + 1][..i] == replies[..i];
  }

  /** The loop over a page's events: one line per message, in order. */
  method WriteEvents(output: seq<Emission>, messages: seq<string>) returns (written: seq<Emission>)
    ensures written == output + Lines(messages)
  {
    written := output;
    var j := 0;
    while j < |messages|
      invariant 0 <= j <= |messages|
      invariant written == output + Lines(messages[..j])
    {
      written := written + [Line(messages[j])];
      assert Lines(messages[..j + 1]) == Lines(messages[..j]) + [Line(messages[j])];
      j := j + 1;
    }
    assert messages[..j] == messages;
  }

  /** `streamFromCloudwatch` over a script of replies. Request `k` carries the
      token stored after the first `k` replies; a failing reply stops the
      reader after writing what the earlier replies produced. */
  method StreamFromCloudwatch(logGroup: string, logStream: string, replies: seq<LogReply>)
    returns (requests: seq<GetLogEventsInput>, output: seq<Emission>, end: ReaderEnd)
    ensures |requests| <= |replies|
    ensures forall k :: 0 <= k < |requests| ==> requests[k] == RequestFor(logGroup, logStream, TokenAfter(replies[..k]))
    ensures end.ScriptExhausted? <==> |requests| == |replies| && forall k :: 0 <= k < |replies| ==> Continues(replies[k])
    ensures end.ScriptExhausted? ==> output == Output(replies)
    ensures !end.ScriptExhausted? ==>
              && 1 <= |requests|
              && (forall k :: 0 <= k < |requests| - 1 ==> Continues(replies[k]))
              && end == EndFor(replies[|requests| - 1])
              && output == Output(replies[..|requests| - 1])
  {
    var nextToken := "";
    requests, output := [], [];
    var i := 0;
    while i < |replies|
      invariant 0 <= i <= |replies| && |requests| == i
      invariant RequestsFollow(logGroup, logStream, replies, requests) && ContinuesThrough(replies, i)
      invariant nextToken == TokenAfter(replies[..i]) && output == Output(replies[..i])
    {
      var input := GetLogEventsInput(true, logGroup, logStream, None);
      if nextToken != "" {
        input := input.(nextToken := Some(nextToken));
      }
      assert input == RequestFor(logGroup, logStream, nextToken);
      RequestsExtend(logGroup, logStream, replies, requests);
      requests := requests + [input];
      var reply := replies[i];
      ReplyStep(replies, i);
      if reply.AwsError? && reply.code == ResourceNotFound {
        // the 5-second back-off is not modelled
        ContinuesExtend(replies, i);
        i := i + 1;
        continue;
      } else if reply.AwsError? {
        return requests, output, NilDereference;
      } else if reply.OtherError? {
        return requests, output, Fatal(reply.message);
      }
      output := WriteEvents(output, reply.messages);
      if reply.nextForwardToken.Some? {
        nextToken := reply.nextForwardToken.value;
      }
      output := output + [Flush];
      ContinuesExtend(replies, i);
      i := i + 1;
    }
    assert replies[..i] == replies;
    return requests, output, ScriptExhausted;
  }

  /** A forward token is handed on: when reply `k` is a page whose forward
      token is not empty, request `k + 1` carries exactly that token. */
  lemma TokenHandoff(logGroup: string, logStream: string, replies: seq<LogReply>, k: nat, token: string)
    requires k < |replies| && replies[k].Page? && replies[k].nextForwardToken == Some(token) && token != ""
    ensures RequestFor(logGroup, logStream, TokenAfter(replies[..k + 1])).nextToken == Some(token)
  {
    assert replies[..k + 1][k] == replies[k];
  }

  /** ResourceNotFoundException moves nothing: the same token is sent again
      and nothing is written. */
  lemma NotFoundKeepsPosition(replies: seq<LogReply>)
    ensures TokenAfter(replies + [AwsError(ResourceNotFound)]) == TokenAfter(replies)
    ensures Output(replies + [AwsError(ResourceNotFound)]) == Output(replies)
  {
    assert (replies + [AwsError(ResourceNotFound)])[..|replies|] == replies;
  }

  /** A reply that hands the reader a forward token. */
  predicate CarriesToken(reply: LogReply)
  {
    reply.Page? && reply.nextForwardToken.Some?
  }

  /** The stored token is the forward token of the latest page that carried
      one, and empty when no page did. */
  lemma {:induction false} TokenIsLatest(replies: seq<LogReply>)
    ensures (forall k :: 0 <= k < |replies| ==> !CarriesToken(replies[k])) ==> TokenAfter(replies) == ""
    ensures forall k :: 0 <= k < |replies| && CarriesToken(replies[k]) &&
                        (forall j :: k < j < |replies| ==> !CarriesToken(replies[j])) ==>
                          TokenAfter(replies) == replies[k].nextForwardToken.value
  {
    if |replies| > 0 {
      var n := |replies| - 1;
      var init := replies[..n];
      if !CarriesToken(replies[n]) {
        TokenIsLatest(init);
        assert forall k :: 0 <= k < n ==> init[k] == replies[k];
      }
    }
  }

  /** The text of the written lines, flushes left out. */
  function LineTexts(output: seq<Emission>): seq<string>
  {
    if |output| == 0 then []
    else LineTexts(output[..|output| - 1]) + (if output[|output| - 1].Line? then [output[|output| - 1].text] else [])
  }

  function Flushes(output: seq<Emission>): nat
  {
    if |output| == 0 then 0
    else Flushes(output[..|output| - 1]) + (if output[|output| - 1].Flush? then 1 else 0)
  }

  /** Every message of every page, in page order. */
  function AllMessages(replies: seq<LogReply>): seq<string>
  {
    if |replies| == 0 then []
    else
      var last := replies[|replies| - 1];
      AllMessages(replies[..|replies| - 1]) + (if last.Page? then last.messages else [])
  }

  function PageCount(replies: seq<LogReply>): nat
  {
    if |replies| == 0 then 0
    else PageCount(replies[..|replies| - 1]) + (if replies[|replies| - 1].Page? then 1 else 0)
  }

  lemma {:induction false} TextAppend(a: seq<Emission>, b: seq<Emission>)
    ensures LineTexts(a + b) == LineTexts(a) + LineTexts(b) && Flushes(a + b) == Flushes(a) + Flushes(b)
    decreases |b|
  {
    if |b| == 0 {
      assert a + b == a;
    } else {
      var n := |b| - 1;
      assert (a + b)[..|a + b| - 1] == a + b[..n];
      TextAppend(a, b[..n]);
    }
  }

  lemma {:induction false} TextOfLines(messages: seq<string>)
    ensures LineTexts(Lines(messages)) == messages && Flushes(Lines(messages)) == 0
    decreases |messages|
  {
    if |messages| > 0 {
      var n := |messages| - 1;
      assert Lines(messages)[..n] == Lines(messages[..n]);
      TextOfLines(messages[..n]);
    }
  }

  /** Writing one page after some output adds its messages and one flush. */
  lemma PageStep(before: seq<Emission>, messages: seq<string>)
    ensures LineTexts(before + (Lines(messages) + [Flush])) == LineTexts(before) + messages
    ensures Flushes(before + (Lines(messages) + [Flush])) == Flushes(before) + 1
  {
    TextOfLines(messages);
    TextAppend(Lines(messages), [Flush]);
    TextAppend(before, Lines(messages) + [Flush]);
    assert LineTexts([Flush]) == [] && Flushes([Flush]) == 1 by {
      assert [Flush][..0] == [];
    }
  }

  /** Each message of each page is written exactly once, in page order, and
      every page ends with exactly one flush. */
  lemma {:induction false} OutputIsPages(replies: seq<LogReply>)
    ensures LineTexts(Output(replies)) == AllMessages(replies)
    ensures Flushes(Output(replies)) == PageCount(replies)
  {
    if |replies| > 0 {
      var n := |replies| - 1;
      var last := replies[n];
      OutputIsPages(replies[..n]);
      if last.Page? {
        assert Output(replies) == Output(replies[..n]) + (Lines(last.messages) + [Flush]);
        assert AllMessages(replies) == AllMessages(replies[..n]) + last.messages;
        PageStep(Output(replies[..n]), last.messages);
      } else {
        assert Output(replies) == Output(replies[..n]);
        assert AllMessages(replies) == AllMessages(replies[..n]);
      }
    }
  }
}
