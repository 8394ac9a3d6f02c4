/** The poll-loop variant of the tool (lib/Command.go, lib/Invocations.go and
    lib/Invocation.go): `Run` submits the command once, then polls the
    command's status and its per-instance invocations, starts the log readers
    of every invocation it has not started yet, and leaves the loop once every
    invocation has completed and the command reports it is done. The exit code
    is 1 when some invocation did not succeed.

    The backend is given to the model as values: `DescribeInstances` and
    `SendCommand` as functions of their requests, and the replies to the
    repeated `ListCommands` and `ListCommandInvocations` polls as finite
    scripts, consumed one reply per call. */
module PollLoop {
  import opened Outcomes
  import opened Selectors
  import opened Selection
  import opened Ssm
  import Logs

  const NotYetExecuted := "command not yet executed"

  function StatusUpdateFailed(error: string): string
  {
    "unable to update command invocation status: " + error
  }

  /** What the model reports when `UpdateInvocationList` reads the output of a
      `ListCommandInvocations` call that failed and returned none. */
  const MissingListing := "nil ListCommandInvocations output"

  /** An entry of the invocation map: whether its log readers were started,
      and the latest listing of the instance's invocation. */
  datatype Invocation = Invocation(streaming: bool, commandInvocation: CommandInvocation)

  /** The four statuses `areDone` counts as completed. */
  predicate Completed(status: string)
  {
    status == Cancelled || status == Failed || status == Success || status == TimedOut
  }

  predicate AllCompleted(invocations: map<string, Invocation>)
  {
    forall id :: id in invocations ==> Completed(invocations[id].commandInvocation.status)
  }

  /** `Invocations.areDone`: counts the completed entries and compares the count
      with the number of entries. */
  method AreDone(invocations: map<string, Invocation>) returns (done: bool)
    ensures done <==> AllCompleted(invocations)
  {
    var completedCount := 0;
    var rest := invocations.Keys;
    ghost var counted: set<string> := {};
    while rest != {}
      invariant rest <= invocations.Keys && counted <= invocations.Keys - rest
      invariant forall id :: id in invocations.Keys - rest ==>
                  (id in counted <==> Completed(invocations[id].commandInvocation.status))
      invariant completedCount == |counted|
      decreases |rest|
    {
      var id :| id in rest;
      var status := invocations[id].commandInvocation.status;
      if status == Pending || status == InProgress || status == Delayed || status == Cancelling {
        // still running: not counted
      } else if status == Cancelled || status == Failed || status == Success || status == TimedOut {
        completedCount := completedCount + 1;
        counted := counted + {id};
      }
      rest := rest - {id};
    }
    done := |invocations| == completedCount;
    if AllCompleted(invocations) {
      assert counted == invocations.Keys;
    } else {
      var id :| id in invocations && !Completed(invocations[id].commandInvocation.status);
      assert |invocations.Keys| == |counted| + |invocations.Keys - counted|;
      assert id in invocations.Keys - counted;
    }
  }

  /** The invocation map after `UpdateInvocationList` has walked the listed
      invocations: each is recorded under its instance ID, a new entry starts
      not streaming, an existing entry keeps its flag. */
  function Merge(invocations: map<string, Invocation>, listed: seq<CommandInvocation>): map<string, Invocation>
  {
    if |listed| == 0 then invocations
    else
      var m := Merge(invocations, listed[..|listed| - 1]);
      var latest := listed[|listed| - 1];
      var streaming := latest.instanceId in m && m[latest.instanceId].streaming;
      m[latest.instanceId := Invocation(streaming, latest)]
  }

  function ListedIds(listed: seq<CommandInvocation>): set<string>
  {
    set k | 0 <= k < |listed| :: listed[k].instanceId
  }

  /** No entry is ever removed, every listed instance gets an entry, and each
      entry's `streaming` flag is the one it had, or false for a new entry. */
  lemma {:induction false} MergeKeepsEntries(invocations: map<string, Invocation>, listed: seq<CommandInvocation>)
    ensures Merge(invocations, listed).Keys == invocations.Keys + ListedIds(listed)
    ensures forall id :: id in Merge(invocations, listed) ==>
              Merge(invocations, listed)[id].streaming == (id in invocations && invocations[id].streaming)
  {
    if |listed| > 0 {
      var n := |listed| - 1;
      MergeKeepsEntries(invocations, listed[..n]);
      assert ListedIds(listed) == ListedIds(listed[..n]) + {listed[n].instanceId} by {
        forall id | id in ListedIds(listed)
          ensures id in ListedIds(listed[..n]) + {listed[n].instanceId}
        {
          var k :| 0 <= k < |listed| && listed[k].instanceId == id;
          if k < n {
            assert listed[..n][k] == listed[k];
          }
        }
        forall id | id in ListedIds(listed[..n])
          ensures id in ListedIds(listed)
        {
          var k :| 0 <= k < n && listed[..n][k].instanceId == id;
          assert listed[k] == listed[..n][k];
        }
      }
    }
  }

  /** An instance that is not listed keeps its entry, or its absence. */
  lemma {:induction false} MergeKeepsUnlisted(invocations: map<string, Invocation>, listed: seq<CommandInvocation>, id: string)
    requires forall k :: 0 <= k < |listed| ==> listed[k].instanceId != id
    ensures id in Merge(invocations, listed) <==> id in invocations
    ensures id in invocations ==> Merge(invocations, listed)[id] == invocations[id]
  {
    if |listed| > 0 {
      var n := |listed| - 1;
      assert forall k :: 0 <= k < n ==> listed[..n][k] == listed[k];
      MergeKeepsUnlisted(invocations, listed[..n], id);
    }
  }

  /** A listed instance's entry holds its last listing. */
  lemma {:induction false} MergeRecordsLatest(invocations: map<string, Invocation>, listed: seq<CommandInvocation>, k: nat)
    requires k < |listed| && forall j :: k < j < |listed| ==> listed[j].instanceId != listed[k].instanceId
    ensures listed[k].instanceId in Merge(invocations, listed)
    ensures Merge(invocations, listed)[listed[k].instanceId].commandInvocation == listed[k]
  {
    var n := |listed| - 1;
    if k < n {
      assert forall j :: k < j < n ==> listed[..n][j] == listed[j];
      MergeRecordsLatest(invocations, listed[..n], k);
    }
  }

  /** The exit code after the final fold: 1 when some tracked invocation did
      not succeed, otherwise the global exit code as it was. */
  function ExitCodeAfter(exitCode: int, invocations: map<string, Invocation>): int
  {
    if exists id :: id in invocations && invocations[id].commandInvocation.status != Success then 1 else exitCode
  }

  /** Some invocation among `ids` did not succeed. */
  predicate SomeUnsuccessful(invocations: map<string, Invocation>, ids: set<string>)
  {
    exists id :: id in ids && id in invocations && invocations[id].commandInvocation.status != Success
  }

  /** The entry `id` is streaming in `now` and was not in `before`. */
  predicate NewlyStarted(before: map<string, Invocation>, now: map<string, Invocation>, id: string)
  {
    id in now && now[id].streaming && !(id in before && before[id].streaming)
  }

  /** `started` lists exactly once each entry that is streaming now and was
      not streaming at the start; every entry streaming at the start still
      is. */
  ghost predicate StartedOnce(started: seq<string>, before: map<string, Invocation>, now: map<string, Invocation>)
  {
    && (forall i, j :: 0 <= i < j < |started| ==> started[i] != started[j])
    && (forall id :: id in started ==> id in now && now[id].streaming && !(id in before && before[id].streaming))
    && (forall id :: NewlyStarted(before, now, id) ==> id in started)
    && (forall id :: id in before && before[id].streaming ==> id in now && now[id].streaming)
  }

  /** `after` is `now` with every entry streaming, and `newly` lists, once
      each, the entries of `now` that were not. */
  predicate AllStarted(now: map<string, Invocation>, after: map<string, Invocation>, newly: seq<string>)
  {
    && after.Keys == now.Keys
    && (forall id :: id in after ==> after[id] == now[id].(streaming := true))
    && (forall i, j :: 0 <= i < j < |newly| ==> newly[i] != newly[j])
    && (forall id :: id in newly ==> id in now && !now[id].streaming)
    && (forall id :: id in now && !now[id].streaming ==> id in newly)
  }

  lemma MergeKeepsStarted(started: seq<string>, before: map<string, Invocation>, now: map<string, Invocation>,
                          listed: seq<CommandInvocation>)
    requires StartedOnce(started, before, now)
    ensures StartedOnce(started, before, Merge(now, listed))
  {
    MergeKeepsEntries(now, listed);
  }

  /** Starting the entries not yet streaming never starts one twice. */
  lemma StartingKeepsStarted(started: seq<string>, before: map<string, Invocation>, now: map<string, Invocation>,
                             after: map<string, Invocation>, newly: seq<string>)
    requires StartedOnce(started, before, now) && AllStarted(now, after, newly)
    ensures StartedOnce(started + newly, before, after)
  {
    var all := started + newly;
    forall i, j | 0 <= i < j < |all|
      ensures all[i] != all[j]
    {
      if j >= |started| && i < |started| {
        assert all[i] in started && all[j] in newly;
      }
    }
  }

  /** `Done`: the command reports that it is finished. */
  predicate CommandDone(details: string)
  {
    details == NoInstancesInTag || details == Success
  }

  /** `Done` holds exactly for the two details `Status` rewords. */
  lemma DoneExactlyWhenReworded(details: string)
    ensures CommandDone(details) <==> FriendlyStatus(details) != details
  {
  }

  /** Every entry marked streaming, as the starting pass leaves the map. */
  function StartAll(invocations: map<string, Invocation>): (after: map<string, Invocation>)
    ensures after.Keys == invocations.Keys
  {
    map id | id in invocations :: invocations[id].(streaming := true)
  }

  /** A starting pass leaves exactly `StartAll` of the map, whatever order it
      visits the entries in. */
  lemma AllStartedIsStartAll(now: map<string, Invocation>, after: map<string, Invocation>, newly: seq<string>)
    requires AllStarted(now, after, newly)
    ensures after == StartAll(now)
  {
  }

  /** The two readers `Invocation.Stream` starts, on the log group, command
      and instance of the entry's latest listing. */
  function EntryReaders(entry: Invocation): (readers: seq<Logs.Reader>)
    ensures |readers| == 2
  {
    var listed := entry.commandInvocation;
    Logs.Readers(listed.logGroup, listed.commandId, listed.instanceId)
  }

  /** The readers started for the entries `ids`, two per entry of the map,
      in order. */
  function StreamsOf(invocations: map<string, Invocation>, ids: seq<string>): (readers: seq<Logs.Reader>)
  {
    if |ids| == 0 then []
    else
      var id := ids[|ids| - 1];
      StreamsOf(invocations, ids[..|ids| - 1]) + if id in invocations then EntryReaders(invocations[id]) else []
  }

  lemma StreamsOfAppend(invocations: map<string, Invocation>, ids: seq<string>, id: string)
    requires id in invocations
    ensures StreamsOf(invocations, ids + [id]) == StreamsOf(invocations, ids) + EntryReaders(invocations[id])
  {
    assert (ids + [id])[..|ids|] == ids;
  }

  /** Entry `k` of `ids` owns readers `2k` (stdout) and `2k + 1` (stderr). */
  lemma {:induction false} StreamsOfPairs(invocations: map<string, Invocation>, ids: seq<string>)
    requires forall k :: 0 <= k < |ids| ==> ids[k] in invocations
    ensures |StreamsOf(invocations, ids)| == 2 * |ids|
    ensures forall k :: 0 <= k < |ids| ==>
              var pair := EntryReaders(invocations[ids[k]]);
              StreamsOf(invocations, ids)[2 * k] == pair[0] && StreamsOf(invocations, ids)[2 * k + 1] == pair[1]
  {
    if |ids| > 0 {
      var n := |ids| - 1;
      var init := StreamsOf(invocations, ids[..n]);
      StreamsOfPairs(invocations, ids[..n]);
      var last := EntryReaders(invocations[ids[n]]);
      assert StreamsOf(invocations, ids) == init + last;
      forall k | 0 <= k < |ids|
        ensures var pair := EntryReaders(invocations[ids[k]]);
                (init + last)[2 * k] == pair[0] && (init + last)[2 * k + 1] == pair[1]
      {
        if k < n {
          assert ids[..n][k] == ids[k];
        }
      }
    }
  }

  /** The command after a `ListCommands` reply: the last listed command replaces
      the current one; an empty listing keeps it. */
  function LatestCommand(current: Option<SsmCommand>, listed: seq<SsmCommand>): (latest: Option<SsmCommand>)
    ensures current.Some? ==> latest.Some?
    ensures latest.None? ==> |listed| == 0
  {
    if |listed| == 0 then current else Some(listed[|listed| - 1])
  }

  /** The request `RunCommand` sends, or the error that stops it before
      sending: with a target limit of 0 the parsed targets address the
      instances; with any other limit the instance IDs `randomTargets`
      chooses do. */
  function Request(options: Options, describe: seq<Filter> -> Result<seq<Reservation>>, draws: seq<seq<nat>>)
    : (r: Result<SendCommandInput>)
    ensures ParseTargets(options.targets).Err? ==> r == Err(ParseTargets(options.targets).error)
    ensures r.Ok? ==> r.value == BaseInput(options).(targets := r.value.targets, instanceIds := r.value.instanceIds)
    ensures ParseTargets(options.targets).Ok? && options.targetLimit == 0 ==>
              r.Ok? && r.value.targets == ParseTargets(options.targets).value && r.value.instanceIds == []
    ensures ParseTargets(options.targets).Ok? && options.targetLimit != 0 ==>
              var chosen := SelectTargets(describe(Filters(ParseTargets(options.targets).value)), options.targetLimit, draws, false);
              (r.Err? <==> chosen.Err?) && (r.Err? ==> r.error == chosen.error) &&
              (r.Ok? ==> r.value.targets == [] && r.value.instanceIds == chosen.value)
  {
    match ParseTargets(options.targets)
    case Err(e) => Err(e)
    case Ok(targets) =>
      var input := BaseInput(options);
      if options.targetLimit == 0 then Ok(input.(targets := targets))
      else
        match SelectTargets(describe(Filters(targets)), options.targetLimit, draws, false)
        case Err(e) => Err(e)
        case Ok(ids) => Ok(input.(instanceIds := ids))
  }

  /** How one step of the poll loop ended. */
  datatype Step = Proceed | Fail(error: string) | Panic(reason: string)

  /** How `Run` ended in the model: it returned an exit code and maybe an
      error; it dereferenced a missing reply; or a script of replies ran out
      while it was still polling. */
  datatype RunEnd = Exited(code: int, error: Option<string>) | Panicked(reason: string) | ScriptEnded

  /** Where the polling ends: how `Run` ends, the command it holds, the
      invocation map, and the command as it was when the loop was left, if it
      was. */
  datatype Polled = Polled(end: RunEnd, command: SsmCommand, invocations: map<string, Invocation>,
                           exitedOn: Option<SsmCommand>)

  /** The poll loop from round `round` on, for a sent `command` and the map
      `invocations`: each round takes the next status reply, then the next
      listing; the loop is left at the first round after which every
      invocation is completed and the command is done; otherwise every entry
      is started and the next round follows. A script that runs out ends the
      run there. */
  function Poll(command: SsmCommand, invocations: map<string, Invocation>, exitCode: int,
                statusReplies: seq<Result<seq<SsmCommand>>>, listingReplies: seq<Result<seq<CommandInvocation>>>,
                round: nat): Polled
    decreases |statusReplies| - round
  {
    if round >= |statusReplies| then Polled(ScriptEnded, command, invocations, None)
    else match statusReplies[round]
      case Err(e) => Polled(Exited(1, Some(StatusUpdateFailed(e))), command, invocations, None)
      case Ok(commands) =>
        var current := LatestCommand(Some(command), commands).value;
        if round >= |listingReplies| then Polled(ScriptEnded, current, invocations, None)
        else match listingReplies[round]
          case Err(_) => Polled(Panicked(MissingListing), current, invocations, None)
          case Ok(listed) =>
            var merged := Merge(invocations, listed);
            if AllCompleted(merged) && CommandDone(current.statusDetails) then
              Finish(current, merged, exitCode, statusReplies, round + 1)
            else
              Poll(current, StartAll(merged), exitCode, statusReplies, listingReplies, round + 1)
  }

  /** After the loop: one more status update, then the fold of the exit code. */
  function Finish(command: SsmCommand, invocations: map<string, Invocation>, exitCode: int,
                  statusReplies: seq<Result<seq<SsmCommand>>>, next: nat): Polled
  {
    if next >= |statusReplies| then Polled(ScriptEnded, command, invocations, Some(command))
    else match statusReplies[next]
      case Err(e) => Polled(Exited(1, Some(StatusUpdateFailed(e))), command, invocations, Some(command))
      case Ok(commands) =>
        Polled(Exited(ExitCodeAfter(exitCode, invocations), None), LatestCommand(Some(command), commands).value,
               invocations, Some(command))
  }

  /** An error exit has code 1; a clean exit happens only after the loop was
      left, on a command that was done, and it leaves every invocation
      completed and returns the folded exit code. */
  lemma {:induction false} PollExits(command: SsmCommand, invocations: map<string, Invocation>, exitCode: int,
                                     statusReplies: seq<Result<seq<SsmCommand>>>,
                                     listingReplies: seq<Result<seq<CommandInvocation>>>, round: nat)
    ensures var p := Poll(command, invocations, exitCode, statusReplies, listingReplies, round);
            && (p.end.Exited? && p.end.error.Some? ==> p.end.code == 1)
            && (p.end.Exited? && p.end.error.None? ==>
                  && p.exitedOn.Some? && CommandDone(p.exitedOn.value.statusDetails)
                  && AllCompleted(p.invocations) && p.end.code == ExitCodeAfter(exitCode, p.invocations))
    decreases |statusReplies| - round
  {
    if round < |statusReplies| && statusReplies[round].Ok? && round < |listingReplies| && listingReplies[round].Ok? {
      var current := LatestCommand(Some(command), statusReplies[round].value).value;
      var merged := Merge(invocations, listingReplies[round].value);
      if !(AllCompleted(merged) && CommandDone(current.statusDetails)) {
        PollExits(current, StartAll(merged), exitCode, statusReplies, listingReplies, round + 1);
      }
    }
  }

  /** No entry is ever dropped from the map while polling. */
  lemma {:induction false} PollKeepsEntries(command: SsmCommand, invocations: map<string, Invocation>, exitCode: int,
                                            statusReplies: seq<Result<seq<SsmCommand>>>,
                                            listingReplies: seq<Result<seq<CommandInvocation>>>, round: nat)
    ensures invocations.Keys <= Poll(command, invocations, exitCode, statusReplies, listingReplies, round).invocations.Keys
    decreases |statusReplies| - round
  {
    if round < |statusReplies| && statusReplies[round].Ok? && round < |listingReplies| && listingReplies[round].Ok? {
      var current := LatestCommand(Some(command), statusReplies[round].value).value;
      var listed := listingReplies[round].value;
      var merged := Merge(invocations, listed);
      MergeKeepsEntries(invocations, listed);
      if !(AllCompleted(merged) && CommandDone(current.statusDetails)) {
        PollKeepsEntries(current, StartAll(merged), exitCode, statusReplies, listingReplies, round + 1);
      }
    }
  }

  /** A run that did not run out of replies ends the same however many more
      replies the scripts hold: it reads no reply past the round it ended in. */
  lemma {:induction false} PollIgnoresUnread(command: SsmCommand, invocations: map<string, Invocation>, exitCode: int,
                                             statusReplies: seq<Result<seq<SsmCommand>>>,
                                             listingReplies: seq<Result<seq<CommandInvocation>>>, round: nat,
                                             moreStatus: seq<Result<seq<SsmCommand>>>,
                                             moreListings: seq<Result<seq<CommandInvocation>>>)
    requires Poll(command, invocations, exitCode, statusReplies, listingReplies, round).end != ScriptEnded
    ensures Poll(command, invocations, exitCode, statusReplies + moreStatus, listingReplies + moreListings, round)
         == Poll(command, invocations, exitCode, statusReplies, listingReplies, round)
    decreases |statusReplies| - round
  {
    var s, l := statusReplies + moreStatus, listingReplies + moreListings;
    assert round < |statusReplies|;
    assert s[round] == statusReplies[round];
    if statusReplies[round].Ok? {
      assert round < |listingReplies|;
      assert l[round] == listingReplies[round];
      if listingReplies[round].Ok? {
        var current := LatestCommand(Some(command), statusReplies[round].value).value;
        var merged := Merge(invocations, listingReplies[round].value);
        if AllCompleted(merged) && CommandDone(current.statusDetails) {
          assert round + 1 < |statusReplies|;
          assert s[round + 1] == statusReplies[round + 1];
        } else {
          PollIgnoresUnread(current, StartAll(merged), exitCode, statusReplies, listingReplies, round + 1,
                            moreStatus, moreListings);
        }
      }
    }
  }

  /** `Command`, with the package-level `exitCode` as a field. */
  class Command {
    var targets: seq<string>
    var targetLimit: int
    var executionTimeout: int
    var maxConcurrency: string
    var maxErrors: string
    var comment: string
    var logGroup: string
    var command: seq<string>
    var ssmCommand: Option<SsmCommand>
    var invocations: map<string, Invocation>
    var exitCode: int

    constructor (options: Options)
      ensures Settings() == options && ssmCommand == None && invocations == map[] && exitCode == 0
    {
      targets := options.targets;
      targetLimit := options.targetLimit;
      executionTimeout := options.executionTimeout;
      maxConcurrency := options.maxConcurrency;
      maxErrors := options.maxErrors;
      comment := options.comment;
      logGroup := options.logGroup;
      command := options.command;
      ssmCommand := None;
      invocations := map[];
      exitCode := 0;
    }

    function Settings(): Options
      reads this
    {
      Options(targets, targetLimit, executionTimeout, maxConcurrency, maxErrors, comment, logGroup, command)
    }

    /** `Status`, defined only once a command was submitted: the code reads the
        command's details without checking for nil. */
    function Status(): (message: string)
      reads this
      requires ssmCommand.Some?
      ensures ssmCommand.value.statusDetails == NoInstancesInTag ==> message == NoInstancesMessage
      ensures ssmCommand.value.statusDetails == Success ==> message == SuccessMessage
      ensures !CommandDone(ssmCommand.value.statusDetails) ==> message == ssmCommand.value.statusDetails
    {
      FriendlyStatus(ssmCommand.value.statusDetails)
    }

    /** `Done`, under the same condition as `Status`. */
    predicate Done()
      reads this
      requires ssmCommand.Some?
    {
      CommandDone(ssmCommand.value.statusDetails)
    }

    /** `RunCommand`: builds the request, sends it, and records the command
        SSM returns. Nothing else changes. */
    method RunCommand(describe: seq<Filter> -> Result<seq<Reservation>>,
                      send: SendCommandInput -> Result<SsmCommand>, draws: seq<seq<nat>>)
      returns (err: Option<string>)
      modifies this`ssmCommand
      ensures Settings() == old(Settings()) && invocations == old(invocations) && exitCode == old(exitCode)
      ensures var r := Request(Settings(), describe, draws);
              && (r.Err? ==> err == Some(r.error) && ssmCommand == old(ssmCommand))
              && (r.Ok? && send(r.value).Err? ==>
                    err == Some(SendCommandFailed(send(r.value).error)) && ssmCommand == old(ssmCommand))
              && (r.Ok? && send(r.value).Ok? ==> err == None && ssmCommand == Some(send(r.value).value))
    {
      var input := BaseInput(Settings());
      var parsed := Targets(targets);
      if parsed.Err? {
        return Some(parsed.error);
      }
      if targetLimit == 0 {
        input := input.(targets := parsed.value);
      } else {
        var filters := ToFilter(parsed.value);
        assert filters == Filters(parsed.value);
        var chosen := RandomTargets(describe(filters), targetLimit, draws, false);
        if chosen.Err? {
          return Some(chosen.error);
        }
        input := input.(instanceIds := chosen.value);
      }
      var output := send(input);
      if output.Err? {
        return Some(SendCommandFailed(output.error));
      }
      ssmCommand := Some(output.value);
      return None;
    }

    /** `UpdateStatus`, given the `ListCommands` reply for the current command. */
    method UpdateStatus(reply: Result<seq<SsmCommand>>) returns (err: Option<string>)
      modifies this`ssmCommand
      ensures Settings() == old(Settings()) && invocations == old(invocations) && exitCode == old(exitCode)
      ensures old(ssmCommand).None? ==> err == Some(NotYetExecuted) && ssmCommand == old(ssmCommand)
      ensures old(ssmCommand).Some? && reply.Err? ==>
                err == Some(StatusUpdateFailed(reply.error)) && ssmCommand == old(ssmCommand)
      ensures old(ssmCommand).Some? && reply.Ok? ==>
                err == None && ssmCommand == LatestCommand(old(ssmCommand), reply.value)
    {
      if ssmCommand.None? {
        return Some(NotYetExecuted);
      }
      if reply.Err? {
        return Some(StatusUpdateFailed(reply.error));
      }
      var listed := reply.value;
      for i := 0 to |listed|
        invariant Settings() == old(Settings()) && invocations == old(invocations) && exitCode == old(exitCode)
        invariant ssmCommand == LatestCommand(old(ssmCommand), listed[..i])
      {
        ssmCommand := Some(listed[i]);
      }
      assert listed[..|listed|] == listed;
      return None;
    }

    /** `UpdateInvocationList`, given the `ListCommandInvocations` reply for
        the current command. */
    method UpdateInvocationList(reply: Result<seq<CommandInvocation>>) returns (step: Step)
      modifies this`invocations
      ensures Settings() == old(Settings()) && ssmCommand == old(ssmCommand) && exitCode == old(exitCode)
      ensures old(ssmCommand).None? ==> step == Fail(NotYetExecuted) && invocations == old(invocations)
      ensures old(ssmCommand).Some? && reply.Err? ==> step == Panic(MissingListing) && invocations == old(invocations)
      ensures old(ssmCommand).Some? && reply.Ok? ==> step == Proceed && invocations == Merge(old(invocations), reply.value)
    {
      if ssmCommand.None? {
        return Fail(NotYetExecuted);
      }
      if reply.Err? {
        return Panic(MissingListing);
      }
      var listed := reply.value;
      for i := 0 to |listed|
        invariant Settings() == old(Settings()) && ssmCommand == old(ssmCommand) && exitCode == old(exitCode)
        invariant invocations == Merge(old(invocations), listed[..i])
      {
        var latest := listed[i];
        assert listed[..i + 1][..i] == listed[..i];
        if latest.instanceId !in invocations {
          invocations := invocations[latest.instanceId := Invocation(false, latest)];
        }
        invocations := invocations[latest.instanceId := invocations[latest.instanceId].(commandInvocation := latest)];
      }
      assert listed[..|listed|] == listed;
      return Proceed;
    }

    /** The loop body that starts log readers: every entry not yet streaming
        is marked streaming and its two readers are started. `started` lists
        the entries started, in the order the map was visited, and `readers`
        the readers started for them. */
    method StartStreams() returns (started: seq<string>, readers: seq<Logs.Reader>)
      modifies this`invocations
      ensures Settings() == old(Settings()) && ssmCommand == old(ssmCommand) && exitCode == old(exitCode)
      ensures AllStarted(old(invocations), invocations, started)
      ensures readers == StreamsOf(old(invocations), started)
    {
      started, readers := [], [];
      ghost var before := invocations;
      var rest := invocations.Keys;
      while rest != {}
        invariant rest <= invocations.Keys == before.Keys
        invariant forall id :: id in invocations ==>
                    invocations[id] == if id in rest then before[id] else before[id].(streaming := true)
        invariant forall i, j :: 0 <= i < j < |started| ==> started[i] != started[j]
        invariant forall id :: id in started <==> id in before && id !in rest && !before[id].streaming
        invariant readers == StreamsOf(before, started)
        decreases |rest|
      {
        var id :| id in rest;
        if !invocations[id].streaming {
          var entry := invocations[id];
          StreamsOfAppend(before, started, id);
          readers := readers + EntryReaders(entry);
          invocations := invocations[id := invocations[id].(streaming := true)];
          started := started + [id];
        }
        rest := rest - {id};
      }
    }

    /** The fold after the loop: any tracked invocation that did not succeed
        sets the global exit code to 1. */
    method FoldExitCode()
      modifies this`exitCode
      ensures Settings() == old(Settings()) && ssmCommand == old(ssmCommand) && invocations == old(invocations)
      ensures exitCode == ExitCodeAfter(old(exitCode), invocations)
    {
      var rest := invocations.Keys;
      while rest != {}
        invariant rest <= invocations.Keys
        invariant Settings() == old(Settings()) && ssmCommand == old(ssmCommand) && invocations == old(invocations)
        invariant exitCode == if SomeUnsuccessful(invocations, invocations.Keys - rest) then 1 else old(exitCode)
        decreases |rest|
      {
        var id :| id in rest;
        if invocations[id].commandInvocation.status != Success {
          exitCode := 1;
        }
        rest := rest - {id};
      }
      assert invocations.Keys - rest == invocations.Keys;
    }

    /** The polling part of `Run`, for a command already sent: round `r`
        reads `statusReplies[r]` and `listingReplies[r]`; the final status
        update reads the status reply after the last round. The loop ends as
        `Poll` specifies. `started` lists the entries whose readers were
        started. */
    method PollRounds(statusReplies: seq<Result<seq<SsmCommand>>>, listingReplies: seq<Result<seq<CommandInvocation>>>)
      returns (end: RunEnd, started: seq<string>)
      requires ssmCommand.Some?
      modifies this`ssmCommand, this`invocations, this`exitCode
      ensures Settings() == old(Settings())
      ensures var p := Poll(old(ssmCommand).value, old(invocations), old(exitCode), statusReplies, listingReplies, 0);
              end == p.end && ssmCommand == Some(p.command) && invocations == p.invocations
      ensures exitCode == if end.Exited? && end.error.None? then end.code else old(exitCode)
      ensures StartedOnce(started, old(invocations), invocations)
    {
      started := [];
      ghost var polled := Poll(ssmCommand.value, invocations, exitCode, statusReplies, listingReplies, 0);
      var round := 0;
      while true
        invariant Settings() == old(Settings()) && ssmCommand.Some? && exitCode == old(exitCode)
        invariant polled == Poll(ssmCommand.value, invocations, exitCode, statusReplies, listingReplies, round)
        invariant StartedOnce(started, old(invocations), invocations)
        decreases |statusReplies| - round
      {
        if round >= |statusReplies| {
          return ScriptEnded, started;
        }
        var err := UpdateStatus(statusReplies[round]);
        if err.Some? {
          return Exited(1, err), started;
        }
        if round >= |listingReplies| {
          return ScriptEnded, started;
        }
        ghost var listedFrom := invocations;
        // The command was recorded, so `UpdateInvocationList` cannot report
        // that it was not executed.
        var step := UpdateInvocationList(listingReplies[round]);
        if step.Panic? {
          return Panicked(step.reason), started;
        }
        MergeKeepsStarted(started, old(invocations), listedFrom, listingReplies[round].value);
        var allDone := AreDone(invocations);
        if allDone && Done() {
          break;
        }
        assert polled == Poll(ssmCommand.value, StartAll(invocations), exitCode, statusReplies, listingReplies, round + 1);
        ghost var startedFrom := invocations;
        var newly, readers := StartStreams();
        AllStartedIsStartAll(startedFrom, invocations, newly);
        StartingKeepsStarted(started, old(invocations), startedFrom, invocations, newly);
        started := started + newly;
        round := round + 1;
      }
      assert polled == Finish(ssmCommand.value, invocations, exitCode, statusReplies, round + 1);
      if round + 1 >= |statusReplies| {
        return ScriptEnded, started;
      }
      var err := UpdateStatus(statusReplies[round + 1]);
      if err.Some? {
        return Exited(1, err), started;
      }
      FoldExitCode();
      return Exited(exitCode, None), started;
    }

    /** `Run`: submit, then poll until every invocation has completed and the
        command is done, then fold the exit code. A failure to build or send
        the request exits with code 1 and changes nothing; once the command is
        sent, the run ends as `Poll` specifies. */
    method Run(describe: seq<Filter> -> Result<seq<Reservation>>, send: SendCommandInput -> Result<SsmCommand>,
               draws: seq<seq<nat>>, statusReplies: seq<Result<seq<SsmCommand>>>,
               listingReplies: seq<Result<seq<CommandInvocation>>>)
      returns (end: RunEnd, started: seq<string>)
      modifies this`ssmCommand, this`invocations, this`exitCode
      ensures Settings() == old(Settings())
      ensures var r := Request(Settings(), describe, draws);
              && (r.Err? ==>
                    end == Exited(1, Some(r.error)) && ssmCommand == old(ssmCommand) && invocations == old(invocations))
              && (r.Ok? && send(r.value).Err? ==>
                    && end == Exited(1, Some(SendCommandFailed(send(r.value).error)))
                    && ssmCommand == old(ssmCommand) && invocations == old(invocations))
              && (r.Ok? && send(r.value).Ok? ==>
                    var p := Poll(send(r.value).value, old(invocations), old(exitCode), statusReplies, listingReplies, 0);
                    && end == p.end && ssmCommand == Some(p.command) && invocations == p.invocations
                    && (end.Exited? && end.error.None? ==>
                          p.exitedOn.Some? && CommandDone(p.exitedOn.value.statusDetails)))
      ensures exitCode == if end.Exited? && end.error.None? then end.code else old(exitCode)
      ensures end.Exited? && end.error.Some? ==> end.code == 1
      ensures end.Exited? && end.error.None? ==>
                && AllCompleted(invocations)
                && end.code == ExitCodeAfter(old(exitCode), invocations)
      ensures StartedOnce(started, old(invocations), invocations)
    {
      var err := RunCommand(describe, send, draws);
      if err.Some? {
        return Exited(1, err), [];
      }
      PollExits(ssmCommand.value, invocations, exitCode, statusReplies, listingReplies, 0);
      end, started := PollRounds(statusReplies, listingReplies);
    }
  }
}
