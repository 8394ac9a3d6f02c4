/** The batched variant of the tool (lib/command.go with the `Stream` of
    lib/cloudwatch.go): `Run` always adds a selector for running instances,
    picks the instances itself (passing over Windows instances), and submits
    them in batches of at most 50 IDs, stopping at the first batch SSM
    rejects. For each accepted batch the log readers of every instance are
    started.

    `DescribeInstances` and `SendCommand` are given to the model as functions
    of their requests. */
module Batched {
  import opened Outcomes
  import opened Text
  import opened Selectors
  import opened Selection
  import opened Ssm
  import opened Logs

  const RunningSelector := "instance-state-name=running"
  const BatchSize := 50
  const NotYetStarted := "command not yet started"

  /** A selector whose key has no `=` and whose value has no `,` parses to a
      target with that key and that single value. */
  lemma SelectorOfParts(key: string, value: string)
    requires '=' !in key && ',' !in value
    ensures ParseSelector(key + "=" + value) == Ok(Target(key, [value]))
  {
    var s := key + "=" + value;
    IndexOfFirst(key, '=', value);
    assert s[..|key|] == key && s[|key| + 1..] == value;
  }

  /** The appended selector parses to the filter on the instance state. */
  lemma RunningSelectorParses()
    ensures ParseSelector(RunningSelector) == Ok(Target("instance-state-name", ["running"]))
  {
    var key, value := "instance-state-name", "running";
    assert '=' !in key by {
      assert forall i :: 0 <= i < |key| ==> key[i] != '=';
    }
    assert ',' !in value by {
      assert forall i :: 0 <= i < |value| ==> value[i] != ',';
    }
    assert RunningSelector == key + "=" + value;
    SelectorOfParts(key, value);
  }

  /** With the running-state selector appended last, parsing either fails or
      yields that filter as the last target. */
  lemma RunningTargetLast(selectors: seq<string>)
    ensures var r := ParseTargets(selectors + [RunningSelector]);
            r.Ok? ==> |r.value| == |selectors| + 1 && r.value[|selectors|] == Target("instance-state-name", ["running"])
  {
    ParseTargetsOk(selectors + [RunningSelector]);
    RunningSelectorParses();
  }

  /** Where batch `k` of `n` IDs ends: 50 IDs after it starts, or at the end. */
  function BatchEnd(k: nat, n: nat): nat
  {
    if BatchSize * k + BatchSize < n then BatchSize * k + BatchSize else n
  }

  /** The slices `[i, min(i + 50, n))`, `i` stepping by 50, that `Run`
      submits: as many as `n / 50` rounded up. */
  function Batches(ids: seq<string>): (batches: seq<seq<string>>)
    ensures |batches| == (|ids| + BatchSize - 1) / BatchSize
    decreases |ids|
  {
    if |ids| == 0 then []
    else if |ids| <= BatchSize then [ids]
    else [ids[..BatchSize]] + Batches(ids[BatchSize..])
  }

  /** Another batch starts at `50 k` exactly when fewer than `k + 1` batches
      cover the IDs. */
  lemma BatchesLeft(n: nat, k: nat)
    ensures BatchSize * k < n <==> k < (n + BatchSize - 1) / BatchSize
  {
  }

  /** Batch `k` is the slice from `50 k` to `BatchEnd(k, n)`. */
  lemma {:induction false} BatchSlice(ids: seq<string>, k: nat)
    requires k < |Batches(ids)|
    ensures BatchSize * k < |ids| && Batches(ids)[k] == ids[BatchSize * k .. BatchEnd(k, |ids|)]
    decreases |ids|
  {
    if k > 0 {
      var rest := ids[BatchSize..];
      assert Batches(ids)[k] == Batches(rest)[k - 1];
      BatchSlice(rest, k - 1);
      assert BatchSize * k == BatchSize * (k - 1) + BatchSize;
      assert rest[BatchSize * (k - 1) .. BatchEnd(k - 1, |rest|)] == ids[BatchSize * k .. BatchEnd(k, |ids|)];
    }
  }

  /** The slice the loop cuts at `i = 50 k` is batch `k`. */
  lemma BatchAt(ids: seq<string>, k: nat, i: nat, j: nat)
    requires i == BatchSize * k && i < |ids| && j == (if i + BatchSize > |ids| then |ids| else i + BatchSize)
    ensures k < |Batches(ids)| && ids[i..j] == Batches(ids)[k]
  {
    BatchesLeft(|ids|, k);
    BatchSlice(ids, k);
  }

  /** The loop leaves once `i = 50 k` reaches the end, with every batch cut. */
  lemma NoBatchLeft(ids: seq<string>, k: nat)
    requires BatchSize * k >= |ids| && k <= |Batches(ids)|
    ensures k == |Batches(ids)|
  {
    BatchesLeft(|ids|, k);
  }

  function Flatten(batches: seq<seq<string>>): seq<string>
  {
    if |batches| == 0 then [] else batches[0] + Flatten(batches[1..])
  }

  /** The batches hold every ID exactly once, in the original order, and none
      is empty or larger than 50. */
  lemma {:induction false} BatchesCover(ids: seq<string>)
    ensures Flatten(Batches(ids)) == ids
    ensures forall b :: b in Batches(ids) ==> 1 <= |b| <= BatchSize
    decreases |ids|
  {
    if |ids| > BatchSize {
      BatchesCover(ids[BatchSize..]);
      var batches := Batches(ids);
      assert batches[1..] == Batches(ids[BatchSize..]);
      assert ids == ids[..BatchSize] + ids[BatchSize..];
      forall b | b in batches
        ensures 1 <= |b| <= BatchSize
      {
        if b != batches[0] {
          assert b in batches[1..];
        }
      }
    } else if |ids| > 0 {
      assert Batches(ids)[1..] == [];
    }
  }

  /** The readers `Stream` starts for every instance of an accepted batch,
      two per instance, in batch order. */
  function StreamsFor(logGroup: string, commandId: string, ids: seq<string>): (readers: seq<Reader>)
    ensures |readers| == 2 * |ids|
  {
    if |ids| == 0 then []
    else StreamsFor(logGroup, commandId, ids[..|ids| - 1]) + Readers(logGroup, commandId, ids[|ids| - 1])
  }

  /** Instance `k` of the batch owns readers `2k` (stdout) and `2k + 1`
      (stderr). */
  lemma {:induction false} StreamsForPairs(logGroup: string, commandId: string, ids: seq<string>)
    ensures forall k :: 0 <= k < |ids| ==>
              var pair := Readers(logGroup, commandId, ids[k]);
              StreamsFor(logGroup, commandId, ids)[2 * k] == pair[0] &&
              StreamsFor(logGroup, commandId, ids)[2 * k + 1] == pair[1]
  {
    if |ids| > 0 {
      var n := |ids| - 1;
      var init := StreamsFor(logGroup, commandId, ids[..n]);
      StreamsForPairs(logGroup, commandId, ids[..n]);
      var last := Readers(logGroup, commandId, ids[n]);
      assert StreamsFor(logGroup, commandId, ids) == init + last;
      forall k | 0 <= k < |ids|
        ensures var pair := Readers(logGroup, commandId, ids[k]);
                (init + last)[2 * k] == pair[0] && (init + last)[2 * k + 1] == pair[1]
      {
        if k < n {
          assert ids[..n][k] == ids[k];
        }
      }
    }
  }

  function BatchInput(options: Options, batch: seq<string>): SendCommandInput
  {
    BaseInput(options).(instanceIds := batch)
  }

  /** The instance IDs `Run` goes on to submit, or the error that stops it
      first. */
  function Chosen(options: Options, describe: seq<Filter> -> Result<seq<Reservation>>, draws: seq<seq<nat>>)
    : Result<seq<string>>
  {
    match ParseTargets(options.targets)
    case Err(e) => Err(e)
    case Ok(targets) => SelectTargets(describe(Filters(targets)), options.targetLimit, draws, true)
  }

  /** What the batched variant chooses: a `DescribeInstances` error is the
      error; otherwise the choice fails exactly when no non-Windows instance
      was reported, and it holds reported non-Windows instances only, `limit`
      of them when there are that many and all of them otherwise. */
  lemma ChosenInstances(options: Options, describe: seq<Filter> -> Result<seq<Reservation>>, draws: seq<seq<nat>>)
    ensures var parsed := ParseTargets(options.targets);
            var r := Chosen(options, describe, draws);
            parsed.Ok? ==>
              var described := describe(Filters(parsed.value));
              && (described.Err? ==> r == Err(described.error))
              && (described.Ok? ==>
                    var n := EligibleCount(described.value, true);
                    var limit := options.targetLimit;
                    && (r.Err? <==> n == 0)
                    && (r.Ok? && 1 <= limit <= n ==> |r.value| == limit)
                    && (r.Ok? && (limit < 1 || n < limit) ==> |r.value| == n)
                    && (r.Ok? ==> forall id :: id in r.value ==>
                          exists k, inst :: && 0 <= k < |described.value| && inst in described.value[k].instances
                                            && inst.platform != Some(WindowsPlatform) && inst.instanceId == id))
  {
    var parsed := ParseTargets(options.targets);
    if parsed.Ok? && describe(Filters(parsed.value)).Ok? {
      var reservations := describe(Filters(parsed.value)).value;
      SelectionSize(reservations, options.targetLimit, draws, true);
      var r := Chosen(options, describe, draws);
      if r.Ok? {
        forall id | id in r.value
          ensures exists k, inst :: && 0 <= k < |reservations| && inst in reservations[k].instances
                                    && inst.platform != Some(WindowsPlatform) && inst.instanceId == id
        {
          ChosenAreEligible(reservations, options.targetLimit, draws, true, id);
        }
      }
    }
  }

  predicate Accepted(options: Options, send: SendCommandInput -> Result<SsmCommand>, batch: seq<string>)
  {
    send(BatchInput(options, batch)).Ok?
  }

  /** The last batch sent was rejected, with `error` as the resulting error. */
  predicate StoppedAt(options: Options, send: SendCommandInput -> Result<SsmCommand>,
                      submitted: seq<seq<string>>, error: string)
  {
    |submitted| >= 1 &&
    var last := send(BatchInput(options, submitted[|submitted| - 1]));
    last.Err? && error == SendCommandFailed(last.error)
  }

  /** `submitted` is a prefix of `batches` whose batches, all but possibly
      the last, were accepted; when fewer than all batches were sent, the last
      one sent was rejected. */
  predicate BatchesSent(options: Options, send: SendCommandInput -> Result<SsmCommand>,
                        batches: seq<seq<string>>, submitted: seq<seq<string>>)
  {
    && |submitted| <= |batches| && submitted == batches[..|submitted|]
    && (forall k :: 0 <= k < |submitted| - 1 ==> Accepted(options, send, submitted[k]))
    && (|submitted| < |batches| ==> |submitted| >= 1 && !Accepted(options, send, submitted[|submitted| - 1]))
  }

  /** The batches sent so far are the first ones of `batches`, and every one
      of them was accepted. */
  /** SSM accepted every batch in `submitted`. */
  predicate EveryAccepted(options: Options, send: SendCommandInput -> Result<SsmCommand>, submitted: seq<seq<string>>)
  {
    forall k :: 0 <= k < |submitted| ==> Accepted(options, send, submitted[k])
  }

  predicate AcceptedPrefix(options: Options, send: SendCommandInput -> Result<SsmCommand>,
                           batches: seq<seq<string>>, submitted: seq<seq<string>>)
  {
    && |submitted| <= |batches| && submitted == batches[..|submitted|]
    && (forall k :: 0 <= k < |submitted| ==> Accepted(options, send, submitted[k]))
  }

  lemma AcceptedExtend(options: Options, send: SendCommandInput -> Result<SsmCommand>,
                       batches: seq<seq<string>>, submitted: seq<seq<string>>)
    requires AcceptedPrefix(options, send, batches, submitted) && |submitted| < |batches|
    requires Accepted(options, send, batches[|submitted|])
    ensures AcceptedPrefix(options, send, batches, submitted + [batches[|submitted|]])
  {
    assert batches[..|submitted| + 1] == batches[..|submitted|] + [batches[|submitted|]];
  }

  lemma AcceptedThenRejected(options: Options, send: SendCommandInput -> Result<SsmCommand>,
                             batches: seq<seq<string>>, submitted: seq<seq<string>>)
    requires AcceptedPrefix(options, send, batches, submitted) && |submitted| < |batches|
    requires !Accepted(options, send, batches[|submitted|])
    ensures BatchesSent(options, send, batches, submitted + [batches[|submitted|]])
    ensures StoppedAt(options, send, submitted + [batches[|submitted|]],
                      SendCommandFailed(send(BatchInput(options, batches[|submitted|])).error))
  {
    assert batches[..|submitted| + 1] == batches[..|submitted|] + [batches[|submitted|]];
  }

  lemma AllAccepted(options: Options, send: SendCommandInput -> Result<SsmCommand>,
                    batches: seq<seq<string>>, submitted: seq<seq<string>>)
    requires AcceptedPrefix(options, send, batches, submitted) && |submitted| == |batches|
    ensures submitted == batches && BatchesSent(options, send, batches, submitted)
  {
    assert batches[..|submitted|] == batches;
  }

  /** The command recorded after sending `submitted` in order, starting from
      `current`: an accepted batch records the command SSM returned for it; a
      rejected one leaves the record as it was. */
  function CommandAfter(current: Option<SsmCommand>, options: Options, send: SendCommandInput -> Result<SsmCommand>,
                        submitted: seq<seq<string>>): Option<SsmCommand>
  {
    if |submitted| == 0 then current
    else
      var n := |submitted| - 1;
      var output := send(BatchInput(options, submitted[n]));
      if output.Ok? then Some(output.value) else CommandAfter(current, options, send, submitted[..n])
  }

  /** The readers started while sending `submitted` in order: the two
      readers of every instance of each accepted batch, under the command ID
      SSM returned for it; a rejected batch starts none. */
  function ReadersAfter(options: Options, send: SendCommandInput -> Result<SsmCommand>, submitted: seq<seq<string>>)
    : seq<Reader>
  {
    if |submitted| == 0 then []
    else
      var n := |submitted| - 1;
      ReadersAfter(options, send, submitted[..n]) +
        match send(BatchInput(options, submitted[n]))
        case Ok(sent) => StreamsFor(options.logGroup, sent.commandId, submitted[n])
        case Err(_) => []
  }

  /** Sending one more batch extends both records by that batch alone. */
  lemma SentStep(current: Option<SsmCommand>, options: Options, send: SendCommandInput -> Result<SsmCommand>,
                 submitted: seq<seq<string>>, batch: seq<string>)
    ensures var output := send(BatchInput(options, batch));
            && CommandAfter(current, options, send, submitted + [batch])
               == (if output.Ok? then Some(output.value) else CommandAfter(current, options, send, submitted))
            && ReadersAfter(options, send, submitted + [batch])
               == ReadersAfter(options, send, submitted) +
                  (if output.Ok? then StreamsFor(options.logGroup, output.value.commandId, batch) else [])
  {
    assert (submitted + [batch])[..|submitted|] == submitted;
  }

  /** The recorded command is the one SSM returned for the last accepted
      batch, and the one from before when no batch was accepted. */
  lemma {:induction false} CommandIsLastAccepted(current: Option<SsmCommand>, options: Options,
                                                 send: SendCommandInput -> Result<SsmCommand>,
                                                 submitted: seq<seq<string>>)
    ensures (forall k :: 0 <= k < |submitted| ==> !Accepted(options, send, submitted[k])) ==>
              CommandAfter(current, options, send, submitted) == current
    ensures forall k :: 0 <= k < |submitted| && Accepted(options, send, submitted[k]) &&
                        (forall j :: k < j < |submitted| ==> !Accepted(options, send, submitted[j])) ==>
                          CommandAfter(current, options, send, submitted) == Some(send(BatchInput(options, submitted[k])).value)
  {
    if |submitted| > 0 {
      var n := |submitted| - 1;
      var init := submitted[..n];
      var after := CommandAfter(current, options, send, submitted);
      if !Accepted(options, send, submitted[n]) {
        assert after == CommandAfter(current, options, send, init);
        CommandIsLastAccepted(current, options, send, init);
        assert forall k :: 0 <= k < n ==> init[k] == submitted[k];
      } else {
        forall k | 0 <= k < |submitted| && Accepted(options, send, submitted[k]) &&
                   (forall j :: k < j < |submitted| ==> !Accepted(options, send, submitted[j]))
          ensures after == Some(send(BatchInput(options, submitted[k])).value)
        {
          assert k == n;
        }
      }
    }
  }

  lemma {:induction false} FlattenAppend(batches: seq<seq<string>>, batch: seq<string>)
    ensures Flatten(batches + [batch]) == Flatten(batches) + batch
  {
    if |batches| > 0 {
      FlattenAppend(batches[1..], batch);
      assert (batches + [batch])[1..] == batches[1..] + [batch];
    }
  }

  /** When every batch is accepted, every instance sent gets its two readers. */
  lemma {:induction false} ReadersCount(options: Options, send: SendCommandInput -> Result<SsmCommand>,
                                        submitted: seq<seq<string>>)
    requires forall k :: 0 <= k < |submitted| ==> Accepted(options, send, submitted[k])
    ensures |ReadersAfter(options, send, submitted)| == 2 * |Flatten(submitted)|
  {
    if |submitted| > 0 {
      var n := |submitted| - 1;
      ReadersCount(options, send, submitted[..n]);
      FlattenAppend(submitted[..n], submitted[n]);
      assert submitted[..n] + [submitted[n]] == submitted;
    }
  }

  /** The state of the batch loop: the batches sent so far are the first of
      `batches` and were all accepted, and the recorded command and the
      readers started are the ones they leave. */
  predicate Progress(options: Options, send: SendCommandInput -> Result<SsmCommand>, batches: seq<seq<string>>,
                     start: Option<SsmCommand>, submitted: seq<seq<string>>, command: Option<SsmCommand>,
                     readers: seq<Reader>)
  {
    && AcceptedPrefix(options, send, batches, submitted)
    && command == CommandAfter(start, options, send, submitted)
    && readers == ReadersAfter(options, send, submitted)
  }

  /** An accepted batch keeps the loop going, with its command recorded
      and its readers added. */
  lemma ProgressAccepted(options: Options, send: SendCommandInput -> Result<SsmCommand>, batches: seq<seq<string>>,
                         start: Option<SsmCommand>, submitted: seq<seq<string>>, command: Option<SsmCommand>,
                         readers: seq<Reader>, sent: SsmCommand)
    requires Progress(options, send, batches, start, submitted, command, readers) && |submitted| < |batches|
    requires send(BatchInput(options, batches[|submitted|])) == Ok(sent)
    ensures Progress(options, send, batches, start, submitted + [batches[|submitted|]], Some(sent),
                     readers + StreamsFor(options.logGroup, sent.commandId, batches[|submitted|]))
  {
    SentStep(start, options, send, submitted, batches[|submitted|]);
    AcceptedExtend(options, send, batches, submitted);
  }

  /** A rejected batch stops the loop with nothing else changed. */
  lemma ProgressRejected(options: Options, send: SendCommandInput -> Result<SsmCommand>, batches: seq<seq<string>>,
                         start: Option<SsmCommand>, submitted: seq<seq<string>>, command: Option<SsmCommand>,
                         readers: seq<Reader>, error: string)
    requires Progress(options, send, batches, start, submitted, command, readers) && |submitted| < |batches|
    requires send(BatchInput(options, batches[|submitted|])) == Err(error)
    ensures var stopped := submitted + [batches[|submitted|]];
            && BatchesSent(options, send, batches, stopped)
            && StoppedAt(options, send, stopped, SendCommandFailed(error))
            && command == CommandAfter(start, options, send, stopped)
            && readers == ReadersAfter(options, send, stopped)
  {
    SentStep(start, options, send, submitted, batches[|submitted|]);
    AcceptedThenRejected(options, send, batches, submitted);
  }

  /** Once every batch was sent and accepted, the batches sent are all of
      them and every chosen instance got its two readers. */
  lemma AllSent(options: Options, send: SendCommandInput -> Result<SsmCommand>, ids: seq<string>,
                submitted: seq<seq<string>>)
    requires AcceptedPrefix(options, send, Batches(ids), submitted) && |submitted| == |Batches(ids)|
    ensures submitted == Batches(ids) && BatchesSent(options, send, Batches(ids), submitted)
    ensures EveryAccepted(options, send, submitted)
    ensures |ReadersAfter(options, send, submitted)| == 2 * |ids|
  {
    AllAccepted(options, send, Batches(ids), submitted);
    ReadersCount(options, send, submitted);
    BatchesCover(ids);
  }

  /** `Command`, with the package-level `exitCode` as a field. */
  class Command {
    var targets: seq<string>
    var targetLimit: int
    var executionTimeout: int
    var maxConcurrency: string
    var maxErrors: string
    var comment: string
    var logGroup: string
    var command: seq<string>
    var ssmCommand: Option<SsmCommand>
    var exitCode: int

    constructor (options: Options)
      ensures Settings() == options && ssmCommand == None && exitCode == 0
    {
      targets := options.targets;
      targetLimit := options.targetLimit;
      executionTimeout := options.executionTimeout;
      maxConcurrency := options.maxConcurrency;
      maxErrors := options.maxErrors;
      comment := options.comment;
      logGroup := options.logGroup;
      command := options.command;
      ssmCommand := None;
      exitCode := 0;
    }

    function Settings(): Options
      reads this
    {
      Options(targets, targetLimit, executionTimeout, maxConcurrency, maxErrors, comment, logGroup, command)
    }

    /** `Status`: a fixed message before any command was accepted, otherwise
        the reworded details. */
    function Status(): (message: string)
      reads this
      ensures ssmCommand.None? ==> message == NotYetStarted
      ensures ssmCommand.Some? ==> message == FriendlyStatus(ssmCommand.value.statusDetails)
    {
      if ssmCommand.None? then NotYetStarted else FriendlyStatus(ssmCommand.value.statusDetails)
    }

    /** `RunCommand` for one batch: sends the request, records the command SSM
        returns, and starts the readers of every instance of the batch. */
    method RunCommand(instanceIds: seq<string>, send: SendCommandInput -> Result<SsmCommand>)
      returns (err: Option<string>, readers: seq<Reader>)
      modifies this`ssmCommand
      ensures Settings() == old(Settings()) && exitCode == old(exitCode)
      ensures var output := send(BatchInput(Settings(), instanceIds));
              && (output.Err? ==> err == Some(SendCommandFailed(output.error)) && ssmCommand == old(ssmCommand) && readers == [])
              && (output.Ok? ==> err == None && ssmCommand == Some(output.value) &&
                                 readers == StreamsFor(logGroup, output.value.commandId, instanceIds))
    {
      var input := BaseInput(Settings());
      input := input.(instanceIds := instanceIds);
      var output := send(input);
      if output.Err? {
        return Some(SendCommandFailed(output.error)), [];
      }
      ssmCommand := Some(output.value);
      readers := [];
      for i := 0 to |instanceIds|
        invariant readers == StreamsFor(logGroup, output.value.commandId, instanceIds[..i])
      {
        assert instanceIds[..i + 1][..i] == instanceIds[..i];
        // Stream and WaitForInstance run as goroutines; only the readers are modelled
        readers := readers + Readers(logGroup, output.value.commandId, instanceIds[i]);
      }
      assert instanceIds[..|instanceIds|] == instanceIds;
      return None, readers;
    }

    /** The batch loop of `Run`: submits `Batches(ids)` in order until one is
        rejected. `submitted` lists the batches sent, and `readers` the log
        readers the accepted ones started. */
    method SubmitBatches(ids: seq<string>, send: SendCommandInput -> Result<SsmCommand>)
      returns (code: int, err: Option<string>, submitted: seq<seq<string>>, readers: seq<Reader>)
      modifies this`ssmCommand
      ensures Settings() == old(Settings()) && exitCode == old(exitCode)
      ensures BatchesSent(Settings(), send, Batches(ids), submitted)
      ensures err.None? ==>
                && code == exitCode && submitted == Batches(ids) && EveryAccepted(Settings(), send, submitted)
                && |readers| == 2 * |ids|
      ensures err.Some? ==> code == 1 && StoppedAt(Settings(), send, submitted, err.value)
      ensures ssmCommand == CommandAfter(old(ssmCommand), Settings(), send, submitted)
      ensures readers == ReadersAfter(Settings(), send, submitted)
    {
      submitted, readers := [], [];
      ghost var batches, options, start := Batches(ids), Settings(), ssmCommand;
      var i := 0;
      while i < |ids|
        invariant Settings() == options && exitCode == old(exitCode)
        invariant i == BatchSize * |submitted| && |submitted| <= |batches|
        invariant Progress(options, send, batches, start, submitted, ssmCommand, readers)
      {
        var j := i + BatchSize;
        if j > |ids| {
          j := |ids|;
        }
        BatchAt(ids, |submitted|, i, j);
        var batch := ids[i..j];
        ghost var before := ssmCommand;
        var failed, started := RunCommand(batch, send);
        if failed.Some? {
          ProgressRejected(options, send, batches, start, submitted, before, readers,
                           send(BatchInput(options, batch)).error);
          return 1, failed, submitted + [batch], readers;
        }
        ProgressAccepted(options, send, batches, start, submitted, before, readers, ssmCommand.value);
        submitted := submitted + [batch];
        readers := readers + started;
        i := i + BatchSize;
      }
      NoBatchLeft(ids, |submitted|);
      AllSent(options, send, ids, submitted);
      return exitCode, None, submitted, readers;
    }

    /** The selection part of `Run`: parse the selectors, then describe the
        matching instances and pick up to the limit, skipping Windows. */
    method ChooseTargets(describe: seq<Filter> -> Result<seq<Reservation>>, draws: seq<seq<nat>>)
      returns (chosen: Result<seq<string>>)
      ensures chosen == Chosen(Settings(), describe, draws)
    {
      var parsed := Targets(targets);
      if parsed.Err? {
        return Err(parsed.error);
      }
      var filters := ToFilter(parsed.value);
      assert filters == Filters(parsed.value);
      chosen := RandomTargets(describe(filters), targetLimit, draws, true);
    }

    /** `Run`: append the running-state selector, choose the instances, then
        submit them in batches until one is rejected. */
    method Run(describe: seq<Filter> -> Result<seq<Reservation>>, send: SendCommandInput -> Result<SsmCommand>,
               draws: seq<seq<nat>>)
      returns (code: int, err: Option<string>, submitted: seq<seq<string>>, readers: seq<Reader>)
      modifies this`targets, this`ssmCommand
      ensures targets == old(targets) + [RunningSelector]
      ensures Settings() == old(Settings()).(targets := targets) && exitCode == old(exitCode)
      ensures var chosen := Chosen(Settings(), describe, draws);
              && (chosen.Err? ==>
                    && code == 1 && err == Some(chosen.error) && submitted == [] && readers == []
                    && ssmCommand == old(ssmCommand))
              && (chosen.Ok? ==>
                    && BatchesSent(Settings(), send, Batches(chosen.value), submitted)
                    && (err.None? ==>
                          && code == exitCode && submitted == Batches(chosen.value)
                          && EveryAccepted(Settings(), send, submitted) && |readers| == 2 * |chosen.value|)
                    && (err.Some? ==> code == 1 && StoppedAt(Settings(), send, submitted, err.value))
                    && ssmCommand == CommandAfter(old(ssmCommand), Settings(), send, submitted)
                    && readers == ReadersAfter(Settings(), send, submitted))
    {
      targets := targets + [RunningSelector];
      var chosen := ChooseTargets(describe, draws);
      if chosen.Err? {
        return 1, Some(chosen.error), [], [];
      }
      code, err, submitted, readers := SubmitBatches(chosen.value, send);
    }
  }
}
