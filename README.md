# ssm-run-command, modelled in Dafny

`ssm-run-command` runs a shell command on a fleet of EC2 instances through AWS
Systems Manager (SSM) and mirrors each instance's stdout and stderr from
CloudWatch Logs to the terminal. The user names the instances with
`key=value[,value…]` selectors and may cap their number with a target limit.
In the poll-loop variant, a limit of 0 sends the selectors to SSM as tag
targets. Any other limit makes the tool ask EC2 for the matching instances,
shuffle each reservation, and send the first instance IDs up to the limit.
The batched variant always resolves the selectors to instance IDs that way.
There, a limit below 1 sends every eligible instance.

The repository has two variants of the command library:

* the **poll-loop** variant (`lib/Command.go`, `lib/Invocation.go`,
  `lib/Invocations.go`) polls `ListCommands` and `ListCommandInvocations`. It
  starts the log readers of each instance once, stops when every invocation
  and the command itself are finished, and folds the invocation statuses into
  the exit code;
* the **batched** variant (`lib/command.go`, `lib/cloudwatch.go`) always adds
  the `instance-state-name=running` selector and skips Windows instances. It
  sends the chosen IDs in batches of 50 and starts the log readers of every
  instance in a batch.

`lib/utilities.go` holds two helpers that both variants share.

## How the model is organised

| module | file | what it holds |
|---|---|---|
| `Outcomes` | outcomes.dfy | `Option` and `Result` |
| `Text` | text.dfy | `strings.Split`, `strings.SplitN(…, 2)`, `strings.Join` and `%d` on strings |
| `Selectors` | selectors.dfy | selector parsing (`targets`) and `toFilter` |
| `Ssm` | ssm.dfy | the SSM records, the status names, the shared part of `SendCommandInput`, and the friendly status text |
| `Selection` | selection.dfy | `randomTargets`: the `rand.Shuffle` Fisher–Yates pass in place on an array, the Windows skip, and the limit |
| `Logs` | logs.dfy | log stream names, the two readers per instance, and the paging loop `streamFromCloudwatch` |
| `Utilities` | utilities.dfy | `toString` and `randomSeconds` |
| `PollLoop` | pollloop.dfy | the poll-loop `Command` class, `areDone`, and the invocation map |
| `Batched` | batched.dfy | the batched `Command` class and the batching of instance IDs |

### What each outside service becomes

* **`DescribeInstances` and `SendCommand`** are function parameters: a
  function from the request to `Ok(reply)` or `Err(message)`.
* **`ListCommands`, `ListCommandInvocations` and `GetLogEvents`** are called
  in unbounded loops. Their replies are a finite script that the loop consumes
  one reply per call. When the script ends, the model run ends
  (`ScriptEnded`, `ScriptExhausted`), so nothing here claims that a loop ever
  finishes.
* **The random numbers of `rand.Shuffle` and `rand.Intn`** are a parameter
  (`draws`). The Fisher–Yates step `i` swaps position `i` with
  `draws[step] % (i + 1)`.
* **Go's map iteration order** is unspecified. The model keeps it
  unspecified: `ToString` chooses each key with `:|` and reports the order it
  used in a ghost out-parameter.
* **Nil pointers.** When the code dereferences nil, the model returns an
  explicit outcome: `Panic`/`Panicked` in the poll loop and `NilDereference`
  in the log reader. The model assumes that the SDK returns a nil output
  together with an error. Under that assumption, `output.CommandInvocations`
  after a failed `ListCommandInvocations` is such a case. So is
  `logEvents.Events` after an AWS error other than `ResourceNotFoundException`.
* **`log.Fatal`** becomes the reader end `Fatal(message)`.

### Behaviour of the code worth knowing

* A selector is split at its first `=` only, so a value may contain `=`.
  A selector with nothing after `=` yields the single value `""`, not an
  empty list (`Selectors.ParseSelector`).
* `areDone` counts completed invocations and compares the count with the map
  size. An empty map is therefore done (`PollLoop.AreDone`).
* The command counts as done only for `StatusDetails` `NoInstancesInTag` and
  `Success`. The other terminal details (`Failed`, `TimedOut`, …) keep the poll
  loop running (`PollLoop.CommandDone`).
* The batched `Run` returns at the first batch `SendCommand` rejects. Later
  batches are not sent (`Batched.Command.Run`, `Batched.StoppedAt`).
* Both log readers write through a logger on standard output. The `w` writer
  they are handed is never used, so stderr content goes to standard output.
* When a log reader gets an AWS error other than `ResourceNotFoundException`,
  the code does not return or retry: it goes on to read the reply. Under the
  nil-output assumption above, that reply is nil (`Logs.EndFor`). A non-AWS
  error ends the whole process through `log.Fatal`, not only that reader.
* Only the batched variant filters on running state and skips Windows
  instances.
* Both variants return the global `exitCode`. The poll loop sets it to 1 when
  an invocation did not succeed and otherwise leaves it as it was. The batched
  variant's write to it happens only in `WaitForInstance`, which is not part
  of this model.

## Model

| member | source | states |
|---|---|---|
| Text.Split | lib/Command.go:217 | splitting at a separator yields at least one part, no part holds the separator, and joining the parts with it gives the string back |
| Text.SplitJoin | lib/Command.go:217 | splitting a join of separator-free parts gives the same parts back |
| Text.SplitFirst | lib/Command.go:211 | `SplitN(s, sep, 2)` has two parts exactly when `sep` occurs; the first part is then the text before the first `sep`, and the second is the rest |
| Text.DecimalRoundTrip | lib/Command.go:106 | the `%d` text of any integer, negative ones included, parses back to that integer |
| Text.DecimalInjective | lib/Command.go:106 | different timeouts give different `executionTimeout` texts |
| Selectors.ParseSelector | lib/Command.go:211-218 | a selector is malformed exactly when it has no `=`; otherwise its key has no `=`, its values are non-empty and comma-free, and key `=` values-joined-by-commas is the selector |
| Selectors.ParseTargetsOk | lib/Command.go:208-222 | parsing succeeds exactly when every selector has an `=`, and then yields one target per selector, in order |
| Selectors.ParseTargetsErr | lib/Command.go:210-214 | a failed parse names the first selector without `=`, and every earlier selector parsed |
| Selectors.ErrPersists | lib/command.go:163-167 | once a prefix of the selectors fails, the whole list fails with the same error |
| Selectors.Targets | lib/command.go:161-175 | the loop over the selectors returns what `ParseTargets` specifies |
| Selectors.ToFilter | lib/Command.go:254-262 | one EC2 filter per target, in order, with the target's key as name and its values |
| Ssm.CommandTextRoundTrip | lib/Command.go:105 | space-free arguments can be recovered by splitting the `commands` text at spaces |
| Ssm.BaseInput | lib/Command.go:92-107 | the request has a 30-second timeout, the shell-script document, the knobs copied from the command and output enabled to the log group; its only parameters are `commands`, the arguments joined by single spaces, and `executionTimeout`, the timeout in decimal |
| Ssm.BaseInputParameters | lib/Command.go:104-107 | the argument list can be recovered from `commands` when no argument holds a space, and `executionTimeout` parses back to the timeout |
| Ssm.FriendlyStatus | lib/Command.go:156-166 | `NoInstancesInTag` and `Success` are reworded; every other detail is shown as is |
| Selection.ShuffleFromPermutes | lib/Command.go:236-238 | the remaining Fisher–Yates steps from any position only permute the reservation |
| Selection.ShufflePermutes | lib/Command.go:236-238 | the shuffle of a reservation is a permutation of it, whatever the random draws |
| Selection.ShuffleInPlace | lib/command.go:189-191 | the swaps done in place on the array leave exactly the specified shuffle of its old contents |
| Selection.Shuffled | lib/Command.go:233-238 | every reservation is shuffled on its own: group k is a permutation of reservation k |
| Selection.ShuffledPermutes | lib/Command.go:233-238 | each shuffled group has the same instances as its reservation |
| Selection.Choose | lib/Command.go:240-251 | the selection fails exactly when there is no candidate; otherwise it is a non-empty prefix of the candidates, `limit` long when there are that many, and all of them for a limit below 1 |
| Selection.EligibleIdsPermutation | lib/command.go:193-201 | permuting a reservation permutes the IDs it contributes |
| Selection.CandidatesPermutation | lib/command.go:186-205 | permuting each reservation permutes the candidate IDs |
| Selection.ShuffledCandidates | lib/command.go:186-205 | after the shuffle the candidates are a permutation of the eligible instances reported, so their number does not depend on the draws |
| Selection.InCandidates | lib/command.go:193-201 | every candidate is the ID of an eligible instance of some reservation |
| Selection.ChosenAreEligible | lib/command.go:193-201 | every chosen ID belongs to an instance `DescribeInstances` reported, and with the Windows skip on, that instance is not Windows |
| Selection.SelectionSize | lib/command.go:202-210 | the selection fails exactly when no instance is eligible; it has `limit` IDs when at least that many are eligible, otherwise all of them |
| Selection.CollectedPrefix | lib/command.go:193-205 | the IDs collected before an early return are a prefix of all the candidates |
| Selection.CollectGroup | lib/command.go:193-205 | one reservation's loop appends the eligible IDs it passes and stops as soon as the limit is reached |
| Selection.RandomTargets | lib/command.go:177-212 | shuffling each reservation's array in place and collecting eligible IDs up to the limit gives `SelectTargets`; a `DescribeInstances` error is passed on |
| Logs.StreamNameParts | lib/cloudwatch.go:28 | a stream name splits at `/` into command ID, instance ID, `aws-runShellScript` and channel |
| Logs.ChannelsDiffer | lib/Invocation.go:36-46 | the stdout and stderr streams of an invocation have different names |
| Logs.ReaderChannels | lib/cloudwatch.go:19-42 | each instance gets two readers, stdout then stderr, on the given log group, each reading the stream of its own channel; the two streams are distinct |
| Logs.ReaderStreams | lib/Invocation.go:33-48 | each reader's stream name splits back into the command ID, the instance ID, `aws-runShellScript` and that reader's channel |
| Logs.WriteEvents | lib/cloudwatch.go:72-74 | the loop over a page's events appends one printed line per message, in order, to what was written |
| Logs.StreamFromCloudwatch | lib/cloudwatch.go:44-85 | each request reads from the head of the stream with the latest forward token seen; the reader outlives the script exactly when every reply lets it go on; otherwise it ends as the first reply that does not dictates |
| Logs.TokenHandoff | lib/Invocation.go:84-86 | a page's non-empty forward token is sent with the next request |
| Logs.NotFoundKeepsPosition | lib/Invocation.go:71-74 | a `ResourceNotFoundException` reply changes neither the token nor the output, so the retry asks for the same position |
| Logs.TokenIsLatest | lib/Invocation.go:54-86 | the stored token is `""` when no page carried a forward token, and otherwise exactly the token of the last page that carried one |
| Logs.TextAppend | lib/Invocation.go:80-88 | the printed lines and the flushes of two output runs add up |
| Logs.TextOfLines | lib/Invocation.go:80-82 | printing a page's events gives back its messages and no flush |
| Logs.PageStep | lib/cloudwatch.go:72-80 | writing one page adds exactly its messages and one flush to what was written before |
| Logs.OutputIsPages | lib/Invocation.go:80-88 | the printed lines are all the page messages in order, with one flush per page |
| Utilities.ToString | lib/utilities.go:9-16 | the map's keys are visited once each in some order, and the output is every value of every key on its own indented line; it is empty exactly when every value list is empty |
| Utilities.AllValuesEmpty | lib/utilities.go:10-14 | the values gathered are empty exactly when every visited key has no values |
| Utilities.ToStringEmpty | lib/utilities.go:9-16 | the text is empty exactly when every value list is empty, whatever the key order |
| Utilities.RenderedIsJoin | lib/utilities.go:9-16 | the output is the indented values joined by newlines, plus a final newline |
| Utilities.OneLinePerValue | lib/utilities.go:9-16 | when no value holds a newline, the output splits into exactly one indented line per value and an empty tail |
| Utilities.RandomSeconds | lib/utilities.go:18-21 | the pause is a whole number of seconds in `[0, i)` |
| PollLoop.AreDone | lib/Invocations.go:11-47 | the count of completed invocations equals the map size exactly when every invocation is Cancelled, Failed, Success or TimedOut, which the empty map satisfies |
| PollLoop.MergeKeepsEntries | lib/Command.go:196-203 | a listing adds the listed instances and removes none; an entry's streaming flag survives, and a new entry starts not streaming |
| PollLoop.MergeKeepsUnlisted | lib/Command.go:196-203 | an instance the listing does not name keeps its entry unchanged |
| PollLoop.MergeRecordsLatest | lib/Command.go:202 | a listed instance's entry holds the last invocation listed for it |
| PollLoop.MergeKeepsStarted | lib/Command.go:196-203 | a listing does not undo the record of which readers were started |
| PollLoop.StartingKeepsStarted | lib/Command.go:63-71 | after another starting pass, the entries started so far are, once each, exactly those streaming now that were not at the start |
| PollLoop.DoneExactlyWhenReworded | lib/Command.go:156-179 | the command is done exactly for the two details `Status` rewords |
| PollLoop.Request | lib/Command.go:91-122 | a malformed selector or a failed selection is the error; with a limit of 0 a parsed selector list always gives a request, with the selectors as targets; with another limit the request carries only the chosen instance IDs; the rest of the request is the shared base |
| PollLoop.Command.RunCommand | lib/Command.go:91-132 | the command records the reply to the request, or reports why there is none and stays unsent |
| PollLoop.Command.UpdateStatus | lib/Command.go:135-153 | an unsent command is an error; a failed listing is an error; otherwise the command becomes the last one listed, or stays as it was when none is listed |
| PollLoop.Command.UpdateInvocationList | lib/Command.go:182-206 | an unsent command is an error; a failed listing ends in a nil dereference; otherwise every listed invocation is merged into the map |
| PollLoop.AllStartedIsStartAll | lib/Command.go:63-71 | whatever order the map is visited in, the starting pass leaves every entry marked streaming and nothing else changed |
| PollLoop.StreamsOfPairs | lib/Invocation.go:27-48 | the readers of the entries started come in pairs, entry `k`'s stdout then stderr reader on its listed log group, command and instance |
| PollLoop.PollExits | lib/Command.go:43-88 | in the specified polling, an error exit has code 1; a clean exit happens only after the loop was left on a command that was done, leaves every invocation completed and returns the folded exit code |
| PollLoop.PollKeepsEntries | lib/Command.go:49-75 | no invocation entry is dropped while polling |
| PollLoop.PollIgnoresUnread | lib/Command.go:49-88 | a run that did not run out of replies ends the same whatever replies follow the ones it read |
| PollLoop.Command.Status | lib/Command.go:156-166 | `NoInstancesInTag` and `Success` are reworded; any other detail, which leaves the command not done, is shown as it is |
| PollLoop.Command.StartStreams | lib/Command.go:63-71 | every entry that was not streaming is started, once, and marked streaming; the readers returned are the two of each started entry, in start order; nothing else changes |
| PollLoop.Command.PollRounds | lib/Command.go:49-88 | each round updates the status, merges the listing, and either leaves the loop (every invocation completed and the command done) or starts the new entries; the end, the final command and the invocation map are exactly those `Poll` specifies |
| PollLoop.Command.FoldExitCode | lib/Command.go:81-85 | the exit code becomes 1 when some invocation did not succeed, and otherwise keeps its value |
| PollLoop.Command.Run | lib/Command.go:43-88 | a request or `SendCommand` error exits with code 1 and that error, changing nothing; after a successful send the run ends as `Poll` specifies, with that command and map; an error exit has code 1; a clean exit happens only after the loop was left on a command that was done, with every invocation completed, and returns the folded exit code; the entries started are, once each, exactly those that became streaming |
| Batched.SelectorOfParts | lib/command.go:164-171 | a one-value selector parses to its key and that value |
| Batched.RunningSelectorParses | lib/command.go:47 | the appended selector parses to `instance-state-name` with the one value `running` |
| Batched.RunningTargetLast | lib/command.go:47-52 | with the running selector appended, a successful parse ends with the running-state target |
| Batched.Batches | lib/command.go:60-72 | there are ⌈n/50⌉ batches |
| Batched.BatchSlice | lib/command.go:62-66 | batch k is the slice of IDs from 50·k up to 50·k+50 or the end |
| Batched.BatchesCover | lib/command.go:60-72 | the batches, concatenated, are the chosen IDs in order, and each holds 1 to 50 IDs |
| Batched.StreamsForPairs | lib/command.go:107-111 | each instance of a batch gets its stdout and stderr readers, in batch order |
| Batched.ChosenInstances | lib/command.go:54-58 | a `DescribeInstances` error is the error; otherwise the choice fails exactly when no non-Windows instance was reported, holds only reported non-Windows instances, and has `limit` of them when there are that many and all of them otherwise |
| Batched.CommandIsLastAccepted | lib/command.go:60-72 | after the batches sent, the recorded command is the one SSM returned for the last accepted batch, or the earlier one when none was accepted |
| Batched.ReadersCount | lib/command.go:107-111 | when every batch sent is accepted, two readers are started per instance sent |
| Batched.Command.Status | lib/command.go:145-159 | an unsent command reports "command not yet started"; otherwise its details are shown friendly |
| Batched.Command.RunCommand | lib/command.go:78-117 | one batch is sent with the shared base request and those IDs; on success the command is recorded and the readers of every instance start; on failure nothing changes but the error |
| Batched.Command.SubmitBatches | lib/command.go:60-74 | batches are sent in order until one is rejected; a rejection returns code 1 and that error; success means every batch was sent and accepted, and returns the global exit code with two readers per chosen ID; the recorded command and the readers returned are those the batches sent leave |
| Batched.Command.ChooseTargets | lib/command.go:49-58 | parsing the selectors and the random selection give exactly the choice `ChosenInstances` describes |
| Batched.Command.Run | lib/command.go:44-75 | the running selector is appended to the command's selectors; a selection error returns code 1, sends nothing and starts no reader; otherwise the batches of the chosen IDs are sent as `SubmitBatches` states: a returned error means the last batch sent was rejected, and success means every batch was accepted, with two readers per chosen ID; the recorded command and readers are those the batches sent leave |

## Left out

- Goroutines, `sync.WaitGroup` and the races between readers: each reader is modelled on its own, and starting a reader is recorded, not run.
- `WaitForInstance` and `WaitUntilCommandExecuted` (lib/command.go:120-142) are not part of this model. So the batched `Run` returns the exit code as it was before the batch, and the closing ten-second sleep after each batch is also omitted.
- `time.Sleep`, `randomSeconds` jitter between polls and `rand.Seed` are left out: time is not modelled, and the random numbers are the `draws` parameter.
- The `logstreamer` line formatting, the instance-ID prefix of the logger and the unused `w` writer are not part of this model. Output is the sequence of printed message lines and flushes.
- AWS sessions, clients and credentials, `cmd/root.go` flag parsing and `main.go` are not part of this model. The command-line values arrive as `Ssm.Options`.
- The poll loop, the log reader and the listings are unbounded in the code. They are modelled over finite scripts of replies, so nothing is claimed about termination.
- `PollLoop.Command.Status`: requires a sent command. The command line (cmd/root.go:27-32) calls `Status` after every `Run`, failed ones included. After a failed send the code dereferences the nil command there and panics; the model leaves that panic out through the requires.
- `Text.DecimalRoundTrip`: integers are unbounded; the `int` width of `ExecutionTimeout` and the `time.Duration` overflow of `randomSeconds` are not modelled.
- `DryRun`, `invocationErrors`, `stopStreaming` and the unused `executionTimeout` variable are never read by the core and are left out.
- `PollLoop.Command.UpdateStatus`: the `CommandId` and `MaxResults: 1` of the `ListCommands` request are not recorded; only the reply is modelled.
- `PollLoop.Command.UpdateInvocationList`: the model assumes the SDK returns a nil output on error, so a failed listing is a panic rather than a returned error.
- `Logs.EndFor`, `PollLoop.Command.UpdateInvocationList`: the model does not cover an SDK that returns an empty, non-nil output together with the error. With such an SDK, a failed `ListCommandInvocations` would make the poll-loop `Run` return code 1 and that error. An AWS error other than `ResourceNotFoundException` from `GetLogEvents`, such as throttling, would make the reader flush, sleep and retry with the same token.
- In the poll loop, `Invocation.Stream` is represented by the two `Logs.Readers` for the log group, command ID and instance ID of the entry's latest listing; `StartStreams` returns them, and `Run` does not pass them on, as the code keeps no handle on its goroutines.
- Instance IDs are not claimed to be distinct: the code does not deduplicate them, and `DescribeInstances` is an arbitrary function here.
