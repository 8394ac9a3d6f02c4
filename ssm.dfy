/** The SSM records the tool exchanges with the Remote Execution Service, and
    the parts of request building and status reporting that both variants
    share. */
module Ssm {
  import opened Outcomes
  import opened Text
  import opened Selectors

  /** The part of an `ssm.Command` the tool reads. */
  datatype SsmCommand = SsmCommand(commandId: string, statusDetails: string)

  /** The part of an `ssm.CommandInvocation` the tool reads: one instance's
      invocation of a command, and the log group its output is mirrored to. */
  datatype CommandInvocation = CommandInvocation(instanceId: string, commandId: string, status: string, logGroup: string)

  /** The eight invocation statuses the SSM API names. */
  const Pending := "Pending"
  const InProgress := "InProgress"
  const Delayed := "Delayed"
  const Success := "Success"
  const Cancelled := "Cancelled"
  const Cancelling := "Cancelling"
  const TimedOut := "TimedOut"
  const Failed := "Failed"

  const NoInstancesInTag := "NoInstancesInTag"
  const NoInstancesMessage := "no instances matched your targets"
  const SuccessMessage := "command exited successfully"

  /** Seconds SSM may take to deliver the command before giving up. */
  const RegistrationTimeout := 30
  const DocumentName := "AWS-RunShellScript"

  /** The fields of `Command` the command line fills in: the selectors, the
      target limit, the execution timeout, the SendCommand knobs and the
      argument list. */
  datatype Options = Options(
    targets: seq<string>,
    targetLimit: int,
    executionTimeout: int,
    maxConcurrency: string,
    maxErrors: string,
    comment: string,
    logGroup: string,
    command: seq<string>)

  /** An `ssm.SendCommandInput`, with its `Parameters` map. Nil slices are empty
      sequences. */
  datatype SendCommandInput = SendCommandInput(
    timeoutSeconds: int,
    documentName: string,
    instanceIds: seq<string>,
    targets: seq<Target>,
    maxConcurrency: string,
    maxErrors: string,
    comment: string,
    logGroup: string,
    outputEnabled: bool,
    parameters: map<string, seq<string>>)

  /** The argument list can be recovered from the `commands` parameter when
      there is at least one argument and none contains a space. */
  lemma CommandTextRoundTrip(command: seq<string>)
    ensures |command| >= 1 && (forall a :: a in command ==> ' ' !in a) ==> Split(Join(command, " "), ' ') == command
  {
    if |command| >= 1 && (forall a :: a in command ==> ' ' !in a) {
      SplitJoin(command, ' ');
    }
  }

  /** The request both variants build before choosing how to address the
      instances: a 30-second registration timeout, the shell-script document,
      output mirrored to the log group, the arguments joined by single spaces
      as `commands`, and the execution timeout in decimal as `executionTimeout`. */
  function BaseInput(options: Options): (input: SendCommandInput)
    ensures input.timeoutSeconds == RegistrationTimeout && input.documentName == DocumentName
    ensures input.instanceIds == [] && input.targets == []
    ensures input.maxConcurrency == options.maxConcurrency && input.maxErrors == options.maxErrors
    ensures input.comment == options.comment && input.logGroup == options.logGroup && input.outputEnabled
    ensures input.parameters.Keys == {"commands", "executionTimeout"}
    ensures input.parameters["commands"] == [Join(options.command, " ")]
    ensures input.parameters["executionTimeout"] == [Decimal(options.executionTimeout)]
  {
    SendCommandInput(
      RegistrationTimeout, DocumentName, [], [], options.maxConcurrency, options.maxErrors, options.comment,
      options.logGroup, true,
      map["commands" := [Join(options.command, " ")], "executionTimeout" := [Decimal(options.executionTimeout)]])
  }

  /** The two parameters carry the command and its timeout recoverably: the
      `commands` text splits back into the arguments when there is at least
      one and none contains a space, and the `executionTimeout` text parses
      back to the timeout. */
  lemma BaseInputParameters(options: Options)
    ensures var parameters := BaseInput(options).parameters;
            && (|options.command| >= 1 && (forall a :: a in options.command ==> ' ' !in a) ==>
                  Split(parameters["commands"][0], ' ') == options.command)
            && ParseDecimal(parameters["executionTimeout"][0]) == Some(options.executionTimeout)
  {
    CommandTextRoundTrip(options.command);
    DecimalRoundTrip(options.executionTimeout);
  }

  /** The error both variants return when `SendCommand` fails. */
  function SendCommandFailed(error: string): string
  {
    "Error invoking SendCommand: " + error
  }

  /** The message shown for a command's `StatusDetails`: two details are
      reworded, every other one is shown as it is. */
  function FriendlyStatus(details: string): (message: string)
    ensures details == NoInstancesInTag ==> message == NoInstancesMessage
    ensures details == Success ==> message == SuccessMessage
    ensures details != NoInstancesInTag && details != Success ==> message == details
  {
    if details == NoInstancesInTag then NoInstancesMessage
    else if details == Success then SuccessMessage
    else details
  }
}
