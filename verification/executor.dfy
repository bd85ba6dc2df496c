/** ffprobe's JSON reply, as the decoder sees it once the bytes have been
    parsed: the fields the probes ask for (`-show_entries`) and nothing else. */
module ProbeJson {

  /** The JSON value of a side-data entry's `rotation` field. ffprobe writes a
      number; `Missing` stands for an absent field or `null`; `Other` for a
      boolean, object or array. */
  datatype SideValue = Number(x: real) | Text(s: string) | Missing | Other

  datatype Stream = Stream(
    width: int,
    height: int,
    avgFrameRate: string,              // "" when absent
    codecName: string,                 // "" when absent
    tags: map<string, string>,         // empty when absent
    sideData: seq<SideValue>)          // one entry per element of side_data_list

  datatype Doc = Doc(streams: seq<Stream>)
}

/** The command-execution abstraction (internal/executor): errors, replies,
    the call log every invocation extends, and the real executor's decision
    to wrap a failure in a `CommandError`. */
module Executor {
  import opened Wrappers
  import opened GoStrings
  import opened ProbeJson

  /** Go `error` values as the model distinguishes them. */
  datatype Error =
    | Failure(message: string)                     // errors.New / fmt.Errorf without %w
    | Wrapped(context: string, cause: Error)       // fmt.Errorf("<context>: %w", cause)
    | CommandError(command: string, args: seq<string>, stderr: string, cause: Error)

  /** `err.Error()`. */
  function ErrorText(e: Error): string {
    match e
    case Failure(m) => m
    case Wrapped(c, cause) => c + ": " + ErrorText(cause)
    case CommandError(_, _, stderr, cause) =>
      if stderr != "" then ErrorText(cause) + ": " + stderr else ErrorText(cause)
  }

  /** `errors.Unwrap`: the wrapped cause, if any. */
  function Unwrap(e: Error): (r: Option<Error>)
    ensures r.Some? <==> !e.Failure?
  {
    match e
    case Failure(_) => None
    case Wrapped(_, cause) => Some(cause)
    case CommandError(_, _, _, cause) => Some(cause)
  }

  /** `errors.Is(e, target)` for values compared with `==`: `target` is `e`
      or is reached from it by unwrapping. */
  predicate Is(e: Error, target: Error) {
    || e == target
    || match e
       case Failure(_) => false
       case Wrapped(_, cause) => Is(cause, target)
       case CommandError(_, _, _, cause) => Is(cause, target)
  }

  /** Resource usage of one finished invocation. */
  datatype Usage = Usage(userTime: real, systemTime: real, maxMemory: int)

  /** A command's standard output: its text, and what `json.Unmarshal` reads
      from it (`None` when it is not JSON at all). */
  datatype Output = Output(text: string, doc: Option<Doc>)

  /** A nil `[]byte`. */
  const NoOutput: Output := Output("", None)

  datatype Call = Call(name: string, args: seq<string>)

  /** The three results of `Execute`: output, usage (nil = `None`), error. */
  datatype Reply = Reply(output: Output, usage: Option<Usage>, err: Option<Error>)

  /** An executor, as seen by its callers: the reply it gives to the n-th
      invocation (counted from the start of the log) of a call. */
  type Responder = (nat, Call) -> Reply

  /** One `Execute`: the call is logged and the responder answers it. */
  function Execute(respond: Responder, log: seq<Call>, c: Call): (r: (seq<Call>, Reply))
    ensures |r.0| == |log| + 1 && r.0[..|log|] == log && r.0[|log|] == c
    ensures r.1 == respond(|log|, c)
  {
    (log + [c], respond(|log|, c))
  }

  /** Number of logged calls named `name`. */
  function CountCalls(log: seq<Call>, name: string): nat {
    if |log| == 0 then 0
    else CountCalls(log[..|log| - 1], name) + (if log[|log| - 1].name == name then 1 else 0)
  }

  /** Counting distributes over concatenated logs. */
  lemma {:induction false} CountCallsConcat(a: seq<Call>, b: seq<Call>, name: string)
    ensures CountCalls(a + b, name) == CountCalls(a, name) + CountCalls(b, name)
    decreases |b|
  {
    if |b| == 0 {
      assert a + b == a;
    } else {
      assert (a + b)[..|a + b| - 1] == a + b[..|b| - 1];
      CountCallsConcat(a, b[..|b| - 1], name);
    }
  }

  /** `CommandError.Error()` carries stderr after the cause's message, and
      is the cause's message alone when stderr is empty. */
  lemma CommandErrorText(command: string, args: seq<string>, stderr: string, cause: Error)
    ensures var t := ErrorText(CommandError(command, args, stderr, cause));
      && ErrorText(cause) <= t
      && (stderr == "" <==> t == ErrorText(cause))
      && (stderr != "" ==> t[|ErrorText(cause)|..] == ": " + stderr)
  {
  }

  /** `CommandError.Unwrap()` returns the cause unchanged, so `errors.Is`
      finds the cause through the wrapper. */
  lemma CommandErrorUnwrap(command: string, args: seq<string>, stderr: string, cause: Error)
    ensures Unwrap(CommandError(command, args, stderr, cause)) == Some(cause)
    ensures Is(CommandError(command, args, stderr, cause), cause)
  {
  }

  /** What a finished process left behind: its buffered stdout, its captured
      stderr, and the error `cmd.Run`/`cmd.Wait` returned. */
  datatype ProcessRun = ProcessRun(stdout: string, stderr: string, exit: Option<Error>)

  /** The real executor's result for a finished process: the buffered stdout
      on success; on failure no output and, when stderr captured anything, a
      `CommandError` naming the invocation, otherwise the raw error. */
  function Finish(name: string, args: seq<string>, run: ProcessRun): (r: Result<string, Error>)
    ensures run.exit.None? <==> r.Ok?
    ensures r.Ok? ==> r.value == run.stdout
    ensures r.Err? && run.stderr != "" ==>
      r.error.CommandError? && r.error.command == name && r.error.args == args
      && r.error.stderr == run.stderr
    ensures r.Err? ==> Is(r.error, run.exit.value)
    ensures r.Err? && run.stderr == "" ==> r.error == run.exit.value
  {
    match run.exit
    case None => Ok(run.stdout)
    case Some(e) =>
      if run.stderr != "" then Err(CommandError(name, args, run.stderr, e)) else Err(e)
  }

  /** A failed process's message mentions stderr exactly when stderr is not empty. */
  lemma FinishMessage(name: string, args: seq<string>, run: ProcessRun)
    requires run.exit.Some?
    ensures var t := ErrorText(Finish(name, args, run).error);
      && ErrorText(run.exit.value) <= t
      && (run.stderr != "" ==> t == ErrorText(run.exit.value) + ": " + run.stderr)
      && (run.stderr == "" ==> t == ErrorText(run.exit.value))
  {
  }
}
