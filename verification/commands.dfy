/** Command lines as go-utils' `command.Model` holds them: a program name and its
    arguments, plus the outcome of running one, which the model receives as an input. */
module Commands {
  import opened Results

  datatype Cmd = Cmd(name: string, args: seq<string>)

  /** The full argument vector, program first. */
  function Argv(c: Cmd): (argv: seq<string>)
    ensures |argv| == |c.args| + 1 && argv[0] == c.name && argv[1..] == c.args
  {
    [c.name] + c.args
  }

  /** `command.New(slice[0], slice[1:]...)`: a command from a slice known to be non-empty. */
  function FromSlice(slice: seq<string>): (c: Cmd)
    requires |slice| > 0
    ensures Argv(c) == slice
  {
    Cmd(slice[0], slice[1..])
  }

  /** `command.NewFromSlice`: an empty slice is refused, otherwise the first token is
      the program and the rest are its arguments. */
  function NewFromSlice(slice: seq<string>): (r: Result<Cmd>)
    ensures r.Ok? <==> |slice| > 0
    ensures r.Ok? ==> Argv(r.value) == slice
  {
    if |slice| == 0 then Err("no command provided") else Ok(Cmd(slice[0], slice[1..]))
  }

  /** What happened when a command ran: success, a non-zero exit status with the
      combined (trimmed) output, or a failure to run it at all. */
  datatype RunResult = Succeeded | ExitFailure(output: string) | StartFailure(reason: string)

  /** An error returned because a command failed; it keeps the command and what the
      run reported, the two things the source's error messages are built from. */
  datatype CommandError = CommandError(cmd: Cmd, result: RunResult)

  /** The error a run produces: none on success, the command and its outcome otherwise. */
  function ErrorOf(cmd: Cmd, result: RunResult): (e: Option<CommandError>)
    ensures e.None? <==> result.Succeeded?
    ensures e.Some? ==> e.value.cmd == cmd && e.value.result == result
  {
    if result.Succeeded? then None else Some(CommandError(cmd, result))
  }
}
