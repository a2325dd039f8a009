/**
  Capturing what a child process writes, and what the caller is given of it. The process itself is an
  oracle: what it writes, in what portions, and how it ends are inputs.
*/
module Execution {
  import opened Redaction
  import opened Environment

  const TRUNCATED := "\n<output truncated by key-session>\n"
  const MAXIMUM_CAPTURED := 1024 * 1024

  /** What a buffer with room for `room` bytes keeps of a stream. */
  function Kept(stream: string, room: nat): string {
    if |stream| > room then stream[..room] else stream
  }

  /** How the kept part is shown. */
  function Shown(stream: string, room: nat): string {
    if |stream| > room then Kept(stream, room) + TRUNCATED else stream
  }

  class BoundedBuffer {
    var contents: string
    var remaining: int
    var truncated: bool
    /** Everything written so far, and the room there was. */
    ghost var stream: string
    ghost const room: nat

    ghost predicate Valid()
      reads this
    {
      && contents == Kept(stream, room)
      && remaining == room - |contents|
      && truncated == (|stream| > room)
    }

    constructor (maximumBytes: nat)
      ensures Valid() && stream == "" && room == maximumBytes
    {
      contents, remaining, truncated := "", maximumBytes, false;
      stream, room := "", maximumBytes;
    }

    /** However a stream is split, the buffer ends with its first bytes, and never fails its writer. */
    method Write(bytes: string) returns (written: nat)
      requires Valid()
      modifies this
      ensures Valid() && stream == old(stream) + bytes
      ensures written == |bytes|
    {
      written := |bytes|;
      var taken := bytes;
      if |bytes| > remaining {
        taken := bytes[..remaining];
        truncated := true;
      }
      contents := contents + taken;
      remaining := remaining - |taken|;
      stream := stream + bytes;
    }

    method String() returns (text: string)
      requires Valid()
      ensures text == Shown(stream, room)
    {
      text := contents;
      if truncated {
        text := text + TRUNCATED;
      }
    }
  }

  function Flat(portions: seq<string>): string {
    if portions == [] then "" else Flat(portions[..|portions| - 1]) + portions[|portions| - 1]
  }

  // --------------------------------------------------------------------------- one command

  datatype Ending = Exited(code: int) | TimedOut | Failed(message: string)

  datatype CommandResult = CommandResult(exitCode: int, stdout: string, stderr: string)

  const NO_PROGRAM := "exec requires a program after --"

  const SECOND := 1_000_000_000
  const MINUTE := 60 * SECOND

  /** How long the process may run: what was asked, or five minutes when that is out of range. */
  function Limit(timeout: int): int {
    if timeout < SECOND || timeout > 30 * MINUTE then 5 * MINUTE else timeout
  }

  /** What the process is started with. */
  datatype Child = Child(program: string, arguments: seq<string>, environment: seq<string>, limit: int)

  /** The message of a timeout, before the text of the duration. */
  const TIMED_OUT := "command timed out after "

  /** What a caller is told, said of the whole streams. */
  function Report(arguments: seq<string>, values: seq<string>, ending: Ending, timeout: int, show: int -> string,
                  out: string, err: string): CommandResult
  {
    if arguments == [] then CommandResult(2, "", NO_PROGRAM)
    else
      var said := Redacted(Shown(out, MAXIMUM_CAPTURED), values);
      match ending
      case TimedOut => CommandResult(124, "", TIMED_OUT + show(Limit(timeout)))
      case Exited(code) => CommandResult(code, said, Redacted(Shown(err, MAXIMUM_CAPTURED), values))
      case Failed(message) => CommandResult(1, said, Redacted(Shown(err + message, MAXIMUM_CAPTURED), values))
  }

  /**
    `runCommand`: the process `start`ed writes the portions and ends. The values to redact, found by
    parsing the secret as a URL, are an input.
  */
  method RunCommand(environment: seq<string>, variable: string, secret: string, arguments: seq<string>,
                    values: seq<string>, ending: Ending, timeout: int, show: int -> string,
                    out: seq<string>, err: seq<string>)
    returns (result: CommandResult, start: seq<Child>)
    ensures result == Report(arguments, values, ending, timeout, show, Flat(out), Flat(err))
    ensures start == if arguments == [] then []
                     else [Child(arguments[0], arguments[1..], With(Minimal(environment), variable, secret),
                                 Limit(timeout))]
  {
    var limit := timeout;
    if limit < SECOND || limit > 30 * MINUTE {
      limit := 5 * MINUTE;
    }
    if |arguments| == 0 {
      return CommandResult(2, "", NO_PROGRAM), [];
    }
    var minimal := MinimalEnvironment(environment);
    var env := WithEnvironment(minimal, variable, secret);
    start := [Child(arguments[0], arguments[1..], env, limit)];
    var standardOutput := new BoundedBuffer(MAXIMUM_CAPTURED);
    var standardError := new BoundedBuffer(MAXIMUM_CAPTURED);
    WriteAll(standardOutput, out);
    WriteAll(standardError, err);
    assert standardOutput.stream == Flat(out) && standardError.stream == Flat(err);
    var exitCode := 0;
    match ending {
      case TimedOut =>
        return CommandResult(124, "", TIMED_OUT + show(limit)), start;
      case Exited(code) =>
        exitCode := code;
      case Failed(message) =>
        exitCode := 1;
        var _ := standardError.Write(message);
    }
    var shownOutput := standardOutput.String();
    var shownError := standardError.String();
    var stdout := Redact(shownOutput, values);
    var stderr := Redact(shownError, values);
    result := CommandResult(exitCode, stdout, stderr);
  }

  method WriteAll(buffer: BoundedBuffer, portions: seq<string>)
    requires buffer.Valid()
    modifies buffer
    ensures buffer.Valid() && buffer.stream == old(buffer.stream) + Flat(portions)
  {
    for i := 0 to |portions|
      invariant buffer.Valid() && buffer.stream == old(buffer.stream) + Flat(portions[..i])
    {
      assert portions[..i + 1][..i] == portions[..i];
      var _ := buffer.Write(portions[i]);
    }
    assert portions[..|portions|] == portions;
  }

  // --------------------------------------------------------------------------- what is promised

  /**
    No sensitive value clear of the marker is in what the caller gets, except that the two fixed
    messages are not redacted: those are clean exactly when they are clean themselves.
  */
  lemma NothingSensitiveIsReported(arguments: seq<string>, values: seq<string>, ending: Ending, timeout: int,
                                   show: int -> string, out: string, err: string)
    requires forall v :: v in values && v != "" ==> !Overlaps(v)
    ensures var r := Report(arguments, values, ending, timeout, show, out, err);
            && Clean(r.stdout, values)
            && (Clean(r.stderr, values) <==>
                if arguments == [] then Clean(NO_PROGRAM, values)
                else ending.TimedOut? ==> Clean(TIMED_OUT + show(Limit(timeout)), values))
  {
    RedactingTwice(Shown(out, MAXIMUM_CAPTURED), values);
    RedactingTwice(Shown(err, MAXIMUM_CAPTURED), values);
    if ending.Failed? {
      RedactingTwice(Shown(err + ending.message, MAXIMUM_CAPTURED), values);
    }
  }

  /** Output that fits and holds no sensitive value reaches the caller byte for byte. */
  lemma CleanOutputIsKept(arguments: seq<string>, values: seq<string>, code: int, timeout: int, show: int -> string,
                          out: string, err: string)
    requires arguments != [] && |out| <= MAXIMUM_CAPTURED && |err| <= MAXIMUM_CAPTURED
    requires Clean(out, values) && Clean(err, values)
    ensures Report(arguments, values, Exited(code), timeout, show, out, err) == CommandResult(code, out, err)
  {
    CleanTextStands(out, values);
    CleanTextStands(err, values);
  }

  // --------------------------------------------------------------------------- what the numbers mean

  /** A child runs for a second to half an hour: as long as was asked, or five minutes. */
  lemma LimitMeans(timeout: int)
    ensures 1_000_000_000 <= Limit(timeout) <= 1_800_000_000_000
    ensures Limit(timeout) == timeout <==> 1_000_000_000 <= timeout <= 1_800_000_000_000
    ensures Limit(timeout) == timeout || Limit(timeout) == 300_000_000_000
  {
  }

  /** The exit code is the child's own when it ran to its end; and without a program, or in time, nothing is shown. */
  lemma ExitCodeMeans(arguments: seq<string>, values: seq<string>, ending: Ending, timeout: int, show: int -> string,
                      out: string, err: string)
    ensures var r := Report(arguments, values, ending, timeout, show, out, err);
            && r.exitCode == (if arguments == [] then 2 else if ending.TimedOut? then 124
                              else if ending.Exited? then ending.code else 1)
            && (arguments == [] || ending.TimedOut? ==> r.stdout == "")
            && (arguments == [] ==> r.stderr == "exec requires a program after --")
            && (arguments != [] && ending.TimedOut? ==> r.stderr == "command timed out after " + show(Limit(timeout)))
  {
  }

  /** Longer output reaches the caller cut to its first mebibyte, with a notice; so does an error that follows it. */
  lemma LongOutputIsCut(arguments: seq<string>, values: seq<string>, ending: Ending, timeout: int,
                        show: int -> string, out: string, err: string)
    requires arguments != [] && !ending.TimedOut? && |out| > 1_048_576
    requires Clean(out[..1_048_576] + "\n<output truncated by key-session>\n", values)
    ensures Report(arguments, values, ending, timeout, show, out, err).stdout ==
            out[..1_048_576] + "\n<output truncated by key-session>\n"
  {
    CleanTextStands(Shown(out, MAXIMUM_CAPTURED), values);
  }

  /** What could not be run is said after what the child had written. */
  lemma FailureIsTold(arguments: seq<string>, values: seq<string>, message: string, timeout: int, show: int -> string,
                      out: string, err: string)
    requires arguments != [] && |err + message| <= 1_048_576 && Clean(err + message, values)
    ensures Report(arguments, values, Failed(message), timeout, show, out, err).stderr == err + message
  {
    CleanTextStands(err + message, values);
  }
}
