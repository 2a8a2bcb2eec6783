/**
 * The judge handler: from an invocation event and the facts the host
 * observes (the outcome of each I/O step, the compiler's result, the
 * outcome of the timed wait) to exactly one response.
 *
 * `Verdict` is the decision table the handler implements; `Handle` is the
 * handler itself, step by step with early returns, proved to give the
 * table's response. The lemmas state what the table promises.
 */
module Judge {
  import opened Wrappers
  import opened Text
  import opened Request
  import opened Toolchain
  import opened Verdicts

  /** An I/O step of the handler: it completed, or it raised an exception with this text. */
  datatype Step = Done | Raised(detail: string)

  /** What the compiler reported: its return code and its standard-error text. */
  datatype CompilerRun = CompilerRun(returnCode: int, stderr: string)

  /**
   * The outcome of waiting for the program: the deadline expired, or it
   * exited with a return code (negative: killed by that signal), leaving
   * its captured output (`None` when the capture file could not be read),
   * after `elapsedMs` and with peak resident memory `maxRssKb`.
   */
  datatype Wait =
    | TimedOut
    | Exited(returnCode: int, stdout: Option<seq<Byte>>, stderr: Option<seq<Byte>>, elapsedMs: int, maxRssKb: int)

  /**
   * The facts the host supplies: the Python interpreter it chose, how
   * staging stdin (download or inline write), writing the source file,
   * running the compiler, opening the stdin and capture files, and
   * starting the program went, how the wait ended, and the traceback
   * text an exception would be reported with.
   */
  datatype Host = Host(
    interpreter: string,
    stageInput: Step,
    writeSource: Step,
    compile: Result<CompilerRun, string>,
    openStreams: Step,
    launch: Step,
    wait: Wait,
    trace: string)

  /** The text of the exception raised when starting an empty command (an index into an empty list). */
  const EmptyCommandDetail: string := "list index out of range"

  /** The normalised parameters, read before any file is touched. */
  datatype Params = Params(language: string, baseMs: int)

  function ParseEvent(ev: Event): (r: Result<Params, string>)
    ensures r.Ok? <==> Language(ev.language).Ok? && BaseLimitMs(ev.timeLimitMs).Ok?
    ensures r.Ok? ==> r.value == Params(Language(ev.language).value, BaseLimitMs(ev.timeLimitMs).value)
    ensures Language(ev.language).Err? ==> r == Err(Language(ev.language).error)
    ensures Language(ev.language).Ok? && BaseLimitMs(ev.timeLimitMs).Err? ==> r == Err(BaseLimitMs(ev.timeLimitMs).error)
  {
    match Language(ev.language)
    case Err(e) => Err(e)
    case Ok(language) =>
      match BaseLimitMs(ev.timeLimitMs)
      case Err(e) => Err(e)
      case Ok(baseMs) => Ok(Params(language, baseMs))
  }

  /** Where the handler stands just before starting the program. */
  datatype Stage = Stop(response: Response) | Launch(runCmd: seq<string>, deadlineMs: int)

  /** Everything up to starting the program: parameters, stdin, source file, compilation. */
  function Prepare(ev: Event, host: Host): Stage
  {
    match ParseEvent(ev)
    case Err(e) => Stop(JudgeErrorResponse(e, host.trace))
    case Ok(p) =>
      if host.stageInput.Raised? then Stop(JudgeErrorResponse(host.stageInput.detail, host.trace))
      else
        var deadline := DeadlineMs(p.language, p.baseMs);
        var plan := Dispatch(p.language, host.interpreter);
        if plan.Unsupported? then Launch([], deadline)
        else if host.writeSource.Raised? then Stop(JudgeErrorResponse(host.writeSource.detail, host.trace))
        else if CodeText(ev.code).Err? then Stop(JudgeErrorResponse(CodeText(ev.code).error, host.trace))
        else if plan.Interpreted? then Launch(plan.runCmd, deadline)
        else if host.compile.Err? then Stop(JudgeErrorResponse(host.compile.error, host.trace))
        else if host.compile.value.returnCode != 0 then Stop(CompileErrorResponse(host.compile.value.stderr))
        else Launch(plan.runCmd, deadline)
  }

  /** Opening the stdin and capture files, starting the program and classifying how it ended. */
  function Execute(runCmd: seq<string>, deadlineMs: int, host: Host): Response
  {
    if host.openStreams.Raised? then JudgeErrorResponse(host.openStreams.detail, host.trace)
    else if runCmd == [] then JudgeErrorResponse(EmptyCommandDetail, host.trace)
    else if host.launch.Raised? then JudgeErrorResponse(host.launch.detail, host.trace)
    else match host.wait
      case TimedOut => TimeoutResponse(deadlineMs)
      case Exited(rc, out, err, ms, kb) => ExitResponse(rc, out, err, ms, kb)
  }

  /** The response to an invocation: always status code 200 and a body shaped by its status. */
  function Verdict(ev: Event, host: Host): (r: Response)
    ensures r.statusCode == StatusCodeOk && WellShaped(r.body)
  {
    match Prepare(ev, host)
    case Stop(r) => r
    case Launch(runCmd, deadlineMs) => Execute(runCmd, deadlineMs, host)
  }

  /** The program was started: preparation got through, the files opened, and the command was non-empty and launched. */
  predicate Launched(ev: Event, host: Host)
  {
    Prepare(ev, host).Launch? && host.openStreams.Done? && Prepare(ev, host).runCmd != [] && host.launch.Done?
  }

  /**
   * The handler. Each exception the source could raise is an early return
   * of a judge error; the compile failure and the timeout return early too.
   */
  method Handle(ev: Event, host: Host) returns (resp: Response)
    ensures resp == Verdict(ev, host)
  {
    // parameters
    var language: string;
    match Language(ev.language) {
      case Err(e) => return JudgeErrorResponse(e, host.trace);
      case Ok(l) => language := l;
    }
    var baseMs: int;
    match BaseLimitMs(ev.timeLimitMs) {
      case Err(e) => return JudgeErrorResponse(e, host.trace);
      case Ok(ms) => baseMs := ms;
    }

    // stdin
    if host.stageInput.Raised? {
      return JudgeErrorResponse(host.stageInput.detail, host.trace);
    }

    // run command
    var runCmd: seq<string> := [];
    var plan := Dispatch(language, host.interpreter);
    if !plan.Unsupported? {
      if host.writeSource.Raised? {
        return JudgeErrorResponse(host.writeSource.detail, host.trace);
      }
      var code: string;
      match CodeText(ev.code) {
        case Err(e) => return JudgeErrorResponse(e, host.trace);
        case Ok(c) => code := c;
      }
      if plan.Compiled? {
        match host.compile {
          case Err(e) => return JudgeErrorResponse(e, host.trace);
          case Ok(run) =>
            if run.returnCode != 0 {
              return CompileErrorResponse(run.stderr);
            }
        }
      }
      runCmd := plan.runCmd;
    }

    // open stdin and the capture files, start and wait
    if host.openStreams.Raised? {
      return JudgeErrorResponse(host.openStreams.detail, host.trace);
    }
    if runCmd == [] {
      return JudgeErrorResponse(EmptyCommandDetail, host.trace);
    }
    if host.launch.Raised? {
      return JudgeErrorResponse(host.launch.detail, host.trace);
    }
    var deadlineMs := DeadlineMs(language, baseMs);
    if host.wait.TimedOut? {
      return TimeoutResponse(deadlineMs);
    }
    var timeUsed := host.wait.elapsedMs;
    var memoryUsedKb := host.wait.maxRssKb;

    // captured output
    var outputData := StdoutText(host.wait.stdout);
    var stderrData := StderrText(host.wait.stderr);

    // final status
    var rc := host.wait.returnCode;
    var status := Status.Success;
    if rc != 0 {
      status := RuntimeError;
      if rc == -9 || rc == 137 { status := MemoryLimitExceeded; }
      if rc == -24 || rc == 153 { status := OutputLimitExceeded; }
      return Response(StatusCodeOk, Body(status, Some(RuntimeOutput(stderrData, rc)), None, None));
    }
    return Response(StatusCodeOk, Body(Status.Success, Some(outputData), Some(timeUsed), Some(memoryUsedKb)));
  }

  // ------------------------------------------------------------ properties

  /** The language defaults to "c" and is lowered; "PYTHON" selects the Python toolchain. */
  lemma LanguageNormalised(ev: Event, interpreter: string)
    ensures ev.language.Missing? ==> Dispatch(Language(ev.language).value, interpreter).compileCmd[0] == "gcc"
    ensures ev.language.Present? ==> Language(Present(Lower(ev.language.value))) == Language(ev.language)
    ensures ev.language == Present("PYTHON") ==> IsPython(Language(ev.language).value)
  {
    if ev.language.Present? {
      LowerKeepsLowercase(Lower(ev.language.value));
    }
  }

  /**
   * A non-zero compiler return code ends the invocation with compile_error
   * and the first 2000 characters of the compiler's stderr; the response is
   * the same whatever starting and running the program would have done.
   */
  lemma CompileFailureShortCircuits(ev: Event, host: Host, openStreams: Step, launch: Step, wait: Wait)
    requires ParseEvent(ev).Ok? && IsNative(ParseEvent(ev).value.language)
    requires host.stageInput.Done? && host.writeSource.Done? && CodeText(ev.code).Ok?
    requires host.compile.Ok? && host.compile.value.returnCode != 0
    ensures Verdict(ev, host).body == Body(CompileError, Some(Take(host.compile.value.stderr, 2000)), None, None)
    ensures Verdict(ev, host.(openStreams := openStreams, launch := launch, wait := wait)) == Verdict(ev, host)
    ensures !Launched(ev, host)
  {
  }

  /**
   * A timeout happens exactly when the started program outlives its
   * deadline; the response then reports that deadline in milliseconds,
   * the inflated one for Python, and no output.
   */
  lemma TimeoutReportsDeadline(ev: Event, host: Host, p: Params)
    requires ParseEvent(ev) == Ok(p)
    ensures Verdict(ev, host).body.status == Timeout <==> Launched(ev, host) && host.wait.TimedOut?
    ensures Verdict(ev, host).body.status == Timeout ==>
      Verdict(ev, host).body == Body(Timeout, None, Some(DeadlineMs(p.language, p.baseMs)), None)
    ensures Verdict(ev, host).body.status == Timeout && IsPython(p.language) ==>
      Verdict(ev, host).body.time == Some(3 * p.baseMs + 2000)
    ensures Verdict(ev, host).body.status == Timeout && IsNative(p.language) ==>
      Verdict(ev, host).body.time == Some(p.baseMs)
  {
    DeadlineBySupportedLanguage(p.language, p.baseMs);
  }

  /**
   * Once the program exited before its deadline, the status is the
   * classification of its return code. A non-zero code reports the stderr
   * text, or the fallback message naming the code, and neither time nor
   * memory; a zero code reports the stripped stdout, the elapsed time and
   * the peak memory. These statuses arise in no other way.
   */
  lemma ExitVerdict(ev: Event, host: Host)
    ensures Classify(host.wait.returnCode) == Verdict(ev, host).body.status <== Launched(ev, host) && host.wait.Exited?
    ensures Verdict(ev, host).body.status in {Status.Success, RuntimeError, MemoryLimitExceeded, OutputLimitExceeded}
      <==> Launched(ev, host) && host.wait.Exited?
    ensures Launched(ev, host) && host.wait.Exited? && host.wait.returnCode != 0 ==>
      Verdict(ev, host).body == Body(Classify(host.wait.returnCode),
        Some(RuntimeOutput(StderrText(host.wait.stderr), host.wait.returnCode)), None, None)
    ensures Launched(ev, host) && host.wait.Exited? && host.wait.returnCode == 0 ==>
      Verdict(ev, host).body == Body(Status.Success, Some(StdoutText(host.wait.stdout)),
        Some(host.wait.elapsedMs), Some(host.wait.maxRssKb))
  {
  }

  /**
   * A language with no toolchain gets an empty run command, and starting
   * it raises: the response is a judge error, whatever the program would
   * have done. Only a failure to open the files, which comes first, is
   * reported instead.
   */
  lemma UnsupportedLanguageIsJudgeError(ev: Event, host: Host, p: Params)
    requires ParseEvent(ev) == Ok(p) && host.stageInput.Done?
    requires !IsPython(p.language) && !IsNative(p.language)
    ensures host.openStreams.Done? ==> Verdict(ev, host) == JudgeErrorResponse(EmptyCommandDetail, host.trace)
    ensures host.openStreams.Raised? ==> Verdict(ev, host) == JudgeErrorResponse(host.openStreams.detail, host.trace)
    ensures Verdict(ev, host).body.output.value[..16] == "Internal Error: "
  {
  }

  /**
   * A judge error comes only from an exception: a malformed parameter, a
   * failed I/O step, a missing compiler, an empty command or a failed
   * start. Its output is the exception text after "Internal Error: ".
   */
  lemma JudgeErrorMeansException(ev: Event, host: Host)
    requires Verdict(ev, host).body.status == JudgeError
    ensures Verdict(ev, host).body.output.value[..16] == "Internal Error: "
    ensures
      || ParseEvent(ev).Err?
      || host.stageInput.Raised?
      || host.writeSource.Raised?
      || CodeText(ev.code).Err?
      || host.compile.Err?
      || host.openStreams.Raised?
      || RunCommand(Dispatch(ParseEvent(ev).value.language, host.interpreter)) == []
      || host.launch.Raised?
  {
  }

  /**
   * Every exception becomes a judge error carrying that exception's text:
   * a malformed parameter, a failed stdin staging, a failed source write,
   * ill-typed code, a missing compiler, a failed file open, an empty
   * command or a failed start, each once the steps before it succeeded.
   */
  lemma ExceptionBecomesJudgeError(ev: Event, host: Host)
    ensures ParseEvent(ev).Err? ==>
      Verdict(ev, host) == JudgeErrorResponse(ParseEvent(ev).error, host.trace)
    ensures (ParseEvent(ev).Ok? && host.stageInput.Raised?) ==>
      Verdict(ev, host) == JudgeErrorResponse(host.stageInput.detail, host.trace)
    ensures (ParseEvent(ev).Ok? && host.stageInput.Done? && host.writeSource.Raised?
             && !Dispatch(ParseEvent(ev).value.language, host.interpreter).Unsupported?) ==>
      Verdict(ev, host) == JudgeErrorResponse(host.writeSource.detail, host.trace)
    ensures (ParseEvent(ev).Ok? && host.stageInput.Done? && host.writeSource.Done? && CodeText(ev.code).Err?
             && !Dispatch(ParseEvent(ev).value.language, host.interpreter).Unsupported?) ==>
      Verdict(ev, host) == JudgeErrorResponse(CodeText(ev.code).error, host.trace)
    ensures (ParseEvent(ev).Ok? && host.stageInput.Done? && IsNative(ParseEvent(ev).value.language)
             && host.writeSource.Done? && CodeText(ev.code).Ok? && host.compile.Err?) ==>
      Verdict(ev, host) == JudgeErrorResponse(host.compile.error, host.trace)
    ensures (Prepare(ev, host).Launch? && host.openStreams.Raised?) ==>
      Verdict(ev, host) == JudgeErrorResponse(host.openStreams.detail, host.trace)
    ensures (Prepare(ev, host).Launch? && host.openStreams.Done? && Prepare(ev, host).runCmd == []) ==>
      Verdict(ev, host) == JudgeErrorResponse(EmptyCommandDetail, host.trace)
    ensures (Prepare(ev, host).Launch? && host.openStreams.Done? && Prepare(ev, host).runCmd != []
             && host.launch.Raised?) ==>
      Verdict(ev, host) == JudgeErrorResponse(host.launch.detail, host.trace)
  {
  }

  /**
   * compile_error arises exactly when a C or C++ submission got its source
   * written and the compiler ran and returned a non-zero code.
   */
  lemma CompileErrorOnlyFromCompiler(ev: Event, host: Host)
    ensures Verdict(ev, host).body.status == CompileError <==>
      && ParseEvent(ev).Ok? && IsNative(ParseEvent(ev).value.language)
      && host.stageInput.Done? && host.writeSource.Done? && CodeText(ev.code).Ok?
      && host.compile.Ok? && host.compile.value.returnCode != 0
  {
  }

  /** Python, `print(int(input())+1)` with stdin "41", printing "42\n" and exiting 0: success with output "42". */
  lemma PythonIncrementScenario(host: Host, ms: int, kb: int)
    requires host.stageInput.Done? && host.writeSource.Done? && host.openStreams.Done? && host.launch.Done?
    requires host.wait == Exited(0, Some([52, 50, 10]), Some([]), ms, kb)
    ensures Verdict(Event(Present("print(int(input())+1)"), Present("python"), Missing), host).body
      == Body(Status.Success, Some("42"), Some(ms), Some(kb))
  {
    var ev := Event(Present("print(int(input())+1)"), Present("python"), Missing);
    LowerKeepsLowercase("python");
    assert ParseEvent(ev) == Ok(Params("python", 1000));
    var plan := Dispatch("python", host.interpreter);
    assert plan.Interpreted? && plan.runCmd != [];
    assert Prepare(ev, host) == Launch(plan.runCmd, DeadlineMs("python", 1000));
    ExitVerdict(ev, host);
    StdoutOfIncrement();
  }

  /** The captured bytes "42\n" give the output "42". */
  lemma StdoutOfIncrement()
    ensures StdoutText(Some([52, 50, 10])) == "42"
  {
    var bytes: seq<Byte> := [52, 50, 10];
    var text := Decode(Take(bytes, StdoutCap));
    assert text == "42" + "\n" by {
      assert text[0] == '4' && text[1] == '2' && text[2] == '\n';
    }
    var e: string := [];
    assert e + "42" + "\n" == text;
    StripRecovers(e, "42", "\n");
  }
}
