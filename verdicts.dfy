/**
 * The verdict taxonomy, the return-code classification, the choice of the
 * `output` text and the shape of each response.
 */
module Verdicts {
  import opened Wrappers
  import opened Text

  datatype Status =
    | Success
    | CompileError
    | RuntimeError
    | Timeout
    | MemoryLimitExceeded
    | OutputLimitExceeded
    | JudgeError

  /** The name a status has in the response body. */
  function StatusName(s: Status): string
  {
    match s
    case Success => "success"
    case CompileError => "compile_error"
    case RuntimeError => "runtime_error"
    case Timeout => "timeout"
    case MemoryLimitExceeded => "memory_limit_exceeded"
    case OutputLimitExceeded => "output_limit_exceeded"
    case JudgeError => "judge_error"
  }

  /** Different statuses have different names in the body. */
  lemma StatusNameInjective(s: Status, t: Status)
    requires StatusName(s) == StatusName(t)
    ensures s == t
  {
  }

  /** The JSON body: `output`, `time` (ms) and `memory` (KB) are present or absent by status. */
  datatype Body = Body(status: Status, output: Option<string>, time: Option<int>, memory: Option<int>)

  /** What the handler returns: an HTTP-style status code and the body. */
  datatype Response = Response(statusCode: int, body: Body)

  const StatusCodeOk: int := 200

  /** Return codes read as a kill by the memory limiter: SIGKILL, or 128 + 9. */
  const MemoryKillCodes: set<int> := {-9, 137}
  /** Return codes read as a kill for exceeding the file-size limit. */
  const OutputKillCodes: set<int> := {-24, 153}

  /**
   * The verdict for a return code, evaluated in the handler's order: a
   * non-zero code is a runtime error, then a memory kill code overrides
   * that, then an output kill code overrides whatever came before. The two
   * sets are disjoint, so the order does not matter.
   */
  function Classify(rc: int): (s: Status)
    ensures s == Success <==> rc == 0
    ensures s == MemoryLimitExceeded <==> rc == -9 || rc == 137
    ensures s == OutputLimitExceeded <==> rc == -24 || rc == 153
    ensures s == RuntimeError <==> rc !in {0, -9, 137, -24, 153}
    ensures s != CompileError && s != Timeout && s != JudgeError
  {
    if rc == 0 then Success
    else
      var s := RuntimeError;
      var s := if rc in MemoryKillCodes then MemoryLimitExceeded else s;
      if rc in OutputKillCodes then OutputLimitExceeded else s
  }

  const FallbackPrefix: string := "Runtime Error (Return Code: "

  /** The output of a failed run whose stderr is empty; it names the return code. */
  function FallbackMessage(rc: int): (m: string)
    ensures |FallbackPrefix| < |m| && m[..|FallbackPrefix|] == FallbackPrefix && m[|m| - 1] == ')'
    ensures ParseInt(m[|FallbackPrefix|..|m| - 1]) == Some(rc)
    ensures m[|FallbackPrefix|..|m| - 1] == IntToDecimal(rc)
  {
    var m := FallbackPrefix + IntToDecimal(rc) + ")";
    assert m[|FallbackPrefix|..|m| - 1] == IntToDecimal(rc);
    m
  }

  /** Different return codes give different fallback messages. */
  lemma FallbackMessageInjective(a: int, b: int)
    requires FallbackMessage(a) == FallbackMessage(b)
    ensures a == b
  {
    var m := FallbackMessage(a);
    assert ParseInt(m[|FallbackPrefix|..|m| - 1]) == Some(a);
  }

  /** The output of a failed run: its stderr text when there is any, otherwise the fallback message. */
  function RuntimeOutput(stderrText: string, rc: int): (o: string)
    ensures o != []
    ensures stderrText != [] ==> o == stderrText
    ensures stderrText == [] ==> o == FallbackMessage(rc)
  {
    if stderrText != [] then stderrText else FallbackMessage(rc)
  }

  const CompileDiagnosticCap: nat := 2000
  const StdoutCap: nat := 512 * 1024
  const StderrCap: nat := 2048

  /** The stdout text of a successful run: its first StdoutCap bytes, stripped; nothing if it could not be read. */
  function StdoutText(captured: Option<seq<Byte>>): (t: string)
    ensures |t| <= StdoutCap
    ensures t == [] || (!IsSpace(t[0]) && !IsSpace(t[|t| - 1]))
    ensures captured.Some? ==> t == Strip(Decode(Take(captured.value, StdoutCap)))
    ensures captured.None? ==> t == []
  {
    match captured
    case None => ""
    case Some(bs) => Strip(Decode(Take(bs, StdoutCap)))
  }

  /** The stderr text of a failed run: its first StderrCap bytes; nothing if it could not be read. */
  function StderrText(captured: Option<seq<Byte>>): (t: string)
    ensures |t| <= StderrCap
    ensures captured.Some? ==> t == Decode(Take(captured.value, StderrCap))
    ensures captured.None? ==> t == []
  {
    match captured
    case None => ""
    case Some(bs) => Decode(Take(bs, StderrCap))
  }

  const InternalErrorPrefix: string := "Internal Error: "

  /**
   * Which fields each status carries: `output` for every status except
   * timeout; `time` only for success and timeout; `memory` only for
   * success; a judge error's output starts with InternalErrorPrefix.
   */
  predicate WellShaped(b: Body)
  {
    && (b.output.Some? <==> b.status != Timeout)
    && (b.time.Some? <==> b.status == Success || b.status == Timeout)
    && (b.memory.Some? <==> b.status == Success)
    && (b.status == JudgeError ==>
          |InternalErrorPrefix| <= |b.output.value| && b.output.value[..|InternalErrorPrefix|] == InternalErrorPrefix)
  }

  function CompileErrorResponse(compilerStderr: string): (r: Response)
    ensures r.statusCode == StatusCodeOk && WellShaped(r.body) && r.body.status == CompileError
    ensures r.body.output == Some(Take(compilerStderr, CompileDiagnosticCap))
    ensures |r.body.output.value| <= CompileDiagnosticCap
  {
    Response(StatusCodeOk, Body(CompileError, Some(Take(compilerStderr, CompileDiagnosticCap)), None, None))
  }

  /** The timed-out response reports the deadline that was enforced. */
  function TimeoutResponse(deadlineMs: int): (r: Response)
    ensures r.statusCode == StatusCodeOk && WellShaped(r.body) && r.body.status == Timeout
    ensures r.body.time == Some(deadlineMs)
  {
    Response(StatusCodeOk, Body(Timeout, None, Some(deadlineMs), None))
  }

  /** The response for a run that exited with `rc` before the deadline. */
  function ExitResponse(rc: int, stdout: Option<seq<Byte>>, stderr: Option<seq<Byte>>, elapsedMs: int, maxRssKb: int): (r: Response)
    ensures r.statusCode == StatusCodeOk && WellShaped(r.body)
    ensures r.body.status == Classify(rc)
    ensures rc != 0 ==> r.body.output == Some(RuntimeOutput(StderrText(stderr), rc))
    ensures rc == 0 ==> r.body == Body(Success, Some(StdoutText(stdout)), Some(elapsedMs), Some(maxRssKb))
  {
    if rc != 0 then
      Response(StatusCodeOk, Body(Classify(rc), Some(RuntimeOutput(StderrText(stderr), rc)), None, None))
    else
      Response(StatusCodeOk, Body(Success, Some(StdoutText(stdout)), Some(elapsedMs), Some(maxRssKb)))
  }

  /** The response for an exception: its text and the traceback after InternalErrorPrefix. */
  function JudgeErrorResponse(detail: string, trace: string): (r: Response)
    ensures r.statusCode == StatusCodeOk && WellShaped(r.body) && r.body.status == JudgeError
    ensures r.body.output == Some(InternalErrorPrefix + detail + "\nTrace: " + trace)
  {
    var out := InternalErrorPrefix + detail + "\nTrace: " + trace;
    assert out[..|InternalErrorPrefix|] == InternalErrorPrefix;
    Response(StatusCodeOk, Body(JudgeError, Some(out), None, None))
  }
}
