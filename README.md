# Judge runner handler, modelled in Dafny

This project models the decision logic of the judge runner's `lambda_handler`:
given an invocation event (source `code`, `language`, `time_limit`) it
normalises the parameters, picks a toolchain (Python is interpreted, C and C++
are compiled with `gcc`/`g++ -O2`), stops with `compile_error` when the
compiler fails, runs the program under a wall-clock deadline (inflated to
`3 * limit + 2 s` for Python), and turns what it observed into exactly one
response with status code 200 and one of the statuses `success`,
`compile_error`, `runtime_error`, `timeout`, `memory_limit_exceeded`,
`output_limit_exceeded` or `judge_error`.

The handler's dealings with the outside world enter the model as the
`Judge.Host` value, which holds what the host observed: whether staging stdin,
writing the source file, running the compiler, opening the stdin and capture
files, and starting the program completed or raised; the compiler's return code and stderr; whether the wait
timed out or the program exited; and its return code, captured stdout/stderr
bytes, elapsed milliseconds and peak resident memory in KB.

Modules, one per concern of the handler:

- `Wrappers` (`wrappers.dfy`): `Option`, `Result`.
- `Text` (`text.dfy`): `lower()`, the substring test `in`, the slice `s[:n]`, `strip()`, `str(int)`, byte decoding.
- `Request` (`request.dfy`): the event's fields and their defaults.
- `Toolchain` (`toolchain.dfy`): language dispatch and the deadline.
- `Verdicts` (`verdicts.dfy`): statuses, return-code classification, output selection, response shapes.
- `Judge` (`judge.dfy`): the decision table `Verdict`, the step-by-step handler `Handle` proved equal to it, and the lemmas about it.

Behaviour of the handler as written that a reader might not expect:

- The timeout response reports the deadline that was enforced. For Python this is the inflated `3 * limit + 2000` ms, not the requested limit.
- Return codes `-24` and `153` mean `output_limit_exceeded`, as written. On Linux, signal 24 is SIGXCPU; SIGXFSZ is 25, and 153 = 128 + 25.
- An unsupported language is not rejected up front. Stdin is staged first, then starting the empty run command raises, and that exception becomes `judge_error`.
- `runtime_error` carries no `time` field.
- Stderr is not replaced by a signal name. When stderr is empty, the output is `Runtime Error (Return Code: N)`.
- Python submissions run with no extra time re-check.

## Model

| member | source | states |
|---|---|---|
| `Judge.Handle` | lambda_function.py:16-183 | the handler, run step by step with early returns for each exception, the compile failure and the timeout, gives exactly the response `Verdict` prescribes, for every event and every host outcome; it has no precondition, so no exception escapes |
| `Judge.Verdict` | lambda_function.py:75-183 | every response has status code 200; `output` is present for every status but timeout, `time` only for success and timeout, `memory` only for success; a judge error's output starts with "Internal Error: " |
| `Judge.ParseEvent` | lambda_function.py:25-28 | parsing succeeds exactly when both the language and the time limit convert; the language is converted first, so its error is the one reported; with a good language, a bad time limit reports the time-limit conversion's error |
| `Judge.LanguageNormalised` | lambda_function.py:26 | a missing language selects the C toolchain (compiled with gcc); the language is case-insensitive: a given name and its lowering are read the same way, so "PYTHON" selects the Python toolchain |
| `Judge.CompileFailureShortCircuits` | lambda_function.py:58-81 | for C/C++ with a non-zero compiler return code the body is compile_error with the first 2000 characters of the compiler's stderr and nothing else; the program is never started, and the response does not depend on what opening the files, starting or running it would do |
| `Judge.CompileErrorOnlyFromCompiler` | lambda_function.py:58-81 | compile_error arises exactly when a C/C++ submission got its source written and the compiler ran and returned a non-zero code |
| `Judge.TimeoutReportsDeadline` | lambda_function.py:112-122 | the status is timeout exactly when the program was started and the wait expired; the body then carries only `time`, the enforced deadline: 3 * limit + 2000 ms for Python, the limit itself for C/C++ |
| `Judge.ExitVerdict` | lambda_function.py:124-172 | success, runtime_error, memory_limit_exceeded and output_limit_exceeded arise exactly when the started program exited before the deadline; the status is the classification of its return code; non-zero codes carry the stderr text or the fallback message and no time or memory; code 0 carries the stripped stdout, the elapsed ms and the peak memory in KB |
| `Judge.UnsupportedLanguageIsJudgeError` | lambda_function.py:46-110 | a language other than python/py/c/cpp leaves the run command empty; once the stdin and capture files are open, starting it raises, so the response is the judge error for that exception, whatever the program would do; a failed open is reported instead |
| `Judge.JudgeErrorMeansException` | lambda_function.py:174-183 | a judge_error arises only from an exception: a malformed parameter, a failed I/O step, a missing compiler, a failed file open, an empty command or a failed start; its output begins "Internal Error: " |
| `Judge.ExceptionBecomesJudgeError` | lambda_function.py:23-183 | every exception, once the steps before it succeeded, becomes the judge_error response carrying that exception's text and the traceback: a malformed language or time limit, a failed stdin staging, a failed source write, ill-typed code, a missing compiler, a failed open of the stdin/capture files, the empty command, a failed start |
| `Judge.PythonIncrementScenario` | lambda_function.py:134-172 | Python code printing "42\n" and exiting 0 yields success with output "42" and the measured time and memory |
| `Request.Language` | lambda_function.py:26 | a missing language is "c", a present one is its lowering, an ill-typed one is the exception's text; a successful result has no upper-case letter |
| `Request.BaseLimitMs` | lambda_function.py:28 | a missing time limit is 1000 ms, a present one is taken as given, an ill-typed one fails with the conversion's exception text |
| `Request.CodeText` | lambda_function.py:25 | missing code is the empty text, present code is taken as given, ill-typed code fails with the exception raised when it is written |
| `Toolchain.Dispatch` | lambda_function.py:46-82 | python/py gets an interpreted plan that writes the recursion-limit prelude plus the code to /tmp/solution.py and runs `[interpreter, "-u", that file]`; c/cpp get a compiled plan whose source file has the language as extension, whose compile command `gcc`/`g++ -O2 <source> -o <exe>` writes exactly the executable that is the whole run command; every other language has an empty run command; the written source always ends with the code |
| `Toolchain.DeadlineMs` | lambda_function.py:114 | the deadline differs from the requested limit only when "py" occurs in the language, and is never shorter than a non-negative limit |
| `Toolchain.DeadlineBySupportedLanguage` | lambda_function.py:114 | python/py get 3 * limit + 2000 ms; c/cpp get exactly the limit |
| `Verdicts.Classify` | lambda_function.py:149-154 | 0 is success; -9 and 137 are memory_limit_exceeded; -24 and 153 are output_limit_exceeded; every other code is runtime_error; these are each if-and-only-if, so the source's check order does not matter |
| `Verdicts.StatusNameInjective` | lambda_function.py:78-180 | the status names written into the body ("success", "compile_error", …) are pairwise different |
| `Verdicts.FallbackMessage` | lambda_function.py:160 | the message is "Runtime Error (Return Code: ", then `str(rc)` (the canonical numeral, which reads back as the return code), then ")" |
| `Verdicts.FallbackMessageInjective` | lambda_function.py:160 | different return codes give different fallback messages |
| `Verdicts.RuntimeOutput` | lambda_function.py:160 | a failed run's output is never empty: its stderr text when there is any, otherwise the fallback message |
| `Verdicts.StdoutText` | lambda_function.py:134-139 | the success output is the stripped decoding of the first 512 KiB of stdout, empty when stdout could not be read, at most 512 KiB long and without surrounding white space |
| `Verdicts.StderrText` | lambda_function.py:141-146 | the stderr text is the decoding of the first 2048 bytes of stderr, empty when stderr could not be read |
| `Verdicts.CompileErrorResponse` | lambda_function.py:74-81 | compile_error carries only `output`, the first 2000 characters of the compiler's stderr |
| `Verdicts.TimeoutResponse` | lambda_function.py:119-122 | timeout carries only `time`, the deadline passed in |
| `Verdicts.ExitResponse` | lambda_function.py:149-172 | the status is the classification of the return code; non-zero codes carry the runtime output only; code 0 carries stdout text, elapsed time and memory |
| `Verdicts.JudgeErrorResponse` | lambda_function.py:177-183 | judge_error carries only `output`: "Internal Error: ", the exception text, "\nTrace: " and the traceback |
| `Text.Lower` | lambda_function.py:26 | lowering keeps the length, lowers each character on its own, and leaves no upper-case letter |
| `Text.LowerKeepsLowercase` | lambda_function.py:26 | lowering a text without upper-case letters changes nothing |
| `Text.Occurs` | lambda_function.py:114 | the substring test holds exactly when the pattern occurs at some index of the text |
| `Text.Take` | lambda_function.py:79 | the slice `s[:n]` is the prefix of `s` of length min(n, \|s\|) |
| `Text.Strip` | lambda_function.py:138 | the stripped text neither starts nor ends with white space, and it is the part of the input between a white-space prefix and a white-space suffix |
| `Text.StripRecovers` | lambda_function.py:138 | surrounding a text that neither starts nor ends with white space by white space and stripping gives that text back |
| `Text.StripIdempotent` | lambda_function.py:138 | stripping twice is stripping once |
| `Text.IntToDecimal` | lambda_function.py:160 | `str(n)`: the numeral reads back as n, starts with '-' exactly when n is negative, and has no leading zero ("0" only for zero) |
| `Text.DecimalRoundTrip` | lambda_function.py:160 | the digits of a natural number read back as that number |
| `Text.NatToDecimal` | lambda_function.py:160 | the numeral is non-empty, all digits, and has no leading zero |
| `Text.Decode` | lambda_function.py:145 | decoding keeps the length and maps each byte to the character with that code |

## Left out

- Fetching stdin from S3 and writing the inline input (lambda_function.py:10-11, 36-43) are remote and file I/O. Only whether staging stdin raised is modelled, as `Host.stageInput`.
- Running the compiler and the program is process control: `subprocess.run`, `Popen`, `wait`, `kill` and reaping. Their results are inputs: `Host.compile`, `Host.launch` and `Host.wait`. Opening the stdin, stdout and stderr files before `Popen` (lambda_function.py:99-101) is one step, `Host.openStreams`, with no distinction between the three files.
- The resource-limit hook (`setrlimit` on file size and process count) is OS configuration, and its failures are swallowed. It has no effect on the response except through the return code.
- Elapsed time and peak memory come from the wall clock and `getrusage(RUSAGE_CHILDREN)`. These are host measurements and are taken as given. The latter also counts the compiler's own children.
- The interpreter choice (PyPy when `/usr/bin/pypy3` exists, else the running interpreter) is a filesystem probe. The chosen path is `Host.interpreter`.
- Writing the source file (lambda_function.py:50-51, 65-66) is file I/O. Only whether it raised is modelled, as `Host.writeSource`; such an exception becomes `judge_error` like any other.
- The `finally` loop deleting the temporary files (lambda_function.py:185-190) is a filesystem side effect whose errors are swallowed. It has no effect on the response.
- JSON serialisation of the body, the `print` of the traceback, and the traceback text itself are left out. The traceback text is `Host.trace`.
- The text of an exception that Python raises while converting or using an ill-typed field is taken from the input (`Field.IllTyped`). The only exception text the model fixes is the one for starting an empty command.
- Request.BaseLimitMs: the limit is in whole milliseconds. The float arithmetic of `time_limit * 3 + 2`, and the truncation of `int(deadline * 1000)`, are not modelled. Non-finite limits are not modelled either.
- Text.Lower: lowers only ASCII letters, not the full Unicode case mapping of `str.lower()`.
- Text.Strip: white space is the ASCII set that `str.isspace()` accepts (TAB to CR, FS to US, space). Non-ASCII white space is not included.
- Text.Decode: one character per byte. This is exact for ASCII, but not the UTF-8 decoding with replacement characters that the handler performs.
