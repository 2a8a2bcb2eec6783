/**
 * Per-language policy: which file the source goes to and with what text,
 * whether a compile step runs and with which command, which command runs
 * the program, and the wall-clock deadline of the run.
 */
module Toolchain {
  import opened Text

  const PythonSourcePath: string := "/tmp/solution.py"
  const ExecutablePath: string := "/tmp/solution"
  /** Prepended to Python submissions so that deep recursion does not fail. */
  const RecursionPrelude: string := "import sys; sys.setrecursionlimit(200000);\n"

  /** Interpreted languages get this multiple of the limit ... */
  const GraceFactor: int := 3
  /** ... plus this many milliseconds, to absorb interpreter start-up. */
  const GraceMs: int := 2000

  predicate IsPython(language: string) { language == "python" || language == "py" }
  predicate IsNative(language: string) { language == "c" || language == "cpp" }

  /** How the handler prepares a language; `Unsupported` leaves the run command empty. */
  datatype Plan =
    | Interpreted(sourcePath: string, prelude: string, runCmd: seq<string>)
    | Compiled(sourcePath: string, compileCmd: seq<string>, runCmd: seq<string>)
    | Unsupported

  function RunCommand(p: Plan): seq<string>
  {
    if p.Unsupported? then [] else p.runCmd
  }

  /** The text written to the plan's source file. */
  function SourceText(p: Plan, code: string): string
    requires !p.Unsupported?
  {
    if p.Interpreted? then p.prelude + code else code
  }

  /** `g++` for C++, `gcc` otherwise. */
  function CompilerFor(language: string): string
  {
    if language == "cpp" then "g++" else "gcc"
  }

  /**
   * Language dispatch. Python runs the interpreter unbuffered on the file
   * it writes; C and C++ compile the file they write with -O2 into the
   * executable that is then the whole run command; anything else has no
   * run command at all.
   */
  function Dispatch(language: string, interpreter: string): (p: Plan)
    ensures p.Interpreted? <==> IsPython(language)
    ensures p.Compiled? <==> IsNative(language)
    ensures RunCommand(p) == [] <==> p.Unsupported?
    ensures p.Interpreted? ==>
      && p.sourcePath == PythonSourcePath
      && p.runCmd == [interpreter, "-u", p.sourcePath]
      && SourceText(p, "") == RecursionPrelude
    ensures p.Compiled? ==>
      && p.sourcePath == "/tmp/solution." + language
      && p.compileCmd == [CompilerFor(language), "-O2", p.sourcePath, "-o", p.runCmd[0]]
      && p.runCmd == [ExecutablePath]
    ensures !p.Unsupported? ==> forall code :: SourceText(p, code)[|SourceText(p, code)| - |code|..] == code
  {
    if language in ["python", "py"] then
      Interpreted(PythonSourcePath, RecursionPrelude, [interpreter, "-u", PythonSourcePath])
    else if language in ["c", "cpp"] then
      var isCpp := language == "cpp";
      var ext := if isCpp then "cpp" else "c";
      var srcPath := "/tmp/solution." + ext;
      Compiled(srcPath, [CompilerFor(language), "-O2", srcPath, "-o", ExecutablePath], [ExecutablePath])
    else
      Unsupported
  }

  /**
   * The wall-clock deadline of the run in milliseconds: inflated to
   * GraceFactor * base + GraceMs when "py" occurs in the language name,
   * the requested limit otherwise. It is never shorter than a
   * non-negative request.
   */
  function DeadlineMs(language: string, baseMs: int): (d: int)
    ensures baseMs >= 0 ==> d >= baseMs
    ensures d != baseMs ==> Occurs("py", language)
  {
    if Occurs("py", language) then baseMs * GraceFactor + GraceMs else baseMs
  }

  /** Python gets the inflated deadline, C and C++ exactly the requested one. */
  lemma DeadlineBySupportedLanguage(language: string, baseMs: int)
    ensures IsPython(language) ==> DeadlineMs(language, baseMs) == 3 * baseMs + 2000
    ensures IsNative(language) ==> DeadlineMs(language, baseMs) == baseMs
  {
    if IsPython(language) {
      assert OccursAt("py", language, 0);
    } else if language == "c" {
      assert !Occurs("py", language);
    } else if language == "cpp" {
      forall i | 0 <= i <= 1 ensures !OccursAt("py", language, i) {
        assert language[i..i + 2][1] == language[i + 1] != 'y';
      }
    }
  }
}
