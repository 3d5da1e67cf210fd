/** The environment check: the individual checks (Python version, an active
    virtual environment, pip, importable course modules), the report with its
    hints, and the exit status. The environment is an input. */
module VerifyEnv {
  import opened Wrappers
  import opened PyText

  /** The outcome of one check. */
  datatype CheckResult = CheckResult(name: string, ok: bool, detail: string)

  /** `sys.version_info`. */
  datatype VersionInfo = VersionInfo(major: nat, minor: nat, micro: nat)

  /** What `subprocess.run([pip, "--version"])` returned. */
  datatype Process = Process(returncode: int, stdout: string, stderr: string)

  /** What `__import__(module)` did: it returned, or raised an exception of
      the named type with the given message. */
  datatype ImportOutcome = Imported | Raised(typeName: string, message: string)

  /** The parts of the environment the checks read. */
  datatype Environment = Environment(
    version: VersionInfo,
    virtualEnv: Option<string>,
    pipPath: Option<string>,
    runPip: string -> Process,
    tryImport: string -> ImportOutcome)

  // ---------------------------------------------------------------------------
  // The checks
  // ---------------------------------------------------------------------------

  /** Python's `a < b` on tuples of integers: the first position where they
      differ decides, and a proper prefix comes first. */
  predicate TupleLess(a: seq<int>, b: seq<int>) {
    if a == [] then b != []
    else b != [] && (a[0] < b[0] || (a[0] == b[0] && TupleLess(a[1..], b[1..])))
  }

  /** On pairs, tuple order compares the first elements and, when they are
      equal, the second. */
  lemma PairLess(a: int, b: int, c: int, d: int)
    ensures TupleLess([a, b], [c, d]) <==> a < c || (a == c && b < d)
  {
    assert [a, b][1..] == [b] && [c, d][1..] == [d];
    assert [b][1..] == [] && [d][1..] == [];
    assert TupleLess([a, b], [c, d]) == (a < c || (a == c && TupleLess([b], [d])));
    assert TupleLess([b], [d]) == (b < d || (b == d && TupleLess([], [])));
  }

  /** `_python_version_ok(min_major, min_minor)`. */
  function PythonVersionOk(v: VersionInfo, minMajor: nat, minMinor: nat): (r: CheckResult)
    ensures r.name == "Python version"
    ensures r.ok <==> v.major > minMajor || (v.major == minMajor && v.minor >= minMinor)
  {
    var ok := !TupleLess([v.major, v.minor], [minMajor, minMinor]);
    PairLess(v.major, v.minor, minMajor, minMinor);
    CheckResult(
      "Python version", ok,
      NatToString(v.major) + "." + NatToString(v.minor) + "." + NatToString(v.micro) +
      " (min " + NatToString(minMajor) + "." + NatToString(minMinor) + ")")
  }

  /** With the defaults, 4.0 passes and 3.9 fails, and any version at least
      as new as a passing one passes. */
  lemma VersionExamples(v: VersionInfo, w: VersionInfo)
    requires PythonVersionOk(v, 3, 10).ok
    requires !TupleLess([w.major, w.minor], [v.major, v.minor])
    ensures PythonVersionOk(VersionInfo(4, 0, 0), 3, 10).ok
    ensures !PythonVersionOk(VersionInfo(3, 9, 18), 3, 10).ok
    ensures PythonVersionOk(w, 3, 10).ok
  {
    PairLess(w.major, w.minor, v.major, v.minor);
  }

  const VenvMissing: string :=
    "VIRTUAL_ENV not set (you may not be in the course venv). Continue if this is intentional."

  /** `_venv_hint` with `venv` the value of `VIRTUAL_ENV`: a set, non-empty
      value passes and is the detail. */
  function VenvHint(venv: Option<string>): (r: CheckResult)
    ensures r.name == "venv active"
    ensures r.ok <==> venv.Some? && venv.value != ""
    ensures r.ok ==> r.detail == venv.value
    ensures !r.ok ==> r.detail == VenvMissing
  {
    if venv.Some? && venv.value != "" then CheckResult("venv active", true, venv.value)
    else CheckResult("venv active", false, VenvMissing)
  }

  /** `a or b` on strings. */
  function Or(a: string, b: string): string {
    if a != "" then a else b
  }

  /** `_pip_ok`: `pipPath` is what `shutil.which("pip")` found and `run` runs
      it with `--version`. A failing run reports its stripped error output,
      its stripped standard output when the error output is empty, and
      `pip failed` when both strip to nothing. */
  function PipOk(pipPath: Option<string>, run: string -> Process): (r: CheckResult)
    ensures pipPath.None? || pipPath.value == "" ==> r == CheckResult("pip on PATH", false, "pip not found on PATH")
    ensures pipPath.Some? && pipPath.value != "" ==>
              && r.name == "pip runnable"
              && (r.ok <==> run(pipPath.value).returncode == 0)
              && (r.ok ==> r.detail == Strip(run(pipPath.value).stdout))
              && (!r.ok ==> r.detail != "")
  {
    if pipPath.None? || pipPath.value == "" then CheckResult("pip on PATH", false, "pip not found on PATH")
    else
      var proc := run(pipPath.value);
      if proc.returncode != 0 then CheckResult("pip runnable", false, Or(Strip(Or(proc.stderr, proc.stdout)), "pip failed"))
      else
        CheckResult("pip runnable", true, Strip(proc.stdout))
  }

  /** The result of importing one module. */
  function ImportResult(moduleName: string, outcome: ImportOutcome): (r: CheckResult)
    ensures r.name == "import " + moduleName
    ensures r.ok <==> outcome.Imported?
    ensures outcome.Raised? ==> r.detail == outcome.typeName + ": " + outcome.message
  {
    match outcome
    case Imported => CheckResult("import " + moduleName, true, "ok")
    case Raised(t, m) => CheckResult("import " + moduleName, false, t + ": " + m)
  }

  /** `_imports_ok(modules)`: one result per module, in order, named
      `import <module>`, passing exactly when the import succeeded. */
  method ImportsOk(modules: seq<string>, tryImport: string -> ImportOutcome) returns (results: seq<CheckResult>)
    ensures |results| == |modules|
    ensures forall i :: 0 <= i < |modules| ==> results[i].name == "import " + modules[i]
    ensures forall i :: 0 <= i < |modules| ==> (results[i].ok <==> tryImport(modules[i]).Imported?)
    ensures forall i :: 0 <= i < |modules| ==> results[i] == ImportResult(modules[i], tryImport(modules[i]))
  {
    results := [];
    for i := 0 to |modules|
      invariant |results| == i
      invariant forall j :: 0 <= j < i ==> results[j] == ImportResult(modules[j], tryImport(modules[j]))
    {
      var moduleName := modules[i];
      match tryImport(moduleName) {
        case Imported =>
          results := results + [CheckResult("import " + moduleName, true, "ok")];
        case Raised(t, m) =>
          results := results + [CheckResult("import " + moduleName, false, t + ": " + m)];
      }
    }
  }

  // ---------------------------------------------------------------------------
  // The report
  // ---------------------------------------------------------------------------

  /** `max(len(r.name) for r in results) if results else 0`. */
  function MaxNameLength(results: seq<CheckResult>): (w: nat)
    ensures forall i :: 0 <= i < |results| ==> |results[i].name| <= w
    ensures results == [] ==> w == 0
    ensures results != [] ==> exists i :: 0 <= i < |results| && |results[i].name| == w
  {
    if results == [] then 0
    else
      var rest := MaxNameLength(results[..|results| - 1]);
      var last := |results[|results| - 1].name|;
      if last >= rest then last
      else
        assert results[..|results| - 1] != [];
        rest
  }

  /** The line printed for one result. */
  function StatusLine(r: CheckResult, width: nat): string {
    "[" + (if r.ok then "OK" else "FAIL") + "] " + LJust(r.name, width) + "  " + r.detail
  }

  /** A status line starts with the status tag, then the name, and ends with
      the detail, which never overlaps the name. */
  lemma StatusLineShape(r: CheckResult, width: nat)
    ensures var line := StatusLine(r, width);
            var tag := if r.ok then "[OK] " else "[FAIL] ";
            && StartsWith(line, tag)
            && |line| >= |tag| + |r.name| + 2 + |r.detail|
            && line[|tag|..|tag| + |r.name|] == r.name
            && line[|line| - |r.detail|..] == r.detail
  {
    var tag := if r.ok then "[OK] " else "[FAIL] ";
    var pad := LJust(r.name, width);
    assert "[" + (if r.ok then "OK" else "FAIL") + "] " == tag;
    var line := tag + pad + "  " + r.detail;
    assert StatusLine(r, width) == line;
    assert line[..|tag|] == tag;
    assert line[|tag|..|tag| + |r.name|] == pad[..|r.name|];
    assert line[|line| - |r.detail|..] == r.detail;
  }

  /** Padding every name to the widest one gives every name column the same
      width, so the details line up among lines of the same status. */
  lemma NamesAligned(results: seq<CheckResult>, i: nat, j: nat)
    requires i < |results| && j < |results| && results[i].ok == results[j].ok
    ensures var w := MaxNameLength(results);
            var a := StatusLine(results[i], w); var b := StatusLine(results[j], w);
            |a| - |results[i].detail| == |b| - |results[j].detail|
  {
  }

  const NextSteps: string := "\nNext steps:"
  const PythonHint: string := "- Install Python 3.10+ and ensure it is the selected interpreter in VS Code."
  const PipHint: string := "- Run: pip install -r requirements.txt"
  const VenvActivateHint: string := "- Activate venv (PowerShell): .\\venv\\Scripts\\activate"
  const AllPassed: string := "\nAll checks passed. You're ready for Section 02."

  predicate FailedNamed(results: seq<CheckResult>, name: string) {
    exists i :: 0 <= i < |results| && !results[i].ok && results[i].name == name
  }

  predicate FailedImport(results: seq<CheckResult>) {
    exists i :: 0 <= i < |results| && !results[i].ok && StartsWith(results[i].name, "import ")
  }

  predicate AnyFailed(results: seq<CheckResult>) {
    exists i :: 0 <= i < |results| && !results[i].ok
  }

  /** `[r for r in results if not r.ok]`. */
  function Failures(results: seq<CheckResult>): (f: seq<CheckResult>)
    ensures forall r :: r in f <==> r in results && !r.ok
  {
    if results == [] then []
    else
      var last := results[|results| - 1];
      Failures(results[..|results| - 1]) + (if last.ok then [] else [last])
  }

  /** What `_print` prints after the status lines: `Next steps:` and the hint
      of each kind of failure that is present, or the all-passed message. */
  function Footer(results: seq<CheckResult>): seq<string> {
    if !AnyFailed(results) then [AllPassed]
    else
      [NextSteps]
      + (if FailedNamed(results, "Python version") then [PythonHint] else [])
      + (if FailedImport(results) then [PipHint] else [])
      + (if FailedNamed(results, "venv active") then [VenvActivateHint] else [])
  }

  /** Each hint is printed exactly when its failure is present, after the
      `Next steps:` heading that any failure brings; the all-passed message
      exactly when nothing failed. */
  lemma FooterHints(results: seq<CheckResult>)
    ensures Footer(results) != []
    ensures Footer(results)[0] == if AnyFailed(results) then NextSteps else AllPassed
    ensures PythonHint in Footer(results) <==> FailedNamed(results, "Python version")
    ensures PipHint in Footer(results) <==> FailedImport(results)
    ensures VenvActivateHint in Footer(results) <==> FailedNamed(results, "venv active")
    ensures AllPassed in Footer(results) <==> !AnyFailed(results)
  {
    // The five texts differ in length, so no two of them are equal.
    assert |NextSteps| == 12 && |PythonHint| == 76 && |PipHint| == 38;
    assert |VenvActivateHint| == 53 && |AllPassed| == 48;
    if FailedNamed(results, "Python version") || FailedImport(results) || FailedNamed(results, "venv active") {
      assert AnyFailed(results);
    }
  }

  lemma FooterOfFailures(results: seq<CheckResult>, python: bool, pip: bool, venv: bool)
    requires AnyFailed(results)
    requires python == FailedNamed(results, "Python version")
    requires pip == FailedImport(results)
    requires venv == FailedNamed(results, "venv active")
    ensures Footer(results) ==
              [NextSteps] + (if python then [PythonHint] else []) + (if pip then [PipHint] else [])
              + (if venv then [VenvActivateHint] else [])
  {
  }

  /** `_print(results)`: the printed lines and the exit status. There is one
      status line per result, names padded to the widest, then the footer;
      the status is 1 exactly when some check failed, and 0 otherwise, also
      when there are no results. */
  method Report(results: seq<CheckResult>) returns (lines: seq<string>, code: int)
    ensures |lines| == |results| + |Footer(results)|
    ensures forall i :: 0 <= i < |results| ==> lines[i] == StatusLine(results[i], MaxNameLength(results))
    ensures lines[|results|..] == Footer(results)
    ensures code == (if AnyFailed(results) then 1 else 0)
  {
    var width := if results != [] then MaxNameLength(results) else 0;
    var failures := Failures(results);
    var status := StatusLines(results, width);
    var footer;
    footer, code := Hints(results, failures);
    lines := status + footer;
    assert lines[..|results|] == status && lines[|results|..] == footer;
  }

  /** The first half of `_print`: one status line per result, in order. */
  method StatusLines(results: seq<CheckResult>, width: nat) returns (lines: seq<string>)
    ensures |lines| == |results|
    ensures forall i :: 0 <= i < |results| ==> lines[i] == StatusLine(results[i], width)
  {
    lines := [];
    for i := 0 to |results|
      invariant |lines| == i
      invariant forall j :: 0 <= j < i ==> lines[j] == StatusLine(results[j], width)
    {
      lines := lines + [StatusLine(results[i], width)];
    }
  }

  /** The second half of `_print`: given the failures, the heading and the
      hints of the kinds of failure present with status 1, or the all-passed
      message with status 0. */
  method Hints(results: seq<CheckResult>, failures: seq<CheckResult>) returns (footer: seq<string>, code: int)
    requires failures == Failures(results)
    ensures footer == Footer(results)
    ensures code == (if AnyFailed(results) then 1 else 0)
  {
    FailuresNamed(results);
    if failures != [] {
      var python := exists f :: f in failures && f.name == "Python version";
      var pip := exists f :: f in failures && StartsWith(f.name, "import ");
      var venv := exists f :: f in failures && f.name == "venv active";
      assert python == FailedNamed(results, "Python version");
      assert pip == FailedImport(results);
      assert venv == FailedNamed(results, "venv active");
      FooterOfFailures(results, python, pip, venv);
      footer := [NextSteps] + (if python then [PythonHint] else []) + (if pip then [PipHint] else [])
                + (if venv then [VenvActivateHint] else []);
      code := 1;
    } else {
      footer := [AllPassed];
      code := 0;
    }
  }

  /** The failures hold a result with a given property exactly when some
      failed result has it. */
  lemma FailuresNamed(results: seq<CheckResult>)
    ensures Failures(results) != [] <==> AnyFailed(results)
    ensures (exists f :: f in Failures(results) && f.name == "Python version") <==> FailedNamed(results, "Python version")
    ensures (exists f :: f in Failures(results) && f.name == "venv active") <==> FailedNamed(results, "venv active")
    ensures (exists f :: f in Failures(results) && StartsWith(f.name, "import ")) <==> FailedImport(results)
  {
    var f := Failures(results);
    if f != [] {
      assert f[0] in f;
    }
    if AnyFailed(results) {
      var i :| 0 <= i < |results| && !results[i].ok;
      assert results[i] in f;
    }
  }

  // ---------------------------------------------------------------------------
  // main
  // ---------------------------------------------------------------------------

  /** The modules whose import is checked, in their order. */
  const CoreModules: seq<string> := ["numpy", "pandas", "sklearn", "fastapi", "pydantic", "pytest"]

  /** The checks of `main`, in their order: the Python version (against 3.10),
      the virtual environment, pip, then one import per core module. */
  method RunChecks(env: Environment) returns (checks: seq<CheckResult>)
    ensures |checks| == 3 + |CoreModules|
    ensures checks[0] == PythonVersionOk(env.version, 3, 10)
    ensures checks[1] == VenvHint(env.virtualEnv)
    ensures checks[2] == PipOk(env.pipPath, env.runPip)
    ensures forall i :: 0 <= i < |CoreModules| ==>
              checks[3 + i] == ImportResult(CoreModules[i], env.tryImport(CoreModules[i]))
  {
    checks := [];
    checks := checks + [PythonVersionOk(env.version, 3, 10)];
    checks := checks + [VenvHint(env.virtualEnv)];
    checks := checks + [PipOk(env.pipPath, env.runPip)];
    var imports := ImportsOk(CoreModules, env.tryImport);
    checks := checks + imports;
  }

  /** Every check of `main` passes exactly when the Python version is at
      least 3.10, a virtual environment is active, pip runs, and every core
      module imports. */
  lemma AllChecksPass(env: Environment, checks: seq<CheckResult>)
    requires |checks| == 3 + |CoreModules|
    requires checks[0] == PythonVersionOk(env.version, 3, 10)
    requires checks[1] == VenvHint(env.virtualEnv)
    requires checks[2] == PipOk(env.pipPath, env.runPip)
    requires forall i :: 0 <= i < |CoreModules| ==>
               checks[3 + i] == ImportResult(CoreModules[i], env.tryImport(CoreModules[i]))
    ensures !AnyFailed(checks) <==>
              && PythonVersionOk(env.version, 3, 10).ok
              && VenvHint(env.virtualEnv).ok
              && PipOk(env.pipPath, env.runPip).ok
              && forall m :: m in CoreModules ==> env.tryImport(m).Imported?
    ensures !PythonVersionOk(env.version, 3, 10).ok ==> FailedNamed(checks, "Python version")
    ensures !VenvHint(env.virtualEnv).ok ==> FailedNamed(checks, "venv active")
  {
    if !AnyFailed(checks) {
      forall m | m in CoreModules ensures env.tryImport(m).Imported? {
        var i :| 0 <= i < |CoreModules| && CoreModules[i] == m;
        assert checks[3 + i].ok;
      }
    } else {
      var i :| 0 <= i < |checks| && !checks[i].ok;
      if i >= 3 {
        assert !env.tryImport(CoreModules[i - 3]).Imported?;
      }
    }
    assert !checks[0].ok ==> !checks[0].ok && checks[0].name == "Python version";
    assert !checks[1].ok ==> !checks[1].ok && checks[1].name == "venv active";
  }

  /** `main`: runs the checks and reports them, returning the exit status.
      The status is 0 exactly when every check passed; a failing virtual
      environment check alone makes it 1, and a too-old Python brings its
      hint. */
  method VerifyEnvironment(env: Environment) returns (lines: seq<string>, code: int)
    ensures code == 0 || code == 1
    ensures code == 0 <==>
              && PythonVersionOk(env.version, 3, 10).ok
              && VenvHint(env.virtualEnv).ok
              && PipOk(env.pipPath, env.runPip).ok
              && forall m :: m in CoreModules ==> env.tryImport(m).Imported?
    ensures !VenvHint(env.virtualEnv).ok ==> code == 1 && VenvActivateHint in lines
    ensures !PythonVersionOk(env.version, 3, 10).ok ==> code == 1 && PythonHint in lines
  {
    var checks := RunChecks(env);
    lines, code := Report(checks);
    AllChecksPass(env, checks);
    FooterHints(checks);
    assert forall x :: x in lines[|checks|..] ==> x in lines;
  }
}
