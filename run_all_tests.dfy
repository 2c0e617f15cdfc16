/**
 * run_all_tests.py: find the supported interpreters and their architectures, run
 * the software-only tests with each (and again under Rosetta where it applies), and
 * tally the results into an exit code. Subprocesses and the filesystem are the
 * `Machine` the script looks at; `platform.machine()` is a parameter.
 */
module RunAllTests {
  import opened Wrappers
  import opened Strings
  import opened Runners

  const SUPPORTED_VERSIONS := ["3.8", "3.9", "3.10", "3.11", "3.12", "3.13"]
  const SOFTWARE_TESTS := ["test_wheel_compatibility.py", "test_cmake_rpath_config.py", "test_pc_ble_driver_py.py"]
  const BASES := ["/opt/homebrew/bin", "/usr/local/bin"]
  const SYSTEM_PYTHON := "/usr/bin/python3"
  const X86_SUFFIX := "_x86_64"

  // ---------------------------------------------------------------------------
  // find_python_versions
  // ---------------------------------------------------------------------------

  /** The architecture of a Homebrew interpreter from the output of `file`. */
  function FileArch(out: string): (arch: string)
    ensures arch == "universal" || arch == "x86_64" || arch == "arm64"
  {
    if Contains(out, "x86_64") && Contains(out, "arm64") then "universal"
    else if Contains(out, "x86_64") then "x86_64"
    else "arm64"
  }

  /** Both names give "universal", x86_64 alone gives "x86_64", and any output without x86_64 gives "arm64". */
  lemma FileArchCases(out: string)
    ensures FileArch(out) == "universal" <==> Contains(out, "x86_64") && Contains(out, "arm64")
    ensures FileArch(out) == "x86_64" <==> Contains(out, "x86_64") && !Contains(out, "arm64")
    ensures FileArch(out) == "arm64" <==> !Contains(out, "x86_64")
  {
  }

  /** The `try` block for a Homebrew path: the interpreter found there, if any, with the architecture `file` reports. */
  function ProbeHomebrew(m: Machine, path: string): (r: Option<Interpreter>)
    ensures r.Some? <==> path in m.existing && m.run([path, "--version"]).Completed? && m.run([path, "--version"]).returncode == 0
                         && m.run(["file", path]).Completed?
    ensures r.Some? ==> r.value.path == path && r.value.arch == FileArch(m.run(["file", path]).stdout)
  {
    if path !in m.existing then None
    else
      match m.run([path, "--version"])
      case Completed(rc, out, _) =>
        if rc != 0 then None
        else
          (match m.run(["file", path])
           case Completed(_, fileOut, _) => Some(Interpreter(path, FileArch(fileOut), Strip(out)))
           case TimedOut => None
           case Raised => None)
      case TimedOut => None
      case Raised => None
  }

  /** `'.'.join(token.split('.')[:2])`. */
  function MajorMinor(token: string): string {
    var parts := Split(token, '.');
    Join(parts[..if |parts| < 2 then |parts| else 2], '.')
  }

  /** The first two components of a dotted version, whatever follows them. */
  lemma MajorMinorOf(major: string, minor: string, rest: string)
    requires '.' !in major && '.' !in minor
    requires rest == "" || rest[0] == '.'
    ensures MajorMinor(major + "." + minor + rest) == major + "." + minor
  {
    var t := major + "." + minor + rest;
    assert t == major + ['.'] + (minor + rest);
    SplitCons(major, '.', minor + rest);
    if rest == "" {
      assert minor + rest == minor;
      SplitWithoutSeparator(minor, '.');
    } else {
      assert minor + rest == minor + ['.'] + rest[1..];
      SplitCons(minor, '.', rest[1..]);
    }
    var parts := Split(t, '.');
    assert parts[..2] == [major, minor];
    assert Join([major, minor], '.') == major + "." + minor by {
      assert Join([minor], '.') == minor;
    }
  }

  /** The `try` block for the system interpreter: its version key and the interpreter, if recorded. */
  function ProbeSystem(m: Machine): (r: Option<(string, Interpreter)>)
    ensures var o := m.run([SYSTEM_PYTHON, "--version"]);
            r.Some? <==> SYSTEM_PYTHON in m.existing && o.Completed? && o.returncode == 0
                         && |Words(Strip(o.stdout))| >= 2 && MajorMinor(Words(Strip(o.stdout))[1]) in SUPPORTED_VERSIONS
                         && m.run(["file", SYSTEM_PYTHON]).Completed?
    ensures var o := m.run([SYSTEM_PYTHON, "--version"]);
            r.Some? ==> |Words(Strip(o.stdout))| >= 2 && r.value.0 == MajorMinor(Words(Strip(o.stdout))[1])
    ensures r.Some? ==> r.value.0 in SUPPORTED_VERSIONS && r.value.1.path == SYSTEM_PYTHON
    ensures r.Some? ==> m.run(["file", SYSTEM_PYTHON]).Completed?
                        && (r.value.1.arch == "universal" <==> Contains(m.run(["file", SYSTEM_PYTHON]).stdout, "universal"))
                        && (r.value.1.arch != "universal" ==> r.value.1.arch == "arm64")
  {
    if SYSTEM_PYTHON !in m.existing then None
    else
      match m.run([SYSTEM_PYTHON, "--version"])
      case Completed(rc, out, _) =>
        var words := Words(Strip(out));
        if rc != 0 || |words| < 2 then None   // `split()[1]` raises IndexError, which is swallowed
        else
          var mm := MajorMinor(words[1]);
          if mm !in SUPPORTED_VERSIONS then None
          else
            (match m.run(["file", SYSTEM_PYTHON])
             case Completed(_, fileOut, _) =>
               Some((mm, Interpreter(SYSTEM_PYTHON, if Contains(fileOut, "universal") then "universal" else "arm64", Strip(out))))
             case TimedOut => None
             case Raised => None)
      case TimedOut => None
      case Raised => None
  }

  /** The paths probed for a version, in the order the inner loop probes them. */
  function PathsFor(version: string): (ps: seq<string>)
    ensures |ps| == |BASES| && forall j :: 0 <= j < |BASES| ==> ps[j] == BASES[j] + "/python" + version
  {
    [BASES[0] + "/python" + version, BASES[1] + "/python" + version]
  }

  /** The interpreters found at the given paths, each paired with its version key. */
  function FoundAt(m: Machine, version: string, paths: seq<string>): (es: seq<(string, Interpreter)>)
    ensures forall e :: e in es ==> e.0 == version && e.1.path in paths
  {
    if |paths| == 0 then []
    else
      var init := FoundAt(m, version, paths[..|paths| - 1]);
      match ProbeHomebrew(m, paths[|paths| - 1])
      case None => init
      case Some(info) => init + [(version, info)]
  }

  /** The Homebrew interpreters found for the given versions, in the order of the nested loops. */
  function FoundHomebrew(m: Machine, versions: seq<string>): (es: seq<(string, Interpreter)>)
    ensures forall e :: e in es ==> e.0 in versions && (e.1.path == BASES[0] + "/python" + e.0 || e.1.path == BASES[1] + "/python" + e.0)
  {
    if |versions| == 0 then []
    else
      var v := versions[|versions| - 1];
      FoundHomebrew(m, versions[..|versions| - 1]) + FoundAt(m, v, PathsFor(v))
  }

  /** Completeness for one version: an interpreter found at a listed path is recorded under that version. */
  lemma {:induction false} FoundAtComplete(m: Machine, version: string, paths: seq<string>, k: nat)
    requires k < |paths| && ProbeHomebrew(m, paths[k]).Some?
    ensures (version, ProbeHomebrew(m, paths[k]).value) in FoundAt(m, version, paths)
    decreases |paths|
  {
    var init := paths[..|paths| - 1];
    if k < |paths| - 1 {
      assert init[k] == paths[k];
      FoundAtComplete(m, version, init, k);
    }
  }

  /** Completeness over the versions: an interpreter found at either base for a listed version is recorded. */
  lemma {:induction false} FoundHomebrewComplete(m: Machine, versions: seq<string>, i: nat, j: nat)
    requires i < |versions| && j < |BASES| && ProbeHomebrew(m, BASES[j] + "/python" + versions[i]).Some?
    ensures (versions[i], ProbeHomebrew(m, BASES[j] + "/python" + versions[i]).value) in FoundHomebrew(m, versions)
    decreases |versions|
  {
    var init := versions[..|versions| - 1];
    if i < |versions| - 1 {
      assert init[i] == versions[i];
      FoundHomebrewComplete(m, init, i, j);
    } else {
      FoundAtComplete(m, versions[i], PathsFor(versions[i]), j);
    }
  }

  /** Everything `find_python_versions` records, in order. */
  function Found(m: Machine): seq<(string, Interpreter)> {
    FoundHomebrew(m, SUPPORTED_VERSIONS) + (match ProbeSystem(m) case Some(e) => [e] case None => [])
  }

  /** Every version recorded is a supported one, and every interpreter sits where it was looked for. */
  lemma FoundSupported(m: Machine)
    ensures forall e :: e in Found(m) ==> e.0 in SUPPORTED_VERSIONS
    ensures forall e :: e in Found(m) ==>
              e.1.path == SYSTEM_PYTHON || e.1.path == BASES[0] + "/python" + e.0 || e.1.path == BASES[1] + "/python" + e.0
  {
  }

  /** Every interpreter the probes find, Homebrew or system, is recorded under its version key. */
  lemma FoundComplete(m: Machine, i: nat, j: nat)
    requires i < |SUPPORTED_VERSIONS| && j < |BASES|
    ensures ProbeHomebrew(m, BASES[j] + "/python" + SUPPORTED_VERSIONS[i]).Some? ==>
              (SUPPORTED_VERSIONS[i], ProbeHomebrew(m, BASES[j] + "/python" + SUPPORTED_VERSIONS[i]).value) in Found(m)
    ensures ProbeSystem(m).Some? ==> ProbeSystem(m).value in Found(m)
  {
    if ProbeHomebrew(m, BASES[j] + "/python" + SUPPORTED_VERSIONS[i]).Some? {
      FoundHomebrewComplete(m, SUPPORTED_VERSIONS, i, j);
    }
  }

  lemma FoundAtSnoc(m: Machine, version: string, paths: seq<string>, j: nat)
    requires j < |paths|
    ensures FoundAt(m, version, paths[..j + 1]) ==
      FoundAt(m, version, paths[..j]) + (match ProbeHomebrew(m, paths[j]) case None => [] case Some(info) => [(version, info)])
  {
    assert paths[..j + 1][..j] == paths[..j];
  }

  lemma FoundHomebrewSnoc(m: Machine, versions: seq<string>, i: nat)
    requires i < |versions|
    ensures FoundHomebrew(m, versions[..i + 1]) == FoundHomebrew(m, versions[..i]) + FoundAt(m, versions[i], PathsFor(versions[i]))
  {
    assert versions[..i + 1][..i] == versions[..i];
  }

  /** One probe more: the grouped dictionary after `paths[..j + 1]` follows from the one after `paths[..j]`. */
  lemma GroupFoundSnoc(m: Machine, version: string, paths: seq<string>, j: nat, before: seq<(string, Interpreter)>)
    requires j < |paths|
    ensures Group(before + FoundAt(m, version, paths[..j + 1])) ==
      match ProbeHomebrew(m, paths[j])
      case None => Group(before + FoundAt(m, version, paths[..j]))
      case Some(info) => AppendTo(Group(before + FoundAt(m, version, paths[..j])), version, info)
  {
    FoundAtSnoc(m, version, paths, j);
    var prefix := before + FoundAt(m, version, paths[..j]);
    match ProbeHomebrew(m, paths[j])
    case None =>
      assert before + FoundAt(m, version, paths[..j + 1]) == prefix + [];
      assert prefix + [] == prefix;
    case Some(info) =>
      assert before + FoundAt(m, version, paths[..j + 1]) == prefix + [(version, info)];
      GroupSnoc(prefix, (version, info));
  }

  /** The loop over the two bases for one version. */
  method ProbeVersion(m: Machine, version: string, versions: seq<(string, seq<Interpreter>)>, ghost before: seq<(string, Interpreter)>)
    returns (versions': seq<(string, seq<Interpreter>)>)
    requires versions == Group(before)
    ensures versions' == Group(before + FoundAt(m, version, PathsFor(version)))
  {
    versions' := versions;
    ghost var paths := PathsFor(version);
    assert before + FoundAt(m, version, paths[..0]) == before;
    for j := 0 to |BASES|
      invariant versions' == Group(before + FoundAt(m, version, paths[..j]))
    {
      var pythonPath := BASES[j] + "/python" + version;
      GroupFoundSnoc(m, version, paths, j, before);
      var probe := ProbeHomebrew(m, pythonPath);
      if probe.Some? {
        versions' := AppendTo(versions', version, probe.value);
      }
    }
    assert paths[..|BASES|] == paths;
  }

  /** `find_python_versions`: the Homebrew paths of each supported version, then the system interpreter. */
  method FindPythonVersions(m: Machine) returns (versions: seq<(string, seq<Interpreter>)>)
    ensures versions == Group(Found(m))
  {
    versions := [];
    for i := 0 to |SUPPORTED_VERSIONS|
      invariant versions == Group(FoundHomebrew(m, SUPPORTED_VERSIONS[..i]))
    {
      FoundHomebrewSnoc(m, SUPPORTED_VERSIONS, i);
      versions := ProbeVersion(m, SUPPORTED_VERSIONS[i], versions, FoundHomebrew(m, SUPPORTED_VERSIONS[..i]));
    }
    assert SUPPORTED_VERSIONS[..|SUPPORTED_VERSIONS|] == SUPPORTED_VERSIONS;
    ghost var homebrew := FoundHomebrew(m, SUPPORTED_VERSIONS);
    var system := ProbeSystem(m);
    if system.Some? {
      assert Found(m) == homebrew + [system.value];
      GroupSnoc(homebrew, system.value);
      versions := AppendTo(versions, system.value.0, system.value.1);
    } else {
      assert Found(m) == homebrew + [];
      assert homebrew + [] == homebrew;
    }
  }

  // ---------------------------------------------------------------------------
  // run_test
  // ---------------------------------------------------------------------------

  function InstallCommand(pythonPath: string, wheel: string): seq<string> {
    [pythonPath, "-m", "pip", "install", "--force-reinstall", "--no-deps", wheel]
  }

  /** The test command; in x86_64 mode it runs under `arch -x86_64`. */
  function TestCommand(pythonPath: string, testFile: string, mode: string): (cmd: seq<string>)
    ensures mode == "x86_64" ==> cmd == ["arch", "-x86_64", pythonPath, "tests/" + testFile]
    ensures mode != "x86_64" ==> cmd == [pythonPath, "tests/" + testFile]
  {
    var cmd := [pythonPath, "tests/" + testFile];
    if mode == "x86_64" then ["arch", "-x86_64"] + cmd else cmd
  }

  /** Whether the wheel is installed first: a non-empty path that exists. */
  predicate Installs(m: Machine, wheel: Option<string>) {
    wheel.Some? && wheel.value != "" && wheel.value in m.existing
  }

  /** The install step went wrong: a non-zero return code, a timeout or another exception. */
  predicate InstallFails(m: Machine, pythonPath: string, wheel: Option<string>) {
    Installs(m, wheel) && !(m.run(InstallCommand(pythonPath, wheel.value)).Completed? && m.run(InstallCommand(pythonPath, wheel.value)).returncode == 0)
  }

  /** `run_test`: the status of one test file under one interpreter and mode. */
  function RunTest(m: Machine, pythonPath: string, testFile: string, wheel: Option<string>, mode: string): Status {
    if "tests/" + testFile !in m.existing then Skipped
    else if InstallFails(m, pythonPath, wheel) then Error
    else
      match m.run(TestCommand(pythonPath, testFile, mode))
      case Completed(rc, _, _) => if rc == 0 then Passed else Failed
      case TimedOut => Timeout
      case Raised => Error
  }

  /**
   * The status mapping: "skipped" exactly when the test file is missing; "error"
   * when the install fails or the test command raises; otherwise "passed" exactly
   * for return code 0, "failed" for any other, "timeout" on a timeout.
   */
  lemma RunTestStatus(m: Machine, pythonPath: string, testFile: string, wheel: Option<string>, mode: string)
    ensures RunTest(m, pythonPath, testFile, wheel, mode) == Skipped <==> "tests/" + testFile !in m.existing
    ensures "tests/" + testFile in m.existing && InstallFails(m, pythonPath, wheel) ==>
              RunTest(m, pythonPath, testFile, wheel, mode) == Error
    ensures "tests/" + testFile in m.existing && !InstallFails(m, pythonPath, wheel) ==>
              var o := m.run(TestCommand(pythonPath, testFile, mode));
              && (RunTest(m, pythonPath, testFile, wheel, mode) == Passed <==> o.Completed? && o.returncode == 0)
              && (RunTest(m, pythonPath, testFile, wheel, mode) == Failed <==> o.Completed? && o.returncode != 0)
              && (RunTest(m, pythonPath, testFile, wheel, mode) == Timeout <==> o.TimedOut?)
              && (RunTest(m, pythonPath, testFile, wheel, mode) == Error <==> o.Raised?)
  {
  }

  // ---------------------------------------------------------------------------
  // main
  // ---------------------------------------------------------------------------

  /** The Rosetta pass: only on an arm64 machine, for an arm64 or universal interpreter. */
  predicate RosettaRuns(platformMachine: string, arch: string) {
    platformMachine == "arm64" && (arch == "arm64" || arch == "universal")
  }

  /** One pass over the software tests: each test's key (the file name plus `suffix`) and status. */
  function PassResults(m: Machine, info: Interpreter, wheel: Option<string>, mode: string, suffix: string, tests: seq<string>)
    : (r: seq<(string, Status)>)
    ensures |r| == |tests|
    ensures forall i :: 0 <= i < |tests| ==> r[i] == (tests[i] + suffix, RunTest(m, info.path, tests[i], wheel, mode))
  {
    if |tests| == 0 then []
    else
      var t := tests[|tests| - 1];
      PassResults(m, info, wheel, mode, suffix, tests[..|tests| - 1]) + [(t + suffix, RunTest(m, info.path, t, wheel, mode))]
  }

  /** `version_results` for one interpreter: the native pass, then the Rosetta pass when it runs. */
  function InterpreterResults(m: Machine, platformMachine: string, info: Interpreter, wheel: Option<string>): seq<(string, Status)> {
    PassResults(m, info, wheel, "native", "", SOFTWARE_TESTS)
    + (if RosettaRuns(platformMachine, info.arch) then PassResults(m, info, wheel, "x86_64", X86_SUFFIX, SOFTWARE_TESTS) else [])
  }

  /** The test names differ from each other and from every name with the Rosetta suffix. */
  lemma TestNamesDistinct()
    ensures forall i, j :: 0 <= i < j < |SOFTWARE_TESTS| ==> SOFTWARE_TESTS[i] != SOFTWARE_TESTS[j]
    ensures forall i, j :: 0 <= i < j < |SOFTWARE_TESTS| ==> SOFTWARE_TESTS[i] + X86_SUFFIX != SOFTWARE_TESTS[j] + X86_SUFFIX
    ensures forall i, j :: 0 <= i < |SOFTWARE_TESTS| && 0 <= j < |SOFTWARE_TESTS| ==> SOFTWARE_TESTS[i] + X86_SUFFIX != SOFTWARE_TESTS[j]
  {
    forall i, j | 0 <= i < |SOFTWARE_TESTS| && 0 <= j < |SOFTWARE_TESTS|
      ensures SOFTWARE_TESTS[i] + X86_SUFFIX != SOFTWARE_TESTS[j]
    {
      var a := SOFTWARE_TESTS[i] + X86_SUFFIX;
      var b := SOFTWARE_TESTS[j];
      assert a[|a| - 1] == '4' != b[|b| - 1];
    }
  }

  /**
   * The results of one interpreter hold one entry per software test, and one more
   * per test with the suffix "_x86_64" exactly when the Rosetta pass runs.
   */
  lemma InterpreterResultsShape(m: Machine, platformMachine: string, info: Interpreter, wheel: Option<string>)
    ensures var r := InterpreterResults(m, platformMachine, info, wheel);
            && |r| == (if RosettaRuns(platformMachine, info.arch) then 2 else 1) * |SOFTWARE_TESTS|
            && DistinctKeys(r)
            && (forall i :: |SOFTWARE_TESTS| <= i < |r| ==> r[i].0 == SOFTWARE_TESTS[i - |SOFTWARE_TESTS|] + X86_SUFFIX)
  {
    TestNamesDistinct();
    var r := InterpreterResults(m, platformMachine, info, wheel);
    var native := PassResults(m, info, wheel, "native", "", SOFTWARE_TESTS);
    assert forall i :: 0 <= i < |native| ==> native[i].0 == SOFTWARE_TESTS[i] + "" == SOFTWARE_TESTS[i];
    if RosettaRuns(platformMachine, info.arch) {
      var x86 := PassResults(m, info, wheel, "x86_64", X86_SUFFIX, SOFTWARE_TESTS);
      assert r == native + x86;
      forall i, j | 0 <= i < j < |r| ensures r[i].0 != r[j].0 {
        if j < |SOFTWARE_TESTS| {
          assert r[i].0 == SOFTWARE_TESTS[i] && r[j].0 == SOFTWARE_TESTS[j];
        } else if i < |SOFTWARE_TESTS| {
          assert r[i].0 == SOFTWARE_TESTS[i] && r[j].0 == SOFTWARE_TESTS[j - 3] + X86_SUFFIX;
        } else {
          assert r[i].0 == SOFTWARE_TESTS[i - 3] + X86_SUFFIX && r[j].0 == SOFTWARE_TESTS[j - 3] + X86_SUFFIX;
          assert r[i].0[..|r[i].0| - |X86_SUFFIX|] == SOFTWARE_TESTS[i - 3];
          assert r[j].0[..|r[j].0| - |X86_SUFFIX|] == SOFTWARE_TESTS[j - 3];
        }
      }
    } else {
      assert r == native + [];
      assert r == native;
    }
  }

  /** The key of the next test is not yet taken, neither before the pass nor by the tests run so far. */
  lemma PassKeyFresh(m: Machine, info: Interpreter, wheel: Option<string>, mode: string, suffix: string,
                     before: seq<(string, Status)>, k: nat)
    requires k < |SOFTWARE_TESTS|
    requires forall t :: t in SOFTWARE_TESTS ==> t + suffix !in Keys(before)
    ensures SOFTWARE_TESTS[k] + suffix !in Keys(before + PassResults(m, info, wheel, mode, suffix, SOFTWARE_TESTS[..k]))
  {
    TestNamesDistinct();
    var d := before + PassResults(m, info, wheel, mode, suffix, SOFTWARE_TESTS[..k]);
    forall i | 0 <= i < |d| ensures d[i].0 != SOFTWARE_TESTS[k] + suffix {
      if i < |before| {
        assert Keys(before)[i] == d[i].0;
      } else {
        assert d[i].0 == SOFTWARE_TESTS[i - |before|] + suffix;
        assert SOFTWARE_TESTS[i - |before|] != SOFTWARE_TESTS[k];
        assert d[i].0[..|d[i].0| - |suffix|] == SOFTWARE_TESTS[i - |before|];
        assert (SOFTWARE_TESTS[k] + suffix)[..|SOFTWARE_TESTS[k] + suffix| - |suffix|] == SOFTWARE_TESTS[k];
      }
    }
    assert forall i :: 0 <= i < |d| ==> Keys(d)[i] == d[i].0;
  }

  /** One loop over the software tests, storing each result under its name plus `suffix`. */
  method RunPass(m: Machine, info: Interpreter, wheel: Option<string>, mode: string, suffix: string,
                 versionResults: seq<(string, Status)>)
    returns (versionResults': seq<(string, Status)>)
    requires forall t :: t in SOFTWARE_TESTS ==> t + suffix !in Keys(versionResults)
    ensures versionResults' == versionResults + PassResults(m, info, wheel, mode, suffix, SOFTWARE_TESTS)
  {
    TestNamesDistinct();
    versionResults' := versionResults;
    for k := 0 to |SOFTWARE_TESTS|
      invariant versionResults' == versionResults + PassResults(m, info, wheel, mode, suffix, SOFTWARE_TESTS[..k])
    {
      var testFile := SOFTWARE_TESTS[k];
      var result := RunTest(m, info.path, testFile, wheel, mode);
      PassKeyFresh(m, info, wheel, mode, suffix, versionResults, k);
      assert SOFTWARE_TESTS[..k + 1][..k] == SOFTWARE_TESTS[..k];
      versionResults' := Put(versionResults', testFile + suffix, result);
    }
    assert SOFTWARE_TESTS[..|SOFTWARE_TESTS|] == SOFTWARE_TESTS;
  }

  /** The two passes for one interpreter, filling `version_results`. */
  method TestInterpreter(m: Machine, platformMachine: string, info: Interpreter, wheel: Option<string>)
    returns (versionResults: seq<(string, Status)>)
    ensures versionResults == InterpreterResults(m, platformMachine, info, wheel)
  {
    ghost var native := PassResults(m, info, wheel, "native", "", SOFTWARE_TESTS);
    versionResults := RunPass(m, info, wheel, "native", "", []);
    assert versionResults == native;
    if platformMachine == "arm64" && (info.arch == "arm64" || info.arch == "universal") {
      TestNamesDistinct();
      assert forall t :: t in SOFTWARE_TESTS ==> t + X86_SUFFIX !in Keys(versionResults) by {
        assert forall i :: 0 <= i < |versionResults| ==> Keys(versionResults)[i] == SOFTWARE_TESTS[i] + "";
      }
      versionResults := RunPass(m, info, wheel, "x86_64", X86_SUFFIX, versionResults);
      assert versionResults == InterpreterResults(m, platformMachine, info, wheel);
    } else {
      assert native + [] == native;
      assert versionResults == InterpreterResults(m, platformMachine, info, wheel);
    }
  }

  /** The key under which an interpreter's results are stored. */
  function ResultKey(version: string, arch: string): string {
    version + "_" + arch
  }

  /** The `results` dictionary after the given interpreters, each stored under its version and architecture. */
  function ResultsOf(m: Machine, platformMachine: string, results: seq<(string, seq<(string, Status)>)>, version: string, infos: seq<Interpreter>)
    : seq<(string, seq<(string, Status)>)>
  {
    if |infos| == 0 then results
    else
      var info := infos[|infos| - 1];
      var before := ResultsOf(m, platformMachine, results, version, infos[..|infos| - 1]);
      Put(before, ResultKey(version, info.arch), InterpreterResults(m, platformMachine, info, WheelForArch(info.arch, m.dist)))
  }

  function AllResults(m: Machine, platformMachine: string, versions: seq<(string, seq<Interpreter>)>)
    : seq<(string, seq<(string, Status)>)>
  {
    if |versions| == 0 then []
    else
      var (version, infos) := versions[|versions| - 1];
      ResultsOf(m, platformMachine, AllResults(m, platformMachine, versions[..|versions| - 1]), version, infos)
  }

  /**
   * Two interpreters of one version with the same architecture share a key, so only
   * the results of the one tested last are kept and counted.
   */
  lemma SameKeyKeepsLast(m: Machine, platformMachine: string, version: string, a: Interpreter, b: Interpreter)
    requires a.arch == b.arch
    ensures AllResults(m, platformMachine, [(version, [a, b])])
              == [(ResultKey(version, b.arch), InterpreterResults(m, platformMachine, b, WheelForArch(b.arch, m.dist)))]
  {
    var key := ResultKey(version, a.arch);
    var ra := InterpreterResults(m, platformMachine, a, WheelForArch(a.arch, m.dist));
    var rb := InterpreterResults(m, platformMachine, b, WheelForArch(b.arch, m.dist));
    assert [(version, [a, b])][..0] == [];
    assert AllResults(m, platformMachine, [(version, [a, b])]) == ResultsOf(m, platformMachine, [], version, [a, b]);
    assert [a, b][..1] == [a];
    assert [a][..0] == [];
    assert ResultsOf(m, platformMachine, [], version, [a]) == Put([], key, ra);
    PutTwice([], key, ra, rb);
  }

  /** The loop over the interpreters of one version. */
  method TestVersion(m: Machine, platformMachine: string, results: seq<(string, seq<(string, Status)>)>, version: string, infos: seq<Interpreter>)
    returns (results': seq<(string, seq<(string, Status)>)>)
    ensures results' == ResultsOf(m, platformMachine, results, version, infos)
  {
    results' := results;
    for k := 0 to |infos|
      invariant results' == ResultsOf(m, platformMachine, results, version, infos[..k])
    {
      var info := infos[k];
      var wheel := WheelForArch(info.arch, m.dist);
      var versionResults := TestInterpreter(m, platformMachine, info, wheel);
      assert infos[..k + 1][..k] == infos[..k];
      results' := Put(results', ResultKey(version, info.arch), versionResults);
    }
    assert infos[..|infos|] == infos;
  }

  lemma AllResultsSnoc(m: Machine, platformMachine: string, versions: seq<(string, seq<Interpreter>)>, i: nat)
    requires i < |versions|
    ensures AllResults(m, platformMachine, versions[..i + 1])
              == ResultsOf(m, platformMachine, AllResults(m, platformMachine, versions[..i]), versions[i].0, versions[i].1)
  {
    assert versions[..i + 1][..i] == versions[..i];
  }

  /** The loop over the versions, filling `results`. */
  method TestAll(m: Machine, platformMachine: string, versions: seq<(string, seq<Interpreter>)>)
    returns (results: seq<(string, seq<(string, Status)>)>)
    ensures results == AllResults(m, platformMachine, versions)
  {
    results := [];
    for i := 0 to |versions|
      invariant results == AllResults(m, platformMachine, versions[..i])
    {
      AllResultsSnoc(m, platformMachine, versions, i);
      results := TestVersion(m, platformMachine, results, versions[i].0, versions[i].1);
    }
    assert versions[..|versions|] == versions;
  }

  /** The inner summary loop over one key's results, adding to the four counters. */
  method TallyTests(tests: seq<(string, Status)>, total: nat, passed: nat, failed: nat, skipped: nat)
    returns (total': nat, passed': nat, failed': nat, skipped': nat)
    ensures total' == total + |StatusesOf(tests)|
    ensures passed' == passed + Count(StatusesOf(tests), Passed)
    ensures failed' == failed + Count(StatusesOf(tests), Failed)
    ensures skipped' == skipped + Count(StatusesOf(tests), Skipped)
  {
    total', passed', failed', skipped' := total, passed, failed, skipped;
    for j := 0 to |tests|
      invariant total' == total + |StatusesOf(tests[..j])|
      invariant passed' == passed + Count(StatusesOf(tests[..j]), Passed)
      invariant failed' == failed + Count(StatusesOf(tests[..j]), Failed)
      invariant skipped' == skipped + Count(StatusesOf(tests[..j]), Skipped)
    {
      var status := tests[j].1;
      assert tests[..j + 1][..j] == tests[..j];
      assert StatusesOf(tests[..j + 1]) == StatusesOf(tests[..j]) + [status];
      CountAppend(StatusesOf(tests[..j]), [status], Passed);
      CountAppend(StatusesOf(tests[..j]), [status], Failed);
      CountAppend(StatusesOf(tests[..j]), [status], Skipped);
      total' := total' + 1;
      if status == Passed {
        passed' := passed' + 1;
      } else if status == Failed {
        failed' := failed' + 1;
      } else if status == Skipped {
        skipped' := skipped' + 1;
      }
    }
    assert tests[..|tests|] == tests;
  }

  /** The summary loop: the four counters over every result of every key. */
  method Summarize(results: seq<(string, seq<(string, Status)>)>)
    returns (total: nat, passed: nat, failed: nat, skipped: nat)
    ensures total == |Statuses(results)|
    ensures passed == Count(Statuses(results), Passed)
    ensures failed == Count(Statuses(results), Failed)
    ensures skipped == Count(Statuses(results), Skipped)
  {
    total, passed, failed, skipped := 0, 0, 0, 0;
    for i := 0 to |results|
      invariant total == |Statuses(results[..i])|
      invariant passed == Count(Statuses(results[..i]), Passed)
      invariant failed == Count(Statuses(results[..i]), Failed)
      invariant skipped == Count(Statuses(results[..i]), Skipped)
    {
      var tests := results[i].1;
      ghost var before := Statuses(results[..i]);
      total, passed, failed, skipped := TallyTests(tests, total, passed, failed, skipped);
      assert results[..i + 1][..i] == results[..i];
      assert Statuses(results[..i + 1]) == before + StatusesOf(tests);
      CountAppend(before, StatusesOf(tests), Passed);
      CountAppend(before, StatusesOf(tests), Failed);
      CountAppend(before, StatusesOf(tests), Skipped);
    }
    assert results[..|results|] == results;
  }

  /**
   * `main`: 1 when no supported interpreter is found, otherwise 1 exactly when some
   * test failed. "error", "timeout" and "skipped" results do not fail the run.
   */
  method RunAll(m: Machine, platformMachine: string) returns (code: int)
    ensures var versions := Group(Found(m));
            code == (if versions == [] || Failed in Statuses(AllResults(m, platformMachine, versions)) then 1 else 0)
  {
    var versions := FindPythonVersions(m);
    if versions == [] {
      return 1;
    }
    var results := TestAll(m, platformMachine, versions);
    var total, passed, failed, skipped := Summarize(results);
    CountPositive(Statuses(results), Failed);
    code := if failed == 0 then 0 else 1;
  }

  /** The three counted buckets never exceed the total; they reach it exactly when no result is "error" or "timeout". */
  lemma SummaryBounds(ss: seq<Status>)
    ensures Count(ss, Passed) + Count(ss, Failed) + Count(ss, Skipped) <= |ss|
    ensures Count(ss, Passed) + Count(ss, Failed) + Count(ss, Skipped) == |ss| <==> Error !in ss && Timeout !in ss
  {
    CountsPartition(ss);
    CountPositive(ss, Error);
    CountPositive(ss, Timeout);
  }
}
