/**
 * run_tests_simple.py: the same test matrix as run_all_tests.py, found from a fixed
 * table of interpreter paths, keyed by version, architecture and path, with a stricter
 * tally: every result that is not "passed" counts as a failure.
 */
module RunTestsSimple {
  import opened Wrappers
  import opened Strings
  import opened Runners
  import RunAllTests

  /** The keys of `TEST_DESCRIPTIONS`, in order. */
  const TEST_FILES := ["test_wheel_compatibility.py", "test_cmake_rpath_config.py", "test_pc_ble_driver_py.py"]
  const X86_SUFFIX := "_x86_64"
  const PY38 := "/usr/local/bin/python3.8"
  const PY39 := "/usr/local/bin/python3.9"

  /** `PYTHON_VERSIONS`: the paths tried for each version; 3.8 and 3.9 are listed only when their path exists. */
  function PythonVersions(m: Machine): seq<(string, seq<string>)> {
    [ ("3.8", if PY38 in m.existing then [PY38] else []),
      ("3.9", if PY39 in m.existing then [PY39] else []),
      ("3.10", ["/opt/homebrew/bin/python3.10", "/usr/local/bin/python3.10"]),
      ("3.11", ["/opt/homebrew/bin/python3.11", "/usr/local/bin/python3.11"]),
      ("3.12", ["/opt/homebrew/bin/python3.12", "/usr/local/bin/python3.12"]),
      ("3.13", ["/opt/homebrew/bin/python3.13", "/usr/local/bin/python3.13"]) ]
  }

  // ---------------------------------------------------------------------------
  // check_python_arch
  // ---------------------------------------------------------------------------

  /** The architecture named by the output of `file`. */
  function ArchOf(out: string): (arch: string)
    ensures arch == "universal" || arch == "arm64" || arch == "x86_64" || arch == "unknown"
  {
    if Contains(out, "x86_64") && Contains(out, "arm64") then "universal"
    else if Contains(out, "arm64") then "arm64"
    else if Contains(out, "x86_64") then "x86_64"
    else "unknown"
  }

  /** `check_python_arch`: "unknown" when `file` names neither architecture or does not complete. */
  function CheckPythonArch(m: Machine, path: string): (arch: string)
    ensures arch == "unknown" <==> !m.run(["file", path]).Completed?
                                   || (!Contains(m.run(["file", path]).stdout, "arm64") && !Contains(m.run(["file", path]).stdout, "x86_64"))
  {
    match m.run(["file", path])
    case Completed(_, out, _) => ArchOf(out)
    case TimedOut => "unknown"
    case Raised => "unknown"
  }

  /** Each architecture is reported exactly when `file` names the matching architectures. */
  lemma ArchOfCases(out: string)
    ensures ArchOf(out) == "universal" <==> Contains(out, "x86_64") && Contains(out, "arm64")
    ensures ArchOf(out) == "arm64" <==> Contains(out, "arm64") && !Contains(out, "x86_64")
    ensures ArchOf(out) == "x86_64" <==> Contains(out, "x86_64") && !Contains(out, "arm64")
    ensures ArchOf(out) == "unknown" <==> !Contains(out, "x86_64") && !Contains(out, "arm64")
  {
  }

  /**
   * The two runners classify an interpreter alike whenever `file` names an
   * architecture; when it names none, this one says "unknown" and run_all_tests.py "arm64".
   */
  lemma ArchAgreesWithRunAllTests(out: string)
    ensures Contains(out, "arm64") || Contains(out, "x86_64") ==> ArchOf(out) == RunAllTests.FileArch(out)
    ensures !Contains(out, "arm64") && !Contains(out, "x86_64") ==> ArchOf(out) == "unknown" && RunAllTests.FileArch(out) == "arm64"
  {
    RunAllTests.FileArchCases(out);
  }

  // ---------------------------------------------------------------------------
  // Discovery: available_pythons
  // ---------------------------------------------------------------------------

  /** The body of the inner loop for one path: the key and the interpreter recorded, if any. */
  function Probe(m: Machine, version: string, path: string): (r: Option<(string, Interpreter)>)
    ensures r.Some? <==> path in m.existing && m.run([path, "--version"]).Completed? && m.run([path, "--version"]).returncode == 0
    ensures r.Some? ==> r.value.1.path == path && r.value.1.arch == CheckPythonArch(m, path)
                        && r.value.0 == version + "_" + r.value.1.arch
  {
    if path !in m.existing then None
    else
      match m.run([path, "--version"])
      case Completed(rc, out, _) =>
        if rc != 0 then None
        else
          var arch := CheckPythonArch(m, path);
          Some((version + "_" + arch, Interpreter(path, arch, Strip(out))))
      case TimedOut => None
      case Raised => None
  }

  /** The interpreters recorded for one version, in the order of its paths. */
  function DiscoveredAt(m: Machine, version: string, paths: seq<string>): (es: seq<(string, Interpreter)>)
    ensures forall e :: e in es ==> e.1.path in paths && e.1.path in m.existing
                                    && e.1.arch == CheckPythonArch(m, e.1.path) && e.0 == version + "_" + e.1.arch
  {
    if |paths| == 0 then []
    else
      var init := DiscoveredAt(m, version, paths[..|paths| - 1]);
      match Probe(m, version, paths[|paths| - 1])
      case None => init
      case Some(e) => init + [e]
  }

  /** The interpreters recorded for the given table, in the order of the nested loops. */
  function DiscoveredIn(m: Machine, table: seq<(string, seq<string>)>): (es: seq<(string, Interpreter)>)
    ensures forall e :: e in es ==> e.1.path in m.existing && e.1.arch == CheckPythonArch(m, e.1.path)
    ensures forall e :: e in es ==>
              exists i :: 0 <= i < |table| && e.1.path in table[i].1 && e.0 == table[i].0 + "_" + e.1.arch
  {
    if |table| == 0 then []
    else
      var init := DiscoveredIn(m, table[..|table| - 1]);
      var last := DiscoveredAt(m, table[|table| - 1].0, table[|table| - 1].1);
      assert forall e :: e in init ==>
               exists i :: 0 <= i < |table| && e.1.path in table[i].1 && e.0 == table[i].0 + "_" + e.1.arch by {
        forall e | e in init ensures exists i :: 0 <= i < |table| && e.1.path in table[i].1 && e.0 == table[i].0 + "_" + e.1.arch {
          var i :| 0 <= i < |table| - 1 && e.1.path in table[..|table| - 1][i].1 && e.0 == table[..|table| - 1][i].0 + "_" + e.1.arch;
          assert table[..|table| - 1][i] == table[i];
        }
      }
      init + last
  }

  /** A path that exists and answers `--version` with exit code 0. */
  predicate Answers(m: Machine, path: string) {
    path in m.existing && m.run([path, "--version"]).Completed? && m.run([path, "--version"]).returncode == 0
  }

  /**
   * Completeness for one version: every listed path that answers is recorded, keyed
   * "version_arch" with the architecture `file` reports.
   */
  lemma {:induction false} DiscoveredAtComplete(m: Machine, version: string, paths: seq<string>, k: nat)
    requires k < |paths| && Answers(m, paths[k])
    ensures Probe(m, version, paths[k]).Some?
    ensures Probe(m, version, paths[k]).value in DiscoveredAt(m, version, paths)
    decreases |paths|
  {
    var init := paths[..|paths| - 1];
    if k < |paths| - 1 {
      assert init[k] == paths[k];
      DiscoveredAtComplete(m, version, init, k);
    }
  }

  /** Completeness for the whole table: every listed path of every version that answers is recorded. */
  lemma {:induction false} DiscoveredInComplete(m: Machine, table: seq<(string, seq<string>)>, i: nat, k: nat)
    requires i < |table| && k < |table[i].1| && Answers(m, table[i].1[k])
    ensures Probe(m, table[i].0, table[i].1[k]).Some?
    ensures Probe(m, table[i].0, table[i].1[k]).value in DiscoveredIn(m, table)
    decreases |table|
  {
    var init := table[..|table| - 1];
    if i < |table| - 1 {
      assert init[i] == table[i];
      DiscoveredInComplete(m, init, i, k);
    } else {
      DiscoveredAtComplete(m, table[i].0, table[i].1, k);
    }
  }

  function Discovered(m: Machine): seq<(string, Interpreter)> {
    DiscoveredIn(m, PythonVersions(m))
  }

  /**
   * Listing 3.8 or 3.9 only when its path exists changes nothing: the loop checks
   * existence again, so a missing path records nothing either way.
   */
  lemma OptionalListingRedundant(m: Machine, version: string, path: string)
    ensures DiscoveredAt(m, version, if path in m.existing then [path] else []) == DiscoveredAt(m, version, [path])
  {
    assert [path][..0] == [];
  }

  lemma GroupDiscoveredSnoc(m: Machine, version: string, paths: seq<string>, j: nat, before: seq<(string, Interpreter)>)
    requires j < |paths|
    ensures Group(before + DiscoveredAt(m, version, paths[..j + 1])) ==
      match Probe(m, version, paths[j])
      case None => Group(before + DiscoveredAt(m, version, paths[..j]))
      case Some(e) => AppendTo(Group(before + DiscoveredAt(m, version, paths[..j])), e.0, e.1)
  {
    assert paths[..j + 1][..j] == paths[..j];
    var prefix := before + DiscoveredAt(m, version, paths[..j]);
    match Probe(m, version, paths[j])
    case None =>
      assert before + DiscoveredAt(m, version, paths[..j + 1]) == prefix + [];
      assert prefix + [] == prefix;
    case Some(e) =>
      assert before + DiscoveredAt(m, version, paths[..j + 1]) == prefix + [e];
      GroupSnoc(prefix, e);
  }

  /** The inner loop over the paths of one version. */
  method DiscoverVersion(m: Machine, version: string, paths: seq<string>,
                         available: seq<(string, seq<Interpreter>)>, ghost before: seq<(string, Interpreter)>)
    returns (available': seq<(string, seq<Interpreter>)>)
    requires available == Group(before)
    ensures available' == Group(before + DiscoveredAt(m, version, paths))
  {
    available' := available;
    assert before + DiscoveredAt(m, version, paths[..0]) == before;
    for j := 0 to |paths|
      invariant available' == Group(before + DiscoveredAt(m, version, paths[..j]))
    {
      GroupDiscoveredSnoc(m, version, paths, j, before);
      var probe := Probe(m, version, paths[j]);
      if probe.Some? {
        available' := AppendTo(available', probe.value.0, probe.value.1);
      }
    }
    assert paths[..|paths|] == paths;
  }

  lemma DiscoveredInSnoc(m: Machine, table: seq<(string, seq<string>)>, i: nat)
    requires i < |table|
    ensures DiscoveredIn(m, table[..i + 1]) == DiscoveredIn(m, table[..i]) + DiscoveredAt(m, table[i].0, table[i].1)
  {
    assert table[..i + 1][..i] == table[..i];
  }

  /** The discovery loop: `available_pythons`, grouped by version and architecture. */
  method Discover(m: Machine) returns (available: seq<(string, seq<Interpreter>)>)
    ensures available == Group(Discovered(m))
  {
    var table := PythonVersions(m);
    available := [];
    for i := 0 to |table|
      invariant available == Group(DiscoveredIn(m, table[..i]))
    {
      DiscoveredInSnoc(m, table, i);
      available := DiscoverVersion(m, table[i].0, table[i].1, available, DiscoveredIn(m, table[..i]));
    }
    assert table[..|table|] == table;
  }

  // ---------------------------------------------------------------------------
  // run_test
  // ---------------------------------------------------------------------------

  /** The install command; unlike run_all_tests.py, it too runs under `arch -x86_64` in x86_64 mode. */
  function InstallCommand(pythonPath: string, wheel: string, mode: string): seq<string> {
    var cmd := RunAllTests.InstallCommand(pythonPath, wheel);
    if mode == "x86_64" then ["arch", "-x86_64"] + cmd else cmd
  }

  /** In x86_64 mode both the install command and the test command are the native ones behind `arch -x86_64`. */
  lemma X86ModePrefixesBoth(pythonPath: string, wheel: string, testFile: string)
    ensures InstallCommand(pythonPath, wheel, "x86_64") == ["arch", "-x86_64"] + InstallCommand(pythonPath, wheel, "native")
    ensures RunAllTests.TestCommand(pythonPath, testFile, "x86_64") == ["arch", "-x86_64"] + RunAllTests.TestCommand(pythonPath, testFile, "native")
  {
  }

  /** The install step went wrong: a non-zero return code, a timeout or another exception. */
  predicate InstallFails(m: Machine, pythonPath: string, wheel: Option<string>, mode: string) {
    RunAllTests.Installs(m, wheel)
    && !(m.run(InstallCommand(pythonPath, wheel.value, mode)).Completed? && m.run(InstallCommand(pythonPath, wheel.value, mode)).returncode == 0)
  }

  /** `run_test`: the status of one test file under one interpreter and mode. */
  function RunTest(m: Machine, pythonPath: string, testFile: string, wheel: Option<string>, mode: string): Status {
    if "tests/" + testFile !in m.existing then Skipped
    else if InstallFails(m, pythonPath, wheel, mode) then Error
    else
      match m.run(RunAllTests.TestCommand(pythonPath, testFile, mode))
      case Completed(rc, _, _) => if rc == 0 then Passed else Failed
      case TimedOut => Timeout
      case Raised => Error
  }

  /**
   * Outside x86_64 mode both runners give a test the same status; in x86_64 mode
   * they differ only in how the wheel is installed.
   */
  lemma RunTestAgreesWithRunAllTests(m: Machine, pythonPath: string, testFile: string, wheel: Option<string>, mode: string)
    ensures mode != "x86_64" ==> RunTest(m, pythonPath, testFile, wheel, mode) == RunAllTests.RunTest(m, pythonPath, testFile, wheel, mode)
    ensures !RunAllTests.Installs(m, wheel) ==> RunTest(m, pythonPath, testFile, wheel, mode) == RunAllTests.RunTest(m, pythonPath, testFile, wheel, mode)
  {
  }

  /** `stderr[:200]`. */
  function Truncate(s: string, n: nat): (r: string)
    ensures |r| <= n && r <= s
    ensures |s| <= n ==> r == s
  {
    if |s| <= n then s else s[..n]
  }

  /**
   * The `reason` a result carries when its text is fixed by the script: a missing test
   * file, a failed install with the first 200 characters of its stderr, a timeout.
   * Exception messages are not modelled, so those reasons are None, as are passed and failed results.
   */
  function Reason(m: Machine, pythonPath: string, testFile: string, wheel: Option<string>, mode: string): Option<string> {
    if "tests/" + testFile !in m.existing then Some("Test file not found")
    else if InstallFails(m, pythonPath, wheel, mode) then
      var o := m.run(InstallCommand(pythonPath, wheel.value, mode));
      if o.Completed? then Some("Failed to install wheel: " + Truncate(o.stderr, 200)) else None
    else if m.run(RunAllTests.TestCommand(pythonPath, testFile, mode)).TimedOut? then Some("Test timed out")
    else None
  }

  /**
   * The status mapping and its reasons: "skipped" exactly when the test file is
   * missing; "error" when the install fails, with at most 200 characters of the
   * installer's stderr in the reason; otherwise the test command decides.
   */
  lemma RunTestSays(m: Machine, pythonPath: string, testFile: string, wheel: Option<string>, mode: string)
    ensures RunTest(m, pythonPath, testFile, wheel, mode) == Skipped <==> "tests/" + testFile !in m.existing
    ensures "tests/" + testFile in m.existing && InstallFails(m, pythonPath, wheel, mode) ==>
              && RunTest(m, pythonPath, testFile, wheel, mode) == Error
              && var o := m.run(InstallCommand(pythonPath, wheel.value, mode));
                 o.Completed? ==>
                   exists head :: head <= o.stderr && |head| <= 200
                                  && Reason(m, pythonPath, testFile, wheel, mode) == Some("Failed to install wheel: " + head)
    ensures "tests/" + testFile in m.existing && !InstallFails(m, pythonPath, wheel, mode) ==>
              var o := m.run(RunAllTests.TestCommand(pythonPath, testFile, mode));
              && (RunTest(m, pythonPath, testFile, wheel, mode) == Passed <==> o.Completed? && o.returncode == 0)
              && (RunTest(m, pythonPath, testFile, wheel, mode) == Failed <==> o.Completed? && o.returncode != 0)
              && (RunTest(m, pythonPath, testFile, wheel, mode) == Timeout <==> o.TimedOut?)
              && (RunTest(m, pythonPath, testFile, wheel, mode) == Error <==> o.Raised?)
    ensures Reason(m, pythonPath, testFile, wheel, mode).Some? ==>
              RunTest(m, pythonPath, testFile, wheel, mode) in {Skipped, Error, Timeout}
  {
    if "tests/" + testFile in m.existing && InstallFails(m, pythonPath, wheel, mode) {
      var o := m.run(InstallCommand(pythonPath, wheel.value, mode));
      if o.Completed? {
        var head := Truncate(o.stderr, 200);
        assert Reason(m, pythonPath, testFile, wheel, mode) == Some("Failed to install wheel: " + head);
      }
    }
  }

  // ---------------------------------------------------------------------------
  // main
  // ---------------------------------------------------------------------------

  /** One pass over the tests: each test's key (the file name plus `suffix`) and status. */
  function PassResults(m: Machine, info: Interpreter, wheel: Option<string>, mode: string, suffix: string, tests: seq<string>)
    : (r: seq<(string, Status)>)
    ensures |r| == |tests|
    ensures forall i :: 0 <= i < |tests| ==> r[i] == (tests[i] + suffix, RunTest(m, info.path, tests[i], wheel, mode))
  {
    if |tests| == 0 then []
    else
      var t := tests[|tests| - 1];
      PassResults(m, info, wheel, mode, suffix, tests[..|tests| - 1]) + [(t + suffix, RunTest(m, info.path, t, wheel, mode))]
  }

  /** `version_results` for one interpreter: the native pass, then the x86_64 pass for a universal interpreter. */
  function InterpreterResults(m: Machine, info: Interpreter, wheel: Option<string>): seq<(string, Status)> {
    PassResults(m, info, wheel, "native", "", TEST_FILES)
    + (if info.arch == "universal" then PassResults(m, info, wheel, "x86_64", X86_SUFFIX, TEST_FILES) else [])
  }

  /** The test names differ from each other and from every name with the x86_64 suffix. */
  lemma TestNamesDistinct()
    ensures forall i, j :: 0 <= i < j < |TEST_FILES| ==> TEST_FILES[i] != TEST_FILES[j]
    ensures forall i, j :: 0 <= i < |TEST_FILES| && 0 <= j < |TEST_FILES| ==> TEST_FILES[i] + X86_SUFFIX != TEST_FILES[j]
  {
    forall i, j | 0 <= i < |TEST_FILES| && 0 <= j < |TEST_FILES|
      ensures TEST_FILES[i] + X86_SUFFIX != TEST_FILES[j]
    {
      var a := TEST_FILES[i] + X86_SUFFIX;
      var b := TEST_FILES[j];
      assert a[|a| - 1] == '4' != b[|b| - 1];
    }
  }

  /**
   * The results of one interpreter hold one entry per test, and one more per test
   * with the suffix "_x86_64" exactly when the interpreter is universal; no key repeats.
   */
  lemma InterpreterResultsShape(m: Machine, info: Interpreter, wheel: Option<string>)
    ensures var r := InterpreterResults(m, info, wheel);
            && |r| == (if info.arch == "universal" then 2 else 1) * |TEST_FILES|
            && DistinctKeys(r)
            && (forall i :: |TEST_FILES| <= i < |r| ==> r[i].0 == TEST_FILES[i - |TEST_FILES|] + X86_SUFFIX)
  {
    TestNamesDistinct();
    var r := InterpreterResults(m, info, wheel);
    var native := PassResults(m, info, wheel, "native", "", TEST_FILES);
    assert forall i :: 0 <= i < |native| ==> native[i].0 == TEST_FILES[i] + "" == TEST_FILES[i];
    if info.arch == "universal" {
      var x86 := PassResults(m, info, wheel, "x86_64", X86_SUFFIX, TEST_FILES);
      assert r == native + x86;
      forall i, j | 0 <= i < j < |r| ensures r[i].0 != r[j].0 {
        if j < |TEST_FILES| {
          assert r[i].0 == TEST_FILES[i] && r[j].0 == TEST_FILES[j];
        } else if i < |TEST_FILES| {
          assert r[i].0 == TEST_FILES[i] && r[j].0 == TEST_FILES[j - 3] + X86_SUFFIX;
        } else {
          assert r[i].0 == TEST_FILES[i - 3] + X86_SUFFIX && r[j].0 == TEST_FILES[j - 3] + X86_SUFFIX;
          assert r[i].0[..|r[i].0| - |X86_SUFFIX|] == TEST_FILES[i - 3];
          assert r[j].0[..|r[j].0| - |X86_SUFFIX|] == TEST_FILES[j - 3];
        }
      }
    } else {
      assert r == native + [];
      assert r == native;
    }
  }

  /** The key of the next test is not yet taken, neither before the pass nor by the tests run so far. */
  lemma PassKeyFresh(m: Machine, info: Interpreter, wheel: Option<string>, mode: string, suffix: string,
                     before: seq<(string, Status)>, k: nat)
    requires k < |TEST_FILES|
    requires forall t :: t in TEST_FILES ==> t + suffix !in Keys(before)
    ensures TEST_FILES[k] + suffix !in Keys(before + PassResults(m, info, wheel, mode, suffix, TEST_FILES[..k]))
  {
    TestNamesDistinct();
    var d := before + PassResults(m, info, wheel, mode, suffix, TEST_FILES[..k]);
    forall i | 0 <= i < |d| ensures d[i].0 != TEST_FILES[k] + suffix {
      if i < |before| {
        assert Keys(before)[i] == d[i].0;
      } else {
        assert d[i].0 == TEST_FILES[i - |before|] + suffix;
        assert TEST_FILES[i - |before|] != TEST_FILES[k];
        assert d[i].0[..|d[i].0| - |suffix|] == TEST_FILES[i - |before|];
        assert (TEST_FILES[k] + suffix)[..|TEST_FILES[k] + suffix| - |suffix|] == TEST_FILES[k];
      }
    }
    assert forall i :: 0 <= i < |d| ==> Keys(d)[i] == d[i].0;
  }

  /** One loop over the tests, storing each result under its name plus `suffix`. */
  method RunPass(m: Machine, info: Interpreter, wheel: Option<string>, mode: string, suffix: string,
                 versionResults: seq<(string, Status)>)
    returns (versionResults': seq<(string, Status)>)
    requires forall t :: t in TEST_FILES ==> t + suffix !in Keys(versionResults)
    ensures versionResults' == versionResults + PassResults(m, info, wheel, mode, suffix, TEST_FILES)
  {
    versionResults' := versionResults;
    for k := 0 to |TEST_FILES|
      invariant versionResults' == versionResults + PassResults(m, info, wheel, mode, suffix, TEST_FILES[..k])
    {
      var testFile := TEST_FILES[k];
      var result := RunTest(m, info.path, testFile, wheel, mode);
      PassKeyFresh(m, info, wheel, mode, suffix, versionResults, k);
      assert TEST_FILES[..k + 1][..k] == TEST_FILES[..k];
      versionResults' := Put(versionResults', testFile + suffix, result);
    }
    assert TEST_FILES[..|TEST_FILES|] == TEST_FILES;
  }

  /** The native pass and, for a universal interpreter, the x86_64 pass. */
  method TestInterpreter(m: Machine, info: Interpreter, wheel: Option<string>)
    returns (versionResults: seq<(string, Status)>)
    ensures versionResults == InterpreterResults(m, info, wheel)
  {
    ghost var native := PassResults(m, info, wheel, "native", "", TEST_FILES);
    versionResults := RunPass(m, info, wheel, "native", "", []);
    assert versionResults == native;
    if info.arch == "universal" {
      TestNamesDistinct();
      assert forall t :: t in TEST_FILES ==> t + X86_SUFFIX !in Keys(versionResults) by {
        assert forall i :: 0 <= i < |versionResults| ==> Keys(versionResults)[i] == TEST_FILES[i] + "";
      }
      versionResults := RunPass(m, info, wheel, "x86_64", X86_SUFFIX, versionResults);
    } else {
      assert native + [] == native;
    }
  }

  /** The key of an interpreter's results: its discovery key and its path. */
  function ResultKey(key: string, path: string): string {
    key + "_" + path
  }

  /** The `results` dictionary after the interpreters of one discovery key. */
  function ResultsOf(m: Machine, results: seq<(string, seq<(string, Status)>)>, key: string, infos: seq<Interpreter>)
    : seq<(string, seq<(string, Status)>)>
  {
    if |infos| == 0 then results
    else
      var info := infos[|infos| - 1];
      var before := ResultsOf(m, results, key, infos[..|infos| - 1]);
      Put(before, ResultKey(key, info.path), InterpreterResults(m, info, WheelForArch(info.arch, m.dist)))
  }

  function AllResults(m: Machine, available: seq<(string, seq<Interpreter>)>): seq<(string, seq<(string, Status)>)> {
    if |available| == 0 then []
    else
      var (key, infos) := available[|available| - 1];
      ResultsOf(m, AllResults(m, available[..|available| - 1]), key, infos)
  }

  /** The loop over the interpreters of one discovery key. */
  method TestKey(m: Machine, results: seq<(string, seq<(string, Status)>)>, key: string, infos: seq<Interpreter>)
    returns (results': seq<(string, seq<(string, Status)>)>)
    ensures results' == ResultsOf(m, results, key, infos)
  {
    results' := results;
    for k := 0 to |infos|
      invariant results' == ResultsOf(m, results, key, infos[..k])
    {
      var info := infos[k];
      var wheel := WheelForArch(info.arch, m.dist);
      var versionResults := TestInterpreter(m, info, wheel);
      assert infos[..k + 1][..k] == infos[..k];
      results' := Put(results', ResultKey(key, info.path), versionResults);
    }
    assert infos[..|infos|] == infos;
  }

  lemma AllResultsSnoc(m: Machine, available: seq<(string, seq<Interpreter>)>, i: nat)
    requires i < |available|
    ensures AllResults(m, available[..i + 1]) == ResultsOf(m, AllResults(m, available[..i]), available[i].0, available[i].1)
  {
    assert available[..i + 1][..i] == available[..i];
  }

  /** The loop over the discovery keys, filling `results`. */
  method TestAll(m: Machine, available: seq<(string, seq<Interpreter>)>)
    returns (results: seq<(string, seq<(string, Status)>)>)
    ensures results == AllResults(m, available)
  {
    results := [];
    for i := 0 to |available|
      invariant results == AllResults(m, available[..i])
    {
      AllResultsSnoc(m, available, i);
      results := TestKey(m, results, available[i].0, available[i].1);
    }
    assert available[..|available|] == available;
  }

  /** The summary loop: every result counts in `total`, and as passed or else as failed. */
  method Summarize(results: seq<(string, seq<(string, Status)>)>)
    returns (total: nat, passed: nat, failed: nat)
    ensures total == |Statuses(results)|
    ensures passed == Count(Statuses(results), Passed)
    ensures failed == total - passed
  {
    total, passed, failed := 0, 0, 0;
    for i := 0 to |results|
      invariant total == |Statuses(results[..i])|
      invariant passed == Count(Statuses(results[..i]), Passed)
      invariant failed == total - passed
    {
      var tests := results[i].1;
      ghost var before := Statuses(results[..i]);
      assert before + StatusesOf(tests[..0]) == before;
      for j := 0 to |tests|
        invariant total == |before + StatusesOf(tests[..j])|
        invariant passed == Count(before + StatusesOf(tests[..j]), Passed)
        invariant failed == total - passed
      {
        var status := tests[j].1;
        assert tests[..j + 1][..j] == tests[..j];
        assert before + StatusesOf(tests[..j + 1]) == (before + StatusesOf(tests[..j])) + [status];
        total := total + 1;
        if status == Passed {
          passed := passed + 1;
        } else {
          failed := failed + 1;
        }
      }
      assert tests[..|tests|] == tests;
      assert results[..i + 1][..i] == results[..i];
      assert Statuses(results[..i + 1]) == before + StatusesOf(tests);
    }
    assert results[..|results|] == results;
  }

  /** The failed count is every result that did not pass; it is zero exactly when every result passed. */
  lemma FailedIsNotPassed(ss: seq<Status>)
    ensures |ss| - Count(ss, Passed) == Count(ss, Failed) + Count(ss, Skipped) + Count(ss, Error) + Count(ss, Timeout)
    ensures |ss| - Count(ss, Passed) == 0 <==> forall s :: s in ss ==> s == Passed
  {
    CountsPartition(ss);
    CountPositive(ss, Failed);
    CountPositive(ss, Skipped);
    CountPositive(ss, Error);
    CountPositive(ss, Timeout);
  }

  /** `main`: 1 when no interpreter is found, otherwise 0 exactly when every result passed. */
  method RunSimple(m: Machine) returns (code: int)
    ensures var available := Group(Discovered(m));
            code == (if available == [] || exists s :: s in Statuses(AllResults(m, available)) && s != Passed then 1 else 0)
  {
    var available := Discover(m);
    if available == [] {
      return 1;
    }
    var results := TestAll(m, available);
    var total, passed, failed := Summarize(results);
    FailedIsNotPassed(Statuses(results));
    code := if failed == 0 then 0 else 1;
  }

  /** Whatever makes run_all_tests.py fail the run fails this one too: a failed result, or none passing the stricter tally. */
  lemma StricterThanRunAllTests(ss: seq<Status>)
    ensures Failed in ss ==> |ss| - Count(ss, Passed) > 0
    ensures (Skipped in ss || Error in ss || Timeout in ss) ==> |ss| - Count(ss, Passed) > 0
  {
    FailedIsNotPassed(ss);
  }
}
