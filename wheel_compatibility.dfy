/**
 * tests/test_wheel_compatibility.py: the decisions of `check_import`,
 * `check_library_paths` and `check_python_info`. The output of `otool -L`, the
 * exit code of the import subprocess and the interpreter path are inputs.
 */
module WheelCompatibility {
  import opened Wrappers
  import opened Strings

  // ---------------------------------------------------------------------------
  // check_import
  // ---------------------------------------------------------------------------

  /** What happened when the import was attempted. */
  datatype ImportRun =
    | NotInstalled         // `from pc_ble_driver_py import config` raised ImportError in the test process
    | Exited(code: int)    // the import subprocess finished with this return code
    | TimedOut             // the subprocess exceeded its timeout
    | Failed               // any other exception

  datatype ImportVerdict = Imported | Skipped | Segfault | ExitFailure(code: int) | Hung | Error

  predicate IsSegfaultCode(code: int) {
    code == -11 || code == 139
  }

  /** The branches of `check_import`, with the message each prints as the verdict. */
  function CheckImport(run: ImportRun): (v: ImportVerdict)
    ensures run.Exited? && IsSegfaultCode(run.code) ==> v == Segfault
    ensures run.Exited? && !IsSegfaultCode(run.code) && run.code != 0 ==> v == ExitFailure(run.code)
    ensures run.Exited? && run.code == 0 ==> v == Imported
  {
    match run
    case NotInstalled => Skipped
    case Exited(code) =>
      if IsSegfaultCode(code) then Segfault
      else if code != 0 then ExitFailure(code)
      else Imported
    case TimedOut => Hung
    case Failed => Error
  }

  /** The boolean `check_import` returns for a verdict. */
  predicate ImportPasses(v: ImportVerdict) {
    v.Imported? || v.Skipped?
  }

  /** `check_import` returns True exactly for exit code 0 and for a package that is not installed. */
  lemma CheckImportPasses(run: ImportRun)
    ensures ImportPasses(CheckImport(run)) <==> run == Exited(0) || run == NotInstalled
  {
  }

  // ---------------------------------------------------------------------------
  // check_library_paths: the rule for one dependency
  // ---------------------------------------------------------------------------

  const FRAMEWORK := "/Library/Frameworks/Python.framework"

  /** A dependency on the Python library: a libpython, or the Python binary of a framework. */
  predicate IsPythonLib(lib: string) {
    Contains(lib, "libpython") || (EndsWith(lib, "/Python") && Contains(lib, "Python.framework"))
  }

  predicate Portable(lib: string) {
    Contains(lib, "@executable_path") || Contains(lib, "@rpath")
  }

  /** The first test: an absolute reference into the Python.org framework. */
  predicate HardcodedFramework(lib: string) {
    Contains(lib, FRAMEWORK) && !Contains(lib, "@rpath") && !Contains(lib, "@executable_path")
  }

  /** The last test: any other absolute or relative path that names a directory. */
  predicate HardcodedPath(lib: string) {
    !Contains(lib, "@rpath") && !Contains(lib, "@executable_path") && !StartsWith(lib, "@") && '/' in lib
  }

  /** The per-dependency step of the loop: the changes it makes to the three flags. */
  datatype Flags = Flags(allGood: bool, hardcoded: bool, portable: bool)

  function Step(f: Flags, lib: string): (g: Flags)
    ensures !IsPythonLib(lib) ==> g == f
  {
    if IsPythonLib(lib) then
      var f1 := if HardcodedFramework(lib) then Flags(false, true, f.portable) else f;
      if Contains(lib, "@executable_path") then f1.(portable := true)
      else if Contains(lib, "@rpath") then f1.(portable := true)
      else if !Contains(lib, "@rpath") && !Contains(lib, "@executable_path") then
        if !StartsWith(lib, "@") && '/' in lib then f1.(allGood := false) else f1
      else f1
    else f
  }

  /** A dependency makes the check fail exactly when it is a Python library referenced neither through @rpath nor @executable_path, by a hardcoded framework path or by a path with a directory not starting with '@'. */
  predicate DependencyFails(lib: string) {
    IsPythonLib(lib) && !Portable(lib)
    && (Contains(lib, FRAMEWORK) || (!StartsWith(lib, "@") && '/' in lib))
  }

  /** Closed form of one step: what each flag becomes. */
  lemma StepFlags(f: Flags, lib: string)
    ensures Step(f, lib).allGood == (f.allGood && !DependencyFails(lib))
    ensures Step(f, lib).hardcoded == (f.hardcoded || (IsPythonLib(lib) && HardcodedFramework(lib)))
    ensures Step(f, lib).portable == (f.portable || (IsPythonLib(lib) && Portable(lib)))
  {
  }

  /** A Python library reached through @rpath or @executable_path never fails the check. */
  lemma PortableNeverFails(lib: string)
    requires Portable(lib)
    ensures !DependencyFails(lib)
  {
  }

  /** `@rpath/Python`, the name the fixing script writes, passes: it is not even taken for a Python library. */
  lemma RetargetedNameIsNotChecked()
    ensures !IsPythonLib("@rpath/Python")
    ensures !DependencyFails("@rpath/Python")
  {
    NotPythonLib("@rpath/Python");
  }

  /** A name without an 'l' and shorter than "Python.framework" is not a Python library. */
  lemma NotPythonLib(lib: string)
    requires 'l' !in lib && |lib| < |"Python.framework"|
    ensures !IsPythonLib(lib)
  {
    if Contains(lib, "libpython") {
      ContainsChar(lib, "libpython", 0);
    }
    if Contains(lib, "Python.framework") {
      ContainsLength(lib, "Python.framework");
    }
  }

  // ---------------------------------------------------------------------------
  // check_library_paths: the lines of one module
  // ---------------------------------------------------------------------------

  /**
   * The dependency a line of `otool -L` names, or None when the loop skips the line:
   * a blank line, or one whose first word is the module's path or ends with its file name.
   */
  function DependencyOf(line: string, soPath: string, soName: string): (d: Option<string>)
    ensures d.Some? ==> |d.value| > 0 && NoSpace(d.value)
    ensures d.Some? ==> d.value != soPath && !EndsWith(d.value, soName)
    ensures Strip(line) == "" ==> d.None?
  {
    var stripped := Strip(line);
    if stripped == "" then None
    else
      WordsStartingWithNonSpace(stripped);
      var lib := Words(stripped)[0];
      if lib == soPath || EndsWith(lib, soName) then None else Some(lib)
  }

  lemma WordsStartingWithNonSpace(t: string)
    requires |t| > 0 && !IsSpace(t[0])
    ensures |Words(t)| > 0
    ensures |Words(t)[0]| > 0 && NoSpace(Words(t)[0])
  {
    WordsNonEmpty(t);
    FirstWord(t);
  }

  /** The dependencies named by the lines after the first, line by line (None for a skipped line). */
  function Dependencies(lines: seq<string>, soPath: string, soName: string): (deps: seq<Option<string>>)
    requires |lines| >= 1
    ensures |deps| == |lines| - 1
    ensures forall k :: 0 <= k < |deps| ==> deps[k] == DependencyOf(lines[k + 1], soPath, soName)
  {
    seq(|lines| - 1, k requires 0 <= k < |lines| - 1 => DependencyOf(lines[k + 1], soPath, soName))
  }

  /** The three flags after the given dependencies, from all_good = True and the other two False. */
  function FlagsOver(deps: seq<Option<string>>): Flags {
    if |deps| == 0 then Flags(true, false, false)
    else
      var f := FlagsOver(deps[..|deps| - 1]);
      match deps[|deps| - 1]
      case None => f
      case Some(lib) => Step(f, lib)
  }

  /** One more dependency: the flags after the first `i` follow from those after the first `i - 1`. */
  lemma FlagsOverPrefix(deps: seq<Option<string>>, i: nat)
    requires 1 <= i <= |deps|
    ensures FlagsOver(deps[..i]) ==
      match deps[i - 1]
      case None => FlagsOver(deps[..i - 1])
      case Some(lib) => Step(FlagsOver(deps[..i - 1]), lib)
  {
    assert deps[..i][..i - 1] == deps[..i - 1];
  }

  /** No dependency fails. */
  predicate NoneFails(deps: seq<Option<string>>) {
    forall k :: 0 <= k < |deps| && deps[k].Some? ==> !DependencyFails(deps[k].value)
  }

  /** The flags the loop ends with: all_good exactly when no dependency fails, and the other two as their tests say. */
  lemma {:induction false} FlagsOverClosedForm(deps: seq<Option<string>>)
    ensures FlagsOver(deps).allGood <==> NoneFails(deps)
    ensures FlagsOver(deps).hardcoded <==>
      exists k :: 0 <= k < |deps| && deps[k].Some? && IsPythonLib(deps[k].value) && HardcodedFramework(deps[k].value)
    ensures FlagsOver(deps).portable <==>
      exists k :: 0 <= k < |deps| && deps[k].Some? && IsPythonLib(deps[k].value) && Portable(deps[k].value)
    decreases |deps|
  {
    if |deps| > 0 {
      var init := deps[..|deps| - 1];
      FlagsOverClosedForm(init);
      var d := deps[|deps| - 1];
      if d.Some? {
        StepFlags(FlagsOver(init), d.value);
      }
      assert forall k :: 0 <= k < |init| ==> init[k] == deps[k];
    }
  }

  /** The dependencies that are Python libraries, in order; skipped lines and other libraries are dropped. */
  function PythonLibsOnly(deps: seq<Option<string>>): (r: seq<Option<string>>)
    ensures |r| <= |deps|
    ensures forall k :: 0 <= k < |r| ==> r[k].Some? && IsPythonLib(r[k].value)
  {
    if |deps| == 0 then []
    else
      var d := deps[|deps| - 1];
      PythonLibsOnly(deps[..|deps| - 1]) + (if d.Some? && IsPythonLib(d.value) then [d] else [])
  }

  /** Only Python libraries matter: dropping every other dependency leaves all three flags as they were. */
  lemma {:induction false} OtherDependenciesIgnored(deps: seq<Option<string>>)
    ensures FlagsOver(deps) == FlagsOver(PythonLibsOnly(deps))
    decreases |deps|
  {
    if |deps| > 0 {
      var init := deps[..|deps| - 1];
      var d := deps[|deps| - 1];
      OtherDependenciesIgnored(init);
      if d.Some? && IsPythonLib(d.value) {
        var r := PythonLibsOnly(init) + [d];
        assert r[..|r| - 1] == PythonLibsOnly(init);
      } else {
        assert PythonLibsOnly(deps) == PythonLibsOnly(init) + [];
        assert PythonLibsOnly(init) + [] == PythonLibsOnly(init);
      }
    }
  }

  /** What the summary line after a module reports. */
  datatype ModuleReport = HardcodedFrameworkPaths | PortablePaths | NoPythonDependency

  /** An extension module found in the package's `lib` directory, with what `otool -L` printed for it. */
  datatype Module = Module(path: string, name: string, otool: Option<string>)

  /** Whether one module passes, as `CheckModule` decides it. */
  predicate ModulePasses(m: Module) {
    && m.otool.Some?
    && var lines := Split(Strip(m.otool.value), '\n');
       |lines| >= 2 && NoneFails(Dependencies(lines, m.path, m.name))
  }

  /**
   * The summary line printed after a module: none when otool failed or printed fewer
   * than two lines, otherwise hard-coded framework paths before portable paths.
   */
  function Report(m: Module): Option<ModuleReport> {
    if m.otool.None? then None
    else
      var lines := Split(Strip(m.otool.value), '\n');
      if |lines| < 2 then None
      else
        var f := FlagsOver(Dependencies(lines, m.path, m.name));
        Some(if f.hardcoded then HardcodedFrameworkPaths
             else if f.portable then PortablePaths
             else NoPythonDependency)
  }

  /**
   * What the summary line means: it is printed exactly when the listing has two
   * lines, reports hard-coded paths exactly when some Python library is referenced
   * by its framework path, and a module that passes never reports hard-coded paths.
   */
  lemma ReportMeaning(m: Module)
    ensures Report(m).None? <==> m.otool.None? || |Split(Strip(m.otool.value), '\n')| < 2
    ensures Report(m).None? ==> !ModulePasses(m)
    ensures m.otool.Some? && |Split(Strip(m.otool.value), '\n')| >= 2 ==>
      var deps := Dependencies(Split(Strip(m.otool.value), '\n'), m.path, m.name);
      && (Report(m) == Some(HardcodedFrameworkPaths) <==>
            exists k :: 0 <= k < |deps| && deps[k].Some? && IsPythonLib(deps[k].value) && HardcodedFramework(deps[k].value))
      && (ModulePasses(m) ==> Report(m) != Some(HardcodedFrameworkPaths))
  {
    if m.otool.Some? && |Split(Strip(m.otool.value), '\n')| >= 2 {
      var deps := Dependencies(Split(Strip(m.otool.value), '\n'), m.path, m.name);
      FlagsOverClosedForm(deps);
    }
  }

  /** The updates of the three flags for one dependency, in the order the loop makes them. */
  method UpdateFlags(allGood: bool, hasHardcodedPath: bool, hasPortablePath: bool, libPath: string)
    returns (allGood': bool, hasHardcodedPath': bool, hasPortablePath': bool)
    ensures Flags(allGood', hasHardcodedPath', hasPortablePath')
      == Step(Flags(allGood, hasHardcodedPath, hasPortablePath), libPath)
  {
    allGood', hasHardcodedPath', hasPortablePath' := allGood, hasHardcodedPath, hasPortablePath;
    if IsPythonLib(libPath) {
      if Contains(libPath, FRAMEWORK) && !Contains(libPath, "@rpath") && !Contains(libPath, "@executable_path") {
        hasHardcodedPath' := true;
        allGood' := false;
      }
      if Contains(libPath, "@executable_path") {
        hasPortablePath' := true;
      } else if Contains(libPath, "@rpath") {
        hasPortablePath' := true;
      } else if !Contains(libPath, "@rpath") && !Contains(libPath, "@executable_path") {
        if !StartsWith(libPath, "@") && '/' in libPath {
          allGood' := false;
        }
      }
    }
  }

  /** The loop over the lines after the first, from all_good = True and the other two flags False. */
  method ScanLines(lines: seq<string>, soPath: string, soName: string)
    returns (allGood: bool, hasHardcodedPath: bool, hasPortablePath: bool)
    requires |lines| >= 1
    ensures Flags(allGood, hasHardcodedPath, hasPortablePath) == FlagsOver(Dependencies(lines, soPath, soName))
  {
    ghost var deps := Dependencies(lines, soPath, soName);
    allGood, hasHardcodedPath, hasPortablePath := true, false, false;
    for i := 1 to |lines|
      invariant Flags(allGood, hasHardcodedPath, hasPortablePath) == FlagsOver(deps[..i - 1])
    {
      var d := DependencyOf(lines[i], soPath, soName);
      assert d == deps[i - 1];
      FlagsOverPrefix(deps, i);
      match d {
        case None =>
        case Some(libPath) =>
          allGood, hasHardcodedPath, hasPortablePath := UpdateFlags(allGood, hasHardcodedPath, hasPortablePath, libPath);
      }
    }
    assert deps[..|lines| - 1] == deps;
  }

  /**
   * The body of the loop over one module: `otool` is None when it failed. Returns
   * whether the module passes and the summary the script prints for it.
   */
  method CheckModule(m: Module) returns (good: bool, report: Option<ModuleReport>)
    ensures good <==> ModulePasses(m)
    ensures report == Report(m)
  {
    if m.otool.None? {
      return false, None;
    }
    var lines := Split(Strip(m.otool.value), '\n');
    if |lines| < 2 {
      return false, None;
    }
    var allGood, hasHardcodedPath, hasPortablePath := ScanLines(lines, m.path, m.name);
    FlagsOverClosedForm(Dependencies(lines, m.path, m.name));
    good := allGood;
    report := Some(if hasHardcodedPath then HardcodedFrameworkPaths
                   else if hasPortablePath then PortablePaths
                   else NoPythonDependency);
  }

  // ---------------------------------------------------------------------------
  // check_library_paths
  // ---------------------------------------------------------------------------

  /** Every module of the list passes the given check, module by module. */
  predicate AllPass(modules: seq<Module>, passes: Module -> bool) {
    |modules| == 0 || (AllPass(modules[..|modules| - 1], passes) && passes(modules[|modules| - 1]))
  }

  lemma {:induction false} AllPassEvery(modules: seq<Module>, passes: Module -> bool)
    ensures AllPass(modules, passes) <==> forall k :: 0 <= k < |modules| ==> passes(modules[k])
    decreases |modules|
  {
    if |modules| > 0 {
      var init := modules[..|modules| - 1];
      AllPassEvery(init, passes);
      assert forall k :: 0 <= k < |init| ==> init[k] == modules[k];
    }
  }

  /** The loop over the modules: all_good stays True exactly while every module so far passes. */
  method CheckModules(modules: seq<Module>) returns (allGood: bool)
    ensures allGood <==> forall k :: 0 <= k < |modules| ==> ModulePasses(modules[k])
  {
    allGood := true;
    for i := 0 to |modules|
      invariant allGood == AllPass(modules[..i], ModulePasses)
    {
      var good, _ := CheckModule(modules[i]);
      assert modules[..i + 1][..i] == modules[..i];
      allGood := allGood && good;
    }
    assert modules[..|modules|] == modules;
    AllPassEvery(modules, ModulePasses);
  }

  /** How the package import went before the modules were located. */
  datatype PackageProbe = ImportFailed | NoFile | LibDir(exists_: bool, modules: seq<Module>)

  /**
   * `check_library_paths`: True off macOS and when the package cannot be located,
   * False without a `lib` directory or without modules in it, otherwise True
   * exactly when every module passes.
   */
  method CheckLibraryPaths(system: string, probe: PackageProbe) returns (ok: bool)
    ensures system != "Darwin" ==> ok
    ensures system == "Darwin" && (probe.ImportFailed? || probe.NoFile?) ==> ok
    ensures system == "Darwin" && probe.LibDir? ==>
      (ok <==> probe.exists_ && |probe.modules| > 0
               && forall k :: 0 <= k < |probe.modules| ==> ModulePasses(probe.modules[k]))
  {
    if system != "Darwin" {
      return true;
    }
    match probe {
      case ImportFailed => return true;
      case NoFile => return true;
      case LibDir(exists_, modules) =>
        if !exists_ {
          return false;
        }
        if |modules| == 0 {
          return false;
        }
        ok := CheckModules(modules);
    }
  }

  /** A module whose otool listing has fewer than two lines after stripping fails, whatever it says. */
  lemma ShortListingFails(m: Module)
    requires m.otool.Some? && '\n' !in Strip(m.otool.value)
    ensures !ModulePasses(m)
  {
    SplitWithoutSeparator(Strip(m.otool.value), '\n');
  }

  // ---------------------------------------------------------------------------
  // check_python_info
  // ---------------------------------------------------------------------------

  datatype InstallType = Framework | Homebrew | PossiblyHomebrew | Pyenv | Unknown

  /** The installation type printed for an interpreter path; earlier tests take precedence. */
  function ClassifyInstall(exe: string): InstallType {
    if Contains(exe, FRAMEWORK) then Framework
    else if Contains(exe, "/opt/homebrew") || Contains(exe, "/usr/local") then
      if Contains(exe, "Cellar") then Homebrew else PossiblyHomebrew
    else if Contains(exe, ".pyenv") then Pyenv
    else Unknown
  }

  predicate HomebrewPrefix(exe: string) {
    Contains(exe, "/opt/homebrew") || Contains(exe, "/usr/local")
  }

  /** Each type is chosen exactly when its own test holds and no earlier one does. */
  lemma ClassifyInstallPrecedence(exe: string)
    ensures ClassifyInstall(exe) == Framework <==> Contains(exe, FRAMEWORK)
    ensures ClassifyInstall(exe) == Homebrew <==> !Contains(exe, FRAMEWORK) && HomebrewPrefix(exe) && Contains(exe, "Cellar")
    ensures ClassifyInstall(exe) == PossiblyHomebrew <==> !Contains(exe, FRAMEWORK) && HomebrewPrefix(exe) && !Contains(exe, "Cellar")
    ensures ClassifyInstall(exe) == Pyenv <==> !Contains(exe, FRAMEWORK) && !HomebrewPrefix(exe) && Contains(exe, ".pyenv")
    ensures ClassifyInstall(exe) == Unknown <==> !Contains(exe, FRAMEWORK) && !HomebrewPrefix(exe) && !Contains(exe, ".pyenv")
  {
  }

  /** A framework interpreter is reported as such even when it also lives under a Homebrew or pyenv prefix. */
  lemma FrameworkWins(prefix: string, rest: string)
    ensures ClassifyInstall(prefix + FRAMEWORK + rest) == Framework
  {
    ContainsMiddle(prefix, FRAMEWORK, rest);
  }
}
