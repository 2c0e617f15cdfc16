/**
 * tests/test_cmake_rpath_config.py: checks on the text of CMakeLists.txt (the rpath
 * set-up for macOS) and of setup.py (the supported Python versions), each gathering an
 * `all_passed` flag, and an exit code that is 0 exactly when both pass. A file that
 * does not exist is None.
 */
module CMakeRpathConfig {
  import opened Wrappers
  import opened Strings
  import Setup

  const MACOSX_RPATH := "CMAKE_MACOSX_RPATH"
  const INSTALL_NAME_TOOL := "install_name_tool"
  const RPATH := "@rpath"
  const APPLE_IF := "if(APPLE"
  const APPLE_WINDOW := 500
  const PYTHON_LIB_NAME := "PYTHON_LIB_NAME"
  const LIBPYTHON := "libpython"
  const SUPPORTED_VERSIONS := ["3.8", "3.9", "3.10", "3.11", "3.12", "3.13"]

  // ---------------------------------------------------------------------------
  // test_cmake_rpath_config
  // ---------------------------------------------------------------------------

  function Min(a: int, b: int): int {
    if a < b then a else b
  }

  /** Where the APPLE block starts: the first "if(APPLE". */
  function AppleStart(content: string): (start: nat)
    requires Contains(content, APPLE_IF)
    ensures start <= |content|
  {
    Find(content, APPLE_IF)
  }

  /** Where the APPLE window ends: 500 characters on, or at the end of the text. */
  function AppleEnd(content: string): (end: nat)
    requires Contains(content, APPLE_IF)
    ensures AppleStart(content) <= end <= |content|
  {
    Min(AppleStart(content) + APPLE_WINDOW, |content|)
  }

  /** `content[start:start + 500]` from the first "if(APPLE"; the slice stops at the end of the text. */
  function AppleBlock(content: string): (block: string)
    requires Contains(content, APPLE_IF)
  {
    content[AppleStart(content)..AppleEnd(content)]
  }

  /** Test 4: checked only when "if(APPLE" and the rpath setting both occur somewhere. */
  predicate AppleBlockHolds(content: string) {
    Contains(content, APPLE_IF) && Contains(content, MACOSX_RPATH) ==> Contains(AppleBlock(content), MACOSX_RPATH)
  }

  /** Test 5: checked only when a post-build custom command occurs. */
  predicate PostBuildHolds(content: string) {
    Contains(content, "add_custom_command") && Contains(content, "POST_BUILD") ==>
      Contains(content, INSTALL_NAME_TOOL) && Contains(content, "-change")
  }

  /** Test 6: the library name variable, and "libpython" in any letter case. */
  predicate PythonLibHolds(content: string) {
    Contains(content, PYTHON_LIB_NAME) && Contains(Lower(content), LIBPYTHON)
  }

  /** All six checks on the text of CMakeLists.txt. */
  predicate RpathConfigHolds(content: string) {
    && Contains(content, MACOSX_RPATH)
    && Contains(content, INSTALL_NAME_TOOL)
    && Contains(content, RPATH)
    && AppleBlockHolds(content)
    && PostBuildHolds(content)
    && PythonLibHolds(content)
  }

  /** `test_cmake_rpath_config`: False for a missing file; otherwise every failing check clears `all_passed`. */
  method TestCMakeRpathConfig(cmake: Option<string>) returns (allPassed: bool)
    ensures allPassed <==> cmake.Some? && RpathConfigHolds(cmake.value)
  {
    if cmake.None? {
      return false;
    }
    var content := cmake.value;
    allPassed := true;
    if !Contains(content, MACOSX_RPATH) {
      allPassed := false;
    }
    if !Contains(content, INSTALL_NAME_TOOL) {
      allPassed := false;
    }
    if !Contains(content, RPATH) {
      allPassed := false;
    }
    if Contains(content, APPLE_IF) && Contains(content, MACOSX_RPATH) {
      var start := Find(content, APPLE_IF);
      if start != -1 {
        var block := content[start..Min(start + APPLE_WINDOW, |content|)];
        assert block == AppleBlock(content);
        if !Contains(block, MACOSX_RPATH) {
          allPassed := false;
        }
      }
    }
    if Contains(content, "add_custom_command") && Contains(content, "POST_BUILD") {
      if !(Contains(content, INSTALL_NAME_TOOL) && Contains(content, "-change")) {
        allPassed := false;
      }
    }
    if !(Contains(content, PYTHON_LIB_NAME) && Contains(Lower(content), LIBPYTHON)) {
      allPassed := false;
    }
  }

  /**
   * The APPLE check passes exactly when the rpath setting begins at or after the
   * first "if(APPLE" and ends within 500 characters of it; a setting further on
   * in the same block is not seen.
   */
  lemma AppleBlockWindow(content: string)
    requires Contains(content, APPLE_IF)
    ensures Contains(AppleBlock(content), MACOSX_RPATH) <==>
              exists j :: AppleStart(content) <= j && j + |MACOSX_RPATH| <= AppleEnd(content) && OccursAt(content, MACOSX_RPATH, j)
  {
    ContainsWindow(content, AppleStart(content), AppleEnd(content), MACOSX_RPATH);
  }

  /** Without "if(APPLE" the APPLE check does not apply, wherever the rpath setting is. */
  lemma AppleBlockSkipped(content: string)
    requires !Contains(content, APPLE_IF)
    ensures AppleBlockHolds(content)
  {
  }

  /** Lowering a text lowers every occurrence in it. */
  lemma ContainsLower(s: string, t: string)
    requires Contains(s, t)
    ensures Contains(Lower(s), Lower(t))
  {
    var i := Find(s, t);
    assert Lower(s)[i..i + |t|] == Lower(t);
    ContainsAt(Lower(s), Lower(t), i);
  }

  /** The library name check accepts "libpython" in any letter case, for example "LIBPYTHON" or "LibPython". */
  lemma PythonLibAnyCase(content: string, spelling: string)
    requires Contains(content, PYTHON_LIB_NAME)
    requires Contains(content, spelling) && Lower(spelling) == LIBPYTHON
    ensures PythonLibHolds(content)
  {
    ContainsLower(content, spelling);
  }

  /** Once the unconditional checks pass, a post-build command needs only "-change" as well. */
  lemma PostBuildNeedsChange(content: string)
    requires Contains(content, INSTALL_NAME_TOOL)
    requires Contains(content, "add_custom_command") && Contains(content, "POST_BUILD")
    ensures PostBuildHolds(content) <==> Contains(content, "-change")
  {
  }

  // ---------------------------------------------------------------------------
  // test_python_version_support
  // ---------------------------------------------------------------------------

  /** setup.py declares a version when the quoted classifier for it occurs in its text. */
  predicate Declares(content: string, version: string) {
    Contains(content, Setup.Quoted(Setup.PYTHON_VERSION_CLASSIFIER + version))
  }

  /** `test_python_version_support`: False for a missing file; otherwise every undeclared version clears `all_passed`. */
  method TestPythonVersionSupport(setup: Option<string>) returns (allPassed: bool)
    ensures allPassed <==> setup.Some? && forall v :: v in SUPPORTED_VERSIONS ==> Declares(setup.value, v)
  {
    if setup.None? {
      return false;
    }
    var content := setup.value;
    allPassed := true;
    for i := 0 to |SUPPORTED_VERSIONS|
      invariant allPassed <==> forall k :: 0 <= k < i ==> Declares(content, SUPPORTED_VERSIONS[k])
    {
      if !Declares(content, SUPPORTED_VERSIONS[i]) {
        allPassed := false;
      }
    }
  }

  /** The classifier lines of setup.py declare every supported version, whatever text surrounds them. */
  lemma SetupDeclaresSupported(before: string, after: string)
    ensures forall v :: v in SUPPORTED_VERSIONS ==> Declares(before + Setup.ClassifierLines(Setup.PYTHON_CLASSIFIERS) + after, v)
  {
    var lines := Setup.ClassifierLines(Setup.PYTHON_CLASSIFIERS);
    forall v | v in SUPPORTED_VERSIONS
      ensures Declares(before + lines + after, v)
    {
      var k :| 0 <= k < |SUPPORTED_VERSIONS| && SUPPORTED_VERSIONS[k] == v;
      assert Setup.PYTHON_CLASSIFIERS[k + 2] == Setup.PYTHON_VERSION_CLASSIFIER + v;
      ContainsAppendLeft(before, lines, Setup.Quoted(Setup.PYTHON_CLASSIFIERS[k + 2]));
      ContainsAppendRight(before + lines, after, Setup.Quoted(Setup.PYTHON_CLASSIFIERS[k + 2]));
    }
  }

  // ---------------------------------------------------------------------------
  // main
  // ---------------------------------------------------------------------------

  /** `main`: 0 exactly when both checks pass; both run either way. */
  method RunChecks(cmake: Option<string>, setup: Option<string>) returns (code: int)
    ensures code == 0 <==> cmake.Some? && RpathConfigHolds(cmake.value)
                           && setup.Some? && forall v :: v in SUPPORTED_VERSIONS ==> Declares(setup.value, v)
    ensures code == 0 || code == 1
  {
    var cmakeOk := TestCMakeRpathConfig(cmake);
    var setupOk := TestPythonVersionSupport(setup);
    code := if cmakeOk && setupOk then 0 else 1;
  }
}
