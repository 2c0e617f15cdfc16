# pc-ble-driver-py glue scripts, modelled in Dafny

pc-ble-driver-py wraps Nordic's native BLE driver for Python. Around the native
extension, the repository holds Python scripts that build, repair, check and test its
macOS wheels. This project models the decision logic of those scripts and proves what
each one promises:

- `sitecustomize.py` replaces `platform.release()` so that the version always has a
  minor part. Module `SiteCustomize`.
- `tools/patch_skbuild_constants.py` patches scikit-build's `constants.py` the same
  way. Module `PatchSkbuildConstants`, with the site-packages directory as a class whose
  fields the script updates.
- `setup.py` derives `_SKBUILD_PLAT_NAME` on macOS, finds `__version__` and lists the
  Python classifiers. Module `Setup`.
- `fix_wheel_python_version.py` plans and applies `install_name_tool -change` edits
  that retarget `@rpath/libpython*.dylib` references to `@rpath/Python`. It also
  decides whether a wheel is backed up and rebuilt. Module `FixWheelPythonVersion`,
  where each shared object is a class whose load commands are rewritten in place.
- `tests/test_wheel_compatibility.py` checks an import's exit code, checks the
  Python-library references in `otool -L` output, and classifies the interpreter's
  install type. Module `WheelCompatibility`.
- `list_release_wheels.py` filters, sorts and splits the wheel names of a release.
  Module `ListReleaseWheels`.
- `run_all_tests.py` and `run_tests_simple.py` find interpreters, choose a wheel per
  architecture, run the software tests natively and under Rosetta, tally the results
  and compute the exit code. Modules `RunAllTests` and `RunTestsSimple`, with shared
  parts in `Runners`.
- `tests/run_hw_test_if_available.py` selects the serial ports and the exit code of
  the hardware test. Module `HwTest`.
- `tests/test_cmake_rpath_config.py` checks the text of `CMakeLists.txt` and
  `setup.py` with substring rules. Module `CMakeRpathConfig`.

Python's string operations are modelled in `Strings`: `in`, `find`, `rfind`, `split`,
`split()`, `strip`, `replace`, ASCII `lower` and the ordering of `str`. `Wrappers`
holds `Option` and `Result`.

The outside world enters as values:

- A subprocess is a total function from its command line to an `Outcome`: completed
  with a return code, stdout and stderr; timed out; or raised.
- The file system is the set of paths that exist.
- Environment variables are `Option<string>`; a file that may be missing is
  `Option<string>` of its text.
- Tool outputs (`file`, `otool -L`, `--version`, `platform.mac_ver()`,
  `platform.machine()`) and directory listings are strings and sequences.
- A Python `dict` is an insertion-ordered sequence of key/value pairs with distinct
  keys, so loops that fill a dict are proved against a function over the same
  sequence.

## Model

| member | source | states |
|---|---|---|
| SiteCustomize.NormaliseRelease | sitecustomize.py:7-8 | the result always contains '.'; a release with '.' is returned unchanged; a non-empty one without '.' only gains a suffix of at most two characters; an empty one gives "15.0" |
| SiteCustomize.PatchedRelease | sitecustomize.py:5-10 | the wrapper normalises what the original returns, gives "15.0" when it raises, and its answer always contains '.' |
| SiteCustomize.ReleaseAfterImport | sitecustomize.py:12-16 | `platform.release` is replaced exactly when the original is callable; a missing or non-callable original is left alone |
| SiteCustomize.NormaliseIdempotent | sitecustomize.py:8 | normalising twice equals normalising once |
| SiteCustomize.PatchedReleaseSplitsInTwo | sitecustomize.py:5-10 | once installed, the release always splits on '.' into at least two parts |
| SiteCustomize.BareMajorGetsMinorZero | sitecustomize.py:8 | a bare major version "M" becomes "M.0", which splits into [M, "0"] |
| PatchSkbuildConstants.PatchText | tools/patch_skbuild_constants.py:22-23 | the text is unchanged when the needle is absent, and otherwise every occurrence is replaced by the replacement block |
| PatchSkbuildConstants.ReplacementHoldsNeedle | tools/patch_skbuild_constants.py:15-21 | the replacement block contains the needle and is longer than it |
| PatchSkbuildConstants.PatchChangesText | tools/patch_skbuild_constants.py:22-27 | when the needle occurs the text changes (so it is written), grows by the block's extra length per occurrence, and still contains the needle |
| PatchSkbuildConstants.PatchNotIdempotent | tools/patch_skbuild_constants.py:15-23 | a second patch changes the text again and makes it longer |
| PatchSkbuildConstants.UnpackFailsWithoutDot | tools/patch_skbuild_constants.py:17-20 | unpacking `release.split(".")[:2]` into two names fails exactly when the release has no '.' |
| PatchSkbuildConstants.GuardedUnpackSucceeds | tools/patch_skbuild_constants.py:17-20 | with the inserted guard, the two-name unpacking always succeeds |
| PatchSkbuildConstants.GuardFallbackUnreachable | tools/patch_skbuild_constants.py:17-20 | a split always has a first part, which is the whole release when it has no '.' |
| PatchSkbuildConstants.GuardedBareRelease | tools/patch_skbuild_constants.py:17-20 | a bare major release unpacks to (major, "0") |
| PatchSkbuildConstants.SitePackages.PatchConstants | tools/patch_skbuild_constants.py:6-39 | returns 0 on every path; writes the patched text exactly when the file exists, is readable and writable, and the text changes; otherwise leaves the file alone |
| PatchSkbuildConstants.SitePackages.constructor | tools/patch_skbuild_constants.py:8-11 | the directory holds the given file state and nothing has been written yet |
| PatchSkbuildConstants.PatchTwice | tools/patch_skbuild_constants.py:15-27 | running the script twice on a file that holds the needle leaves the patched text after the first run and the patched patched text after the second; each run changes the text, and the file is written twice |
| Setup.MacosMajorMinor | setup.py:51-63 | major is the first dot component of `mac_ver()`; an empty result or an exception gives ("15", "0") |
| Setup.PlatName | setup.py:72-75 | the name is `macosx-major.minor-` followed by "arm64" for machine "arm64" and by "x86_64" for every other machine, so it ends in `-arm64` exactly for "arm64" |
| Setup.ReadMacosVersion | setup.py:51-63 | the two locals equal the major and minor derived from `mac_ver()` |
| Setup.SetPlatName | setup.py:47-86 | off darwin the environment is unchanged; on darwin exactly `_SKBUILD_PLAT_NAME` is added, an existing value is never overwritten and every other variable keeps its value |
| Setup.MacosVersionComponents | setup.py:55-57 | for "M.m…" the major is M and the minor is the second dot component |
| Setup.MacosBareMajor | setup.py:55-57 | a version without '.' gets minor "0" |
| Setup.TakeUnquotedFollowed | setup.py:117-119 | the version capture stops exactly at the first quote |
| Setup.MatchAtIff | setup.py:117-119 | the matcher accepts a line exactly when it is `__version__ = ` followed by a quoted, quote-free value |
| Setup.FirstMatchFrom | setup.py:117-121 | returns the first line start at or after the given index where the version pattern matches, and None when no such line exists |
| Setup.FindVersion | setup.py:115-123 | a success is the quote-free value of a matching line; the failure is "Unable to find version string." and happens exactly when no line matches |
| Setup.FindVersionFirstLine | setup.py:117-121 | a text that starts with the version line yields its value |
| Setup.FindVersionLeftmost | setup.py:117-121 | the earliest matching line wins |
| Setup.ClassifierLines | setup.py:148-155 | the classifier block contains every classifier, quoted |
| FixWheelPythonVersion.OldRef | fix_wheel_python_version.py:29 | the old reference is a non-empty word without whitespace |
| FixWheelPythonVersion.PlanLines | fix_wheel_python_version.py:26-32 | at most one change per line, and each change targets "@rpath/Python" |
| FixWheelPythonVersion.PlanLinesAppend | fix_wheel_python_version.py:26-32 | planning distributes over concatenation, so changes keep the order of their lines |
| FixWheelPythonVersion.PlanLinesNonEmpty | fix_wheel_python_version.py:26-32 | some change is planned exactly when some line contains "@rpath/libpython" and ".dylib" |
| FixWheelPythonVersion.LineNeedsChange | fix_wheel_python_version.py:27 | an otool line needs a change exactly when its install name does |
| FixWheelPythonVersion.OldRefOfLine | fix_wheel_python_version.py:29 | the first word of an otool line is its install name |
| FixWheelPythonVersion.PlanOfLines | fix_wheel_python_version.py:26-32 | planning over otool lines equals planning over the load commands they print |
| FixWheelPythonVersion.PlanOfListing | fix_wheel_python_version.py:20-32 | planning over the whole `otool -L` output equals planning over the load commands |
| FixWheelPythonVersion.NewRefIsFinal | fix_wheel_python_version.py:27-31 | "@rpath/Python" never needs retargeting |
| FixWheelPythonVersion.MentionedByPlan | fix_wheel_python_version.py:26-32 | a name is mentioned by the plan exactly when some load command with that name needs retargeting |
| FixWheelPythonVersion.PlanRetargets | fix_wheel_python_version.py:26-32 | every planned change maps a name that needs retargeting to "@rpath/Python" |
| FixWheelPythonVersion.ApplyPlanRetargets | fix_wheel_python_version.py:35-40 | applying the changes in order retargets exactly the commands that need it |
| FixWheelPythonVersion.RetargetIsFinal | fix_wheel_python_version.py:27-31 | after retargeting nothing needs retargeting and every command stays well formed |
| FixWheelPythonVersion.FixIsIdempotent | fix_wheel_python_version.py:15-42 | for a plain path and load commands as `otool -L` prints them (`WellFormed`), re-planning a fixed file yields no changes |
| FixWheelPythonVersion.PlanForNonEmpty | fix_wheel_python_version.py:26-32 | a plan is non-empty exactly when some load command needs retargeting |
| FixWheelPythonVersion.FixSoFileEffect | fix_wheel_python_version.py:15-42 | for a plain path and load commands as `otool -L` prints them (`WellFormed`), changes are planned exactly when a reference needs retargeting, and applying them retargets exactly those |
| FixWheelPythonVersion.Applied | fix_wheel_python_version.py:35-40 | the number of changes made is at most the plan's length, and when it falls short the next call is the one that exits non-zero |
| FixWheelPythonVersion.AppliedPrefix | fix_wheel_python_version.py:35-40 | every call made before the stopping point exits with 0 |
| FixWheelPythonVersion.AppliedAll | fix_wheel_python_version.py:35-40 | the whole plan is applied exactly when no `install_name_tool` call of it fails |
| FixWheelPythonVersion.ToolsSucceedIff | fix_wheel_python_version.py:18-40 | `fix_so_file` returns without raising exactly when `otool` and every planned `install_name_tool` call exit with 0 |
| FixWheelPythonVersion.AfterFix | fix_wheel_python_version.py:18-40 | a failing `otool` leaves the module's load commands unchanged, and their number never changes |
| FixWheelPythonVersion.AfterFixSucceeded | fix_wheel_python_version.py:35-40 | with every tool call succeeding, the whole plan is applied |
| FixWheelPythonVersion.PartialRetarget | fix_wheel_python_version.py:35-40 | any run of planned changes leaves each load command either as it was or as Retarget makes it |
| FixWheelPythonVersion.AfterFixSays | fix_wheel_python_version.py:15-42 | with every tool succeeding the module is exactly retargeted; after a failure each load command is either unchanged or retargeted, never renamed to anything else |
| FixWheelPythonVersion.SharedObject.constructor | fix_wheel_python_version.py:15 | a shared object holds its path and load commands |
| FixWheelPythonVersion.PlanChanges | fix_wheel_python_version.py:26-32 | the loop over the otool lines collects exactly the planned changes, one per libpython line, in line order |
| FixWheelPythonVersion.FixSoFile | fix_wheel_python_version.py:15-42 | the result is Ok exactly when `otool` and every `install_name_tool` call exit with 0, and then it is true exactly when a change was planned; the load commands end as AfterFix says, which is the fully applied plan on success |
| FixWheelPythonVersion.MakeChanges | fix_wheel_python_version.py:35-40 | the changes are made in order up to the first failing call, and the loop completes exactly when no call fails |
| FixWheelPythonVersion.WithSuffix | fix_wheel_python_version.py:71-72 | the renamed path ends in the new suffix |
| FixWheelPythonVersion.BackupPath | fix_wheel_python_version.py:71-72 | the backup path ends in ".whl.backup"; it fails only for an empty path or one ending in '/' |
| FixWheelPythonVersion.BackupOfWheel | fix_wheel_python_version.py:71-72 | the backup of "x.whl" is "x.whl.backup" |
| FixWheelPythonVersion.RelativeTo | fix_wheel_python_version.py:81-86 | an archive member name is the path relative to the extraction directory |
| FixWheelPythonVersion.FixAll | fix_wheel_python_version.py:59-63 | on success every module is fully fixed and the result is true exactly when some module needed a change; a tool failure stops the loop at the first failing module, which is left as AfterFix says, with the modules before it fully fixed and the ones after it untouched |
| FixWheelPythonVersion.ArchiveNames | fix_wheel_python_version.py:83-86 | one archive name per walked file, in walk order, each being that file's path relative to the extraction directory |
| FixWheelPythonVersion.FixWheel | fix_wheel_python_version.py:44-88 | a tool failure in any module, or an unusable backup name when a change is needed, is an error, so a failed tool never leads to a rebuild; with every tool succeeding and no change needed there is no backup and no rebuild; otherwise the wheel is backed up to `<wheel>.backup` when it exists and rebuilt from every extracted file, named relative to the extraction directory |
| WheelCompatibility.CheckImport | tests/test_wheel_compatibility.py:79-100 | exit codes -11 and 139 are a segfault, any other non-zero code fails, and 0 passes |
| WheelCompatibility.CheckImportPasses | tests/test_wheel_compatibility.py:79-100 | the import check passes exactly for exit code 0 or a package that is not installed |
| WheelCompatibility.Step | tests/test_wheel_compatibility.py:172-192 | a dependency that is not a Python library changes no flag |
| WheelCompatibility.StepFlags | tests/test_wheel_compatibility.py:172-192 | the flags after one dependency: failure, a hard-coded framework path, and a portable path, each in terms of the dependency |
| WheelCompatibility.PortableNeverFails | tests/test_wheel_compatibility.py:182-187 | a Python library referenced through "@rpath" or "@executable_path" never fails |
| WheelCompatibility.RetargetedNameIsNotChecked | tests/test_wheel_compatibility.py:172 | "@rpath/Python", the name written by the wheel fixer, is not treated as a Python library and cannot fail |
| WheelCompatibility.NotPythonLib | tests/test_wheel_compatibility.py:172 | a name with no 'l' that is shorter than "Python.framework" is not taken for a Python library; this is how the retargeted name escapes the check |
| WheelCompatibility.PythonLibsOnly | tests/test_wheel_compatibility.py:159-172 | the kept dependencies are all Python libraries, and there are no more of them than dependencies |
| WheelCompatibility.OtherDependenciesIgnored | tests/test_wheel_compatibility.py:159-192 | a dependency that is not a Python library cannot affect the check: dropping all such dependencies, and the skipped lines, leaves every flag unchanged |
| WheelCompatibility.DependencyOf | tests/test_wheel_compatibility.py:159-169 | a checked dependency is a non-empty word that is not the file itself; blank lines are skipped |
| WheelCompatibility.Dependencies | tests/test_wheel_compatibility.py:159 | the first line (the file itself) is skipped, and every following line is examined in order |
| WheelCompatibility.FlagsOverPrefix | tests/test_wheel_compatibility.py:159-192 | the flags after a prefix of the lines extend by one step per line |
| WheelCompatibility.FlagsOverClosedForm | tests/test_wheel_compatibility.py:155-192 | all_good holds exactly when no dependency fails; each of the other flags is set exactly when some dependency sets it |
| WheelCompatibility.ReportMeaning | tests/test_wheel_compatibility.py:148-199 | a summary is printed exactly when otool gave two lines or more; it reports hard-coded paths exactly when some Python library has a framework path, and a passing module never reports them |
| WheelCompatibility.UpdateFlags | tests/test_wheel_compatibility.py:172-192 | the three flags are updated as one step over the dependency |
| WheelCompatibility.ScanLines | tests/test_wheel_compatibility.py:155-192 | the loop over the otool lines computes the flags of all dependencies |
| WheelCompatibility.CheckModule | tests/test_wheel_compatibility.py:137-206 | a module passes exactly when otool succeeded, gave at least two lines, and no dependency fails |
| WheelCompatibility.CheckModules | tests/test_wheel_compatibility.py:136-208 | the result is true exactly when every module passes |
| WheelCompatibility.CheckLibraryPaths | tests/test_wheel_compatibility.py:103-208 | true off Darwin and when the package cannot be located; otherwise true exactly when the lib directory exists, holds modules, and all of them pass |
| WheelCompatibility.ShortListingFails | tests/test_wheel_compatibility.py:148-152 | a listing of fewer than two lines fails the module |
| WheelCompatibility.ClassifyInstallPrecedence | tests/test_wheel_compatibility.py:225-236 | framework first, then Homebrew (with or without "Cellar"), then pyenv, then unknown, each as an iff |
| WheelCompatibility.FrameworkWins | tests/test_wheel_compatibility.py:226-227 | any path containing the framework marker is classified as framework |
| ListReleaseWheels.Wheels | list_release_wheels.py:19-20 | exactly the assets whose name ends in ".whl" are kept |
| ListReleaseWheels.WheelsAppend | list_release_wheels.py:19-20 | the filter distributes over concatenation, keeping order |
| ListReleaseWheels.NoWheelsIff | list_release_wheels.py:22-24 | there are no wheels exactly when no asset name ends in ".whl" |
| ListReleaseWheels.Insert | list_release_wheels.py:29 | inserting adds exactly one element |
| ListReleaseWheels.InsertSorted | list_release_wheels.py:29 | inserting into a sorted list keeps it sorted |
| ListReleaseWheels.SortByName | list_release_wheels.py:29 | sorting is a permutation |
| ListReleaseWheels.SortByNameSorted | list_release_wheels.py:29 | the result is in ascending name order |
| ListReleaseWheels.WhlBorderFree | list_release_wheels.py:35 | ".whl" cannot overlap itself, so removing it is unambiguous |
| ListReleaseWheels.DetailsOfParts | list_release_wheels.py:35-39 | a name of four or more dash-separated parts reports parts 1, 2 and 3 |
| ListReleaseWheels.PlatformIsAbiTag | list_release_wheels.py:37-39 | for a wheel named by the wheel file name convention of PEP 427, the "Platform" column shows the ABI tag |
| ListReleaseWheels.BuildTagShifts | list_release_wheels.py:37-39 | with a build tag, the columns show version, build tag and Python tag |
| ListReleaseWheels.ShortNameHasNoDetails | list_release_wheels.py:36 | a name with three parts gets no details |
| ListReleaseWheels.Entries | list_release_wheels.py:29-39 | each entry belongs to a listed wheel and carries that wheel's details; every wheel with details has an entry |
| ListReleaseWheels.EntriesSorted | list_release_wheels.py:29 | entries come in ascending name order |
| ListReleaseWheels.Urls | list_release_wheels.py:51 | the URLs of the given wheels, in order |
| ListReleaseWheels.ListWheelsSays | list_release_wheels.py:19-51 | nothing is listed exactly when there are no wheels; otherwise the count, sorted entries from the release, and the URLs of the first three wheels in release order |
| Runners.FirstGlob | run_all_tests.py:119-121 | the first name matching the pattern, and None exactly when no name matches |
| Runners.WheelForArchSays | run_all_tests.py:115-135 | the wheel is the first match of the architecture's pattern, otherwise the first wheel, and None exactly when there is no wheel |
| Runners.Keys | run_all_tests.py:256-259 | the keys of a dict, in insertion order |
| Runners.Lookup | run_all_tests.py:256-259 | None exactly for a missing key; otherwise the value stored under it |
| Runners.Put | run_all_tests.py:295 | `d[k] = v` keeps the keys of an existing key and appends a new one |
| Runners.PutLookup | run_all_tests.py:295 | after `d[k] = v`, k maps to v and every other key is unchanged |
| Runners.PutTwice | run_all_tests.py:295 | the second assignment to a key overwrites the first |
| Runners.PutDistinct | run_all_tests.py:295 | assignment keeps the keys distinct |
| Runners.AppendToLookup | run_all_tests.py:74-80 | `setdefault(k, []).append(x)` appends x under k and leaves other keys alone |
| Runners.GroupSnoc | run_all_tests.py:74-80 | grouping one more interpreter appends it under its key |
| Runners.GroupSays | run_all_tests.py:74-80 | a key maps to exactly the interpreters found under it, in order, and is absent when there are none |
| Runners.SelectEmpty | run_all_tests.py:74-80 | no interpreters are selected for a key exactly when none was found under it |
| Runners.StatusesOf | run_all_tests.py:309-311 | the statuses of one interpreter's results, in order |
| Runners.Count | run_all_tests.py:304-324 | a count never exceeds the number of results |
| Runners.CountAppend | run_all_tests.py:304-324 | counts add over concatenation |
| Runners.CountsPartition | run_all_tests.py:304-324 | the five statuses partition the results |
| Runners.CountPositive | run_all_tests.py:304-331 | a count is positive exactly when the status occurs |
| RunAllTests.FileArch | run_all_tests.py:68-72 | the architecture is one of "universal", "x86_64" and "arm64" |
| RunAllTests.FileArchCases | run_all_tests.py:68-72 | both names give "universal", x86_64 alone gives "x86_64", and anything without x86_64 gives "arm64" |
| RunAllTests.ProbeHomebrew | run_all_tests.py:53-80 | an interpreter is recorded exactly when it exists, `--version` completes with 0 and `file` completes; its architecture is read from `file` |
| RunAllTests.MajorMinorOf | run_all_tests.py:94-96 | the first two dot components of the version token |
| RunAllTests.ProbeSystem | run_all_tests.py:85-111 | the system interpreter is recorded exactly when it exists, `--version` completes with 0 and prints at least two words, the major.minor of the second word is supported, and `file` completes; its key is that major.minor, and it is "universal" exactly when `file` says "universal", otherwise "arm64" |
| RunAllTests.PathsFor | run_all_tests.py:50-52 | the Homebrew paths tried for a version, in order |
| RunAllTests.FoundAt | run_all_tests.py:51-80 | everything found for a version is keyed by it and lives at one of its paths |
| RunAllTests.FoundHomebrew | run_all_tests.py:50-82 | every Homebrew interpreter found is keyed by a listed version and lives at that version's path |
| RunAllTests.FoundSupported | run_all_tests.py:45-113 | every interpreter found has a supported version |
| RunAllTests.FoundAtComplete | run_all_tests.py:51-80 | an interpreter found at a listed path is recorded under the version |
| RunAllTests.FoundHomebrewComplete | run_all_tests.py:50-82 | an interpreter found at either base for a listed version is recorded under that version |
| RunAllTests.FoundComplete | run_all_tests.py:45-113 | every interpreter the Homebrew probes or the system probe find is recorded, under its version key |
| RunAllTests.ProbeVersion | run_all_tests.py:51-80 | the dict gains exactly the interpreters found for one version |
| RunAllTests.FindPythonVersions | run_all_tests.py:45-113 | the dict groups every interpreter found, by version, in discovery order |
| RunAllTests.TestCommand | run_all_tests.py:162-181 | the test command, prefixed with `arch -x86_64` in x86_64 mode |
| RunAllTests.RunTestStatus | run_all_tests.py:137-192 | a missing test file gives "skipped"; a failed install gives "error"; otherwise "passed" exactly for return code 0, "timeout" and "error" for a timeout or exception |
| RunAllTests.PassResults | run_all_tests.py:256-280 | one result per test, keyed by test name and suffix, with that test's status |
| RunAllTests.TestNamesDistinct | run_all_tests.py:24-28 | the test names, with or without the "_x86_64" suffix, never collide |
| RunAllTests.InterpreterResultsShape | run_all_tests.py:256-280 | the native results always; the Rosetta results, suffixed "_x86_64", exactly when the machine and the interpreter allow it |
| RunAllTests.PassKeyFresh | run_all_tests.py:256-280 | a key added by a pass was not already present |
| RunAllTests.RunPass | run_all_tests.py:256-280 | the loop over the tests appends exactly that pass's results |
| RunAllTests.TestInterpreter | run_all_tests.py:254-295 | an interpreter's results are the native pass plus, under Rosetta, the x86_64 pass |
| RunAllTests.SameKeyKeepsLast | run_all_tests.py:295 | two interpreters of one version and architecture share a key, and the later results win |
| RunAllTests.TestVersion | run_all_tests.py:228-296 | the dict after one version is the function of the dict before |
| RunAllTests.AllResultsSnoc | run_all_tests.py:228-296 | results accumulate version by version |
| RunAllTests.TestAll | run_all_tests.py:228-296 | the loop over the versions computes all results |
| RunAllTests.TallyTests | run_all_tests.py:311-324 | the running totals grow by the number of results and by the number of passed, failed and skipped results; any other status adds to the total only |
| RunAllTests.Summarize | run_all_tests.py:304-324 | total counts every result, and passed, failed and skipped count their statuses |
| RunAllTests.RunAll | run_all_tests.py:194-331 | 1 when no interpreter is found, otherwise 1 exactly when some test failed |
| RunAllTests.SummaryBounds | run_all_tests.py:304-324 | passed + failed + skipped ≤ total, with equality exactly when no result is "error" or "timeout" |
| RunTestsSimple.ArchOf | run_tests_simple.py:59-71 | the architecture is one of "universal", "arm64", "x86_64" and "unknown" |
| RunTestsSimple.CheckPythonArch | run_tests_simple.py:59-71 | "unknown" exactly when `file` does not complete or names neither architecture |
| RunTestsSimple.ArchOfCases | run_tests_simple.py:59-71 | both names give "universal", arm64 alone "arm64", x86_64 alone "x86_64", neither "unknown" |
| RunTestsSimple.ArchAgreesWithRunAllTests | run_tests_simple.py:59-71 | the two scripts agree whenever an architecture is named; otherwise this one says "unknown" where the other says "arm64" |
| RunTestsSimple.Probe | run_tests_simple.py:125-142 | an interpreter is recorded exactly when it exists and `--version` completes with 0, with the architecture `file` reports |
| RunTestsSimple.DiscoveredAt | run_tests_simple.py:125-142 | every interpreter found exists and is one of the version's paths |
| RunTestsSimple.DiscoveredIn | run_tests_simple.py:125-142 | every interpreter found exists, has the architecture `file` reports, and is keyed "version_arch" |
| RunTestsSimple.DiscoveredAtComplete | run_tests_simple.py:125-142 | completeness for one version: every listed path that exists and answers `--version` with 0 is recorded, keyed "version_arch" |
| RunTestsSimple.DiscoveredInComplete | run_tests_simple.py:125-142 | completeness for the whole table: every listed path of every version that exists and answers `--version` with 0 is recorded |
| RunTestsSimple.OptionalListingRedundant | run_tests_simple.py:28-35 | listing an optional path only when it exists discovers the same interpreters as listing it always |
| RunTestsSimple.DiscoverVersion | run_tests_simple.py:125-142 | the dict gains exactly the interpreters found for one version |
| RunTestsSimple.DiscoveredInSnoc | run_tests_simple.py:125-142 | discovery accumulates version by version |
| RunTestsSimple.Discover | run_tests_simple.py:125-142 | the dict groups every interpreter found under "version_arch", in discovery order |
| RunTestsSimple.X86ModePrefixesBoth | run_tests_simple.py:80-94 | in x86_64 mode the install and test commands are the native ones behind `arch -x86_64` |
| RunTestsSimple.RunTestAgreesWithRunAllTests | run_tests_simple.py:73-107 | the status equals the one of run_all_tests.py in native mode, and whenever the install does not run |
| RunTestsSimple.Truncate | run_tests_simple.py:87 | `s[:n]`: a prefix of at most n characters, the whole string when it is short enough |
| RunTestsSimple.RunTestSays | run_tests_simple.py:73-107 | "skipped" exactly for a missing test file; an install failure is "error" with at most 200 characters of stderr as its reason; otherwise "passed" exactly for return code 0; a reason only accompanies skipped, error and timeout |
| RunTestsSimple.PassResults | run_tests_simple.py:181-211 | one result per test file, keyed by file name and suffix, with that test's status |
| RunTestsSimple.TestNamesDistinct | run_tests_simple.py:12-25 | the test file names, with or without the suffix, never collide |
| RunTestsSimple.InterpreterResultsShape | run_tests_simple.py:181-211 | the native results always; the x86_64 results exactly for a "universal" interpreter |
| RunTestsSimple.PassKeyFresh | run_tests_simple.py:181-211 | a key added by a pass was not already present |
| RunTestsSimple.RunPass | run_tests_simple.py:181-211 | the loop over the test files appends exactly that pass's results |
| RunTestsSimple.TestInterpreter | run_tests_simple.py:175-211 | an interpreter's results are the native pass plus, for "universal", the x86_64 pass |
| RunTestsSimple.TestKey | run_tests_simple.py:159-231 | the dict after one key is the function of the dict before |
| RunTestsSimple.AllResultsSnoc | run_tests_simple.py:159-231 | results accumulate key by key |
| RunTestsSimple.TestAll | run_tests_simple.py:159-231 | the loop over the keys computes all results |
| RunTestsSimple.Summarize | run_tests_simple.py:239-253 | total counts every result, passed counts "passed", and every other result counts as failed |
| RunTestsSimple.FailedIsNotPassed | run_tests_simple.py:239-253 | the failed count is the sum of the four other statuses, and is 0 exactly when every result passed |
| RunTestsSimple.RunSimple | run_tests_simple.py:109-258 | 1 when no interpreter is found, otherwise 0 exactly when every result passed |
| RunTestsSimple.StricterThanRunAllTests | run_tests_simple.py:239-258 | any failed, skipped, error or timeout result makes this script fail |
| HwTest.ChoosePorts | tests/run_hw_test_if_available.py:56-90 | the test is skipped exactly when no ports can be chosen, and otherwise runs on the chosen pair |
| HwTest.GivenPortsKept | tests/run_hw_test_if_available.py:77-81 | a port that is given is never replaced |
| HwTest.ExplicitPortsIgnoreDetection | tests/run_hw_test_if_available.py:61-90 | with both ports given, detection plays no part |
| HwTest.SkipIff | tests/run_hw_test_if_available.py:61-69 | the skip happens exactly when a port is missing and no port is detected |
| HwTest.MissingPortsDetected | tests/run_hw_test_if_available.py:77-88 | a missing PORT_A is the first detected port; a missing PORT_B the second, or the first when only one is detected |
| HwTest.OneDeviceServesBoth | tests/run_hw_test_if_available.py:77-88 | with one device and no port given, both ports are that device |
| HwTest.TestCommandSays | tests/run_hw_test_if_available.py:99-113 | the command names the chosen ports and the defaults NRF52, 1, info and info for unset variables |
| HwTest.RunHwTest | tests/run_hw_test_if_available.py:51-136 | 0 for the skip; 1 for a missing test script; otherwise the exit code of the test run on the chosen ports |
| CMakeRpathConfig.AppleStart | tests/test_cmake_rpath_config.py:50 | the block starts within the text |
| CMakeRpathConfig.AppleEnd | tests/test_cmake_rpath_config.py:53 | the window ends 500 characters on or at the end of the text |
| CMakeRpathConfig.TestCMakeRpathConfig | tests/test_cmake_rpath_config.py:13-76 | true exactly when the file exists and all six checks hold |
| CMakeRpathConfig.AppleBlockWindow | tests/test_cmake_rpath_config.py:48-58 | the APPLE check passes exactly when the rpath setting lies wholly within 500 characters from the first "if(APPLE" |
| CMakeRpathConfig.AppleBlockSkipped | tests/test_cmake_rpath_config.py:48 | without "if(APPLE" the APPLE check does not apply |
| CMakeRpathConfig.ContainsLower | tests/test_cmake_rpath_config.py:70 | lowering a text lowers every occurrence in it |
| CMakeRpathConfig.PythonLibAnyCase | tests/test_cmake_rpath_config.py:70-74 | "libpython" in any letter case satisfies the library check |
| CMakeRpathConfig.PostBuildNeedsChange | tests/test_cmake_rpath_config.py:61-67 | with a post-build command, the check reduces to the presence of "-change" |
| CMakeRpathConfig.TestPythonVersionSupport | tests/test_cmake_rpath_config.py:79-101 | true exactly when the file exists and declares every version from 3.8 to 3.13 as a quoted classifier |
| CMakeRpathConfig.SetupDeclaresSupported | setup.py:148-155 | the classifier block of setup.py declares every supported version, whatever text surrounds it |
| CMakeRpathConfig.RunChecks | tests/test_cmake_rpath_config.py:104-121 | 0 exactly when both checks pass, otherwise 1 |

## Left out

- Subprocesses (`otool`, `install_name_tool`, `file`, `pip`, `arch`, `venv`, the test scripts) are not run. Their outputs are inputs, their exit codes are a function of the command line, and their effects are values: load commands rewritten, statuses, return codes.
- Timeouts are not measured. A timeout is one of the outcomes a command can have.
- Zip extraction and re-archiving, temporary directories, `shutil` copies, and the order of `glob`, `rglob` and `os.walk` are not modelled. Every directory listing is a given sequence.
- FixWheel: the extraction of the wheel is not modelled, so the error a missing or unreadable wheel raises there (fix_wheel_python_version.py:52) is not either; `wheelExists` stands only for the `exists()` test before the backup.
- Network access is not modelled. The release read from the GitHub API in list_release_wheels.py is an input; the default release tag on the command line is not modelled.
- All printing is left out, including the MB sizes, which are floating point. So are reasons built from exception messages: a reason is modelled only where the script fixes its text (missing test file, failed install with `stderr[:200]`, timeout).
- Serial-port enumeration through the native driver in tests/run_hw_test_if_available.py is not modelled. The detected ports are an input, and `sys.executable` and the script directory are parameters.
- The working directory and the copied environment of subprocesses are left out.
- RunAllTests.TestAll: the test loop visits the versions in discovery order, not in the `sorted()` order of run_all_tests.py:228. This changes only the order of the entries of `results` (and so of the summary that walks it); the key-to-results mapping, the counts and the exit code are the same.
- RunTestsSimple.TestAll: the test loop visits the keys in discovery order, not in the `sorted()` order of run_tests_simple.py:159. As above, only the order of the entries of `results` differs.
- ListReleaseWheels.SortByName: proved sorted and a permutation, but not stable.
- `str.lower` is modelled for ASCII letters only.
- Path normalisation by `pathlib` is left out; paths are strings joined with '/'.
- `python_lib_found` in tests/test_wheel_compatibility.py is never read, so it is not modelled.
- From tests/test_wheel_compatibility.py, argument parsing, `main` and the version and platform printed by `check_python_info` are left out.
- setup.py outside the darwin block, `find_version` and the classifiers (the `setup()` call, the build configuration) is not part of this model.
- The return code of the `file` command is ignored, as both runners ignore it.
- test_release_quick.py is not part of this model; it downloads and installs a wheel, and its only logic is a six-entry version to cp-tag table.
- bundle_into_wheel.py is not part of this model; it copies files and runs `install_name_tool` around fixed paths, with existence checks as its only decisions.
- example_usage.py is not part of this model; it calls the native BLE driver.
- The `.tox_find_wheel*.py` helpers are not part of this model.
