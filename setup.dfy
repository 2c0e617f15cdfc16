/**
 * setup.py: before scikit-build is imported on macOS, `_SKBUILD_PLAT_NAME` is set
 * to `macosx-<major>.<minor>-<arch>` unless the environment already holds it; and
 * `find_version` extracts the package version from `__init__.py`.
 */
module Setup {
  import opened Wrappers
  import opened Strings

  const PLAT_NAME_KEY := "_SKBUILD_PLAT_NAME"

  /** A call into the `platform` module: the value it returns, or an exception. */
  datatype Probe = Value(value: string) | Raised

  /** The major and minor macOS version read from `platform.mac_ver()[0]`, with fallback "15", "0". */
  function MacosMajorMinor(macVer: Probe): (mm: (string, string))
    ensures macVer.Raised? || macVer.value == "" ==> mm == ("15", "0")
    ensures macVer.Value? && macVer.value != "" ==> mm.0 == Split(macVer.value, '.')[0]
  {
    if macVer.Raised? || macVer.value == "" then ("15", "0")
    else
      var parts := Split(macVer.value, '.');
      var major := if |parts| > 0 then parts[0] else "15";
      var minor := if |parts| > 1 then parts[1] else "0";
      (major, minor)
  }

  /**
   * The platform name for a version and a machine string: arm64, or x86_64 for every
   * other machine. Both spellings of setup.py share one layout.
   */
  function PlatName(major: string, minor: string, arch: string): (name: string)
    ensures name == "macosx-" + major + "." + minor + "-" + (if arch == "arm64" then "arm64" else "x86_64")
    ensures StartsWith(name, "macosx-" + major + "." + minor + "-")
    ensures EndsWith(name, "-arm64") <==> arch == "arm64"
    ensures arch != "arm64" ==> EndsWith(name, "-x86_64")
  {
    var prefix := "macosx-" + major + "." + minor;
    var name := if arch == "arm64" then prefix + "-arm64" else prefix + "-x86_64";
    var tail := if arch == "arm64" then "arm64" else "x86_64";
    assert name == prefix + "-" + tail;
    assert name[..|prefix + "-"|] == prefix + "-";
    assert name[|name| - |"-" + tail|..] == "-" + tail;
    assert arch != "arm64" ==> name[|name| - 7..] == "-x86_64" && name[|name| - 6..] != "-arm64";
    name
  }

  /** The `try` around `platform.mac_ver()` of setup.py, assigning `major` and `minor`. */
  method ReadMacosVersion(macVer: Probe) returns (major: string, minor: string)
    ensures (major, minor) == MacosMajorMinor(macVer)
  {
    if macVer.Raised? {
      major, minor := "15", "0";
    } else if macVer.value != "" {
      var parts := Split(macVer.value, '.');
      major := if |parts| > 0 then parts[0] else "15";
      minor := if |parts| > 1 then parts[1] else "0";
    } else {
      major, minor := "15", "0";
    }
  }

  /**
   * The darwin block of setup.py, as the environment it leaves behind: the key is
   * added when missing and nothing that was already set is overwritten.
   */
  method SetPlatName(sysPlatform: string, environ: map<string, string>, macVer: Probe, machine: Probe)
    returns (env: map<string, string>)
    ensures sysPlatform != "darwin" ==> env == environ
    ensures sysPlatform == "darwin" ==> env.Keys == environ.Keys + {PLAT_NAME_KEY}
    ensures forall k :: k in environ ==> k in env && env[k] == environ[k]
    ensures sysPlatform == "darwin" && PLAT_NAME_KEY !in environ ==>
              var (major, minor) := MacosMajorMinor(macVer);
              env[PLAT_NAME_KEY] == PlatName(major, minor, if machine.Value? then machine.value else "arm64")
  {
    env := environ;
    if sysPlatform == "darwin" {
      if PLAT_NAME_KEY !in env {
        var major, minor := ReadMacosVersion(macVer);
        var arch := if machine.Value? then machine.value else "arm64";
        var name;
        if arch == "arm64" {
          name := "macosx-" + major + "." + minor + "-arm64";
        } else {
          name := "macosx-" + major + "." + minor + "-x86_64";
        }
        assert name == PlatName(major, minor, arch);
        env := env[PLAT_NAME_KEY := name];
      }
      assert PLAT_NAME_KEY in env;
      if PLAT_NAME_KEY !in env {
        // last-resort fallback of setup.py; never reached, since the block above always sets the key
        var arch := match machine case Value(a) => a case Raised => "arm64";
        env := env[PLAT_NAME_KEY := if arch == "arm64" then "macosx-15.0-arm64" else "macosx-15.0-x86_64"];
      }
    }
  }

  /** A version "major.minor[.patch...]" yields exactly its first two components. */
  lemma MacosVersionComponents(major: string, minor: string, rest: string)
    requires major != "" && '.' !in major && '.' !in minor
    ensures MacosMajorMinor(Value(major + "." + minor + rest)) == (major, if rest == "" || rest[0] == '.' then minor else Split(minor + rest, '.')[0])
    ensures rest == "" ==> MacosMajorMinor(Value(major + "." + minor)) == (major, minor)
  {
    var tail := minor + rest;
    var v := major + "." + minor + rest;
    assert v == major + ['.'] + tail;
    SplitCons(major, '.', tail);
    var parts := Split(v, '.');
    assert |parts| > 1 && parts[0] == major && parts[1] == Split(tail, '.')[0];
    assert MacosMajorMinor(Value(v)) == (major, Split(tail, '.')[0]);
    if rest == "" {
      assert tail == minor;
      SplitWithoutSeparator(minor, '.');
      assert v == major + "." + minor;
    } else if rest[0] == '.' {
      assert tail == minor + ['.'] + rest[1..];
      SplitCons(minor, '.', rest[1..]);
    }
  }

  /** A version without "." (such as "15") yields that major and minor "0". */
  lemma MacosBareMajor(major: string)
    requires major != "" && '.' !in major
    ensures MacosMajorMinor(Value(major)) == (major, "0")
  {
    SplitWithoutSeparator(major, '.');
  }

  // ---------------------------------------------------------------------------
  // find_version: re.search(r"^__version__ = ['\"]([^'\"]*)['\"]", text, re.M)
  // ---------------------------------------------------------------------------

  const VERSION_PREFIX := "__version__ = "

  predicate IsQuote(c: char) {
    c == '\'' || c == '"'
  }

  predicate QuoteFree(s: string) {
    forall k :: 0 <= k < |s| ==> !IsQuote(s[k])
  }

  /** `^` under re.M: the start of the text or just after a newline. */
  predicate LineStart(s: string, i: nat)
    requires i <= |s|
  {
    i == 0 || s[i - 1] == '\n'
  }

  /** `[^'\"]*`, greedy: the longest quote-free prefix. */
  function TakeUnquoted(s: string): (g: string)
    ensures g <= s && QuoteFree(g)
    ensures |g| < |s| ==> IsQuote(s[|g|])
    decreases |s|
  {
    if |s| == 0 || IsQuote(s[0]) then "" else [s[0]] + TakeUnquoted(s[1..])
  }

  /** The pattern tried at position `i`: the captured group when it matches there. */
  function MatchAt(s: string, i: nat): Option<string>
    requires i <= |s|
  {
    var p := |VERSION_PREFIX|;
    if VERSION_PREFIX <= s[i..] && i + p < |s| && IsQuote(s[i + p]) then
      var rest := s[i + p + 1..];
      var g := TakeUnquoted(rest);
      if |g| < |rest| then Some(g) else None
    else None
  }

  /** A version line at `i`: the prefix, a quote, `v` without quotes, a quote. */
  predicate VersionLineAt(s: string, i: nat, v: string)
    requires i <= |s|
  {
    var p := |VERSION_PREFIX|;
    && i + p + |v| + 2 <= |s|
    && s[i..i + p] == VERSION_PREFIX
    && IsQuote(s[i + p])
    && s[i + p + 1..i + p + 1 + |v|] == v
    && QuoteFree(v)
    && IsQuote(s[i + p + 1 + |v|])
  }

  lemma {:induction false} TakeUnquotedFollowed(v: string, rest: string)
    requires QuoteFree(v) && |rest| > 0 && IsQuote(rest[0])
    ensures TakeUnquoted(v + rest) == v
    decreases |v|
  {
    if |v| > 0 {
      assert (v + rest)[1..] == v[1..] + rest;
      TakeUnquotedFollowed(v[1..], rest);
    } else {
      assert v + rest == rest;
    }
  }

  /** The pattern matches at `i` with group `v` exactly when a version line for `v` starts at `i`. */
  lemma MatchAtIff(s: string, i: nat, v: string)
    requires i <= |s|
    ensures MatchAt(s, i) == Some(v) <==> VersionLineAt(s, i, v)
  {
    var p := |VERSION_PREFIX|;
    if MatchAt(s, i) == Some(v) {
      var rest := s[i + p + 1..];
      assert rest[..|v|] == v;
      assert s[i..i + p] == s[i..][..p];
    }
    if VersionLineAt(s, i, v) {
      assert s[i..][..p] == s[i..i + p];
      var rest := s[i + p + 1..];
      assert rest == v + rest[|v|..];
      TakeUnquotedFollowed(v, rest[|v|..]);
    }
  }

  /** The first position at or after `from` where the pattern matches at a line start. */
  function FirstMatchFrom(s: string, from: nat): (r: Option<nat>)
    requires from <= |s|
    ensures r.Some? ==> from <= r.value <= |s| && LineStart(s, r.value) && MatchAt(s, r.value).Some?
    ensures r.Some? ==> forall j :: from <= j < r.value ==> !(LineStart(s, j) && MatchAt(s, j).Some?)
    ensures r.None? ==> forall j :: from <= j <= |s| ==> !(LineStart(s, j) && MatchAt(s, j).Some?)
    decreases |s| - from
  {
    if LineStart(s, from) && MatchAt(s, from).Some? then Some(from)
    else if from == |s| then None
    else FirstMatchFrom(s, from + 1)
  }

  /** `find_version` on the text of the version file. */
  function FindVersion(text: string): (r: Result<string>)
    ensures r.Ok? ==> QuoteFree(r.value)
    ensures r.Ok? ==> exists i :: 0 <= i <= |text| && LineStart(text, i) && VersionLineAt(text, i, r.value)
    ensures r.Err? ==> r.message == "Unable to find version string."
    ensures r.Err? ==> forall i, v :: 0 <= i <= |text| && LineStart(text, i) ==> !VersionLineAt(text, i, v)
  {
    match FirstMatchFrom(text, 0)
    case Some(i) =>
      var v := MatchAt(text, i).value;
      MatchAtIff(text, i, v);
      Ok(v)
    case None =>
      assert (forall i, v :: 0 <= i <= |text| && LineStart(text, i) && VersionLineAt(text, i, v)
                ==> MatchAt(text, i).Some?) by {
        forall i, v | 0 <= i <= |text| && LineStart(text, i) && VersionLineAt(text, i, v)
          ensures MatchAt(text, i).Some?
        {
          MatchAtIff(text, i, v);
        }
      }
      Err("Unable to find version string.")
  }

  /** The version written on the first line comes back out. */
  lemma FindVersionFirstLine(v: string, q1: char, q2: char, rest: string)
    requires QuoteFree(v) && IsQuote(q1) && IsQuote(q2)
    ensures FindVersion(VERSION_PREFIX + [q1] + v + [q2] + rest) == Ok(v)
  {
    var s := VERSION_PREFIX + [q1] + v + [q2] + rest;
    var p := |VERSION_PREFIX|;
    assert s[0..p] == VERSION_PREFIX;
    assert s[p + 1..p + 1 + |v|] == v;
    assert VersionLineAt(s, 0, v);
    MatchAtIff(s, 0, v);
  }

  /**
   * The leftmost version line wins: when `v`'s line starts at `i` and no version
   * line starts at a line start before it, `find_version` returns `v`.
   */
  lemma FindVersionLeftmost(text: string, i: nat, v: string)
    requires i <= |text| && LineStart(text, i) && VersionLineAt(text, i, v)
    requires forall j, w :: 0 <= j < i && LineStart(text, j) ==> !VersionLineAt(text, j, w)
    ensures FindVersion(text) == Ok(v)
  {
    MatchAtIff(text, i, v);
    var r := FirstMatchFrom(text, 0);
    assert r.Some?;
    var k := r.value;
    var w := MatchAt(text, k).value;
    MatchAtIff(text, k, w);
    assert VersionLineAt(text, k, w);
    assert k == i;
  }

  // ---------------------------------------------------------------------------
  // classifiers
  // ---------------------------------------------------------------------------

  /** The "Programming Language" classifiers `setup()` declares, in order. */
  const PYTHON_CLASSIFIER := "Programming Language :: Python"
  const PYTHON_VERSION_CLASSIFIER := PYTHON_CLASSIFIER + " :: "
  const PYTHON_CLASSIFIERS := [
    PYTHON_CLASSIFIER,
    PYTHON_VERSION_CLASSIFIER + "3",
    PYTHON_VERSION_CLASSIFIER + "3.8",
    PYTHON_VERSION_CLASSIFIER + "3.9",
    PYTHON_VERSION_CLASSIFIER + "3.10",
    PYTHON_VERSION_CLASSIFIER + "3.11",
    PYTHON_VERSION_CLASSIFIER + "3.12",
    PYTHON_VERSION_CLASSIFIER + "3.13"]

  /** A string literal as written in the source: the text between double quotes. */
  function Quoted(s: string): string {
    "\"" + s + "\""
  }

  /** The classifier lines as they appear in setup.py: indented, quoted, each followed by a comma. */
  function ClassifierLines(cs: seq<string>): (text: string)
    ensures forall k :: 0 <= k < |cs| ==> Contains(text, Quoted(cs[k]))
  {
    if |cs| == 0 then ""
    else
      var line := "        " + Quoted(cs[0]) + ",\n";
      var rest := ClassifierLines(cs[1..]);
      assert Contains(line + rest, Quoted(cs[0])) by {
        ContainsMiddle("        ", Quoted(cs[0]), ",\n");
        assert line == "        " + Quoted(cs[0]) + ",\n";
        ContainsAppendRight(line, rest, Quoted(cs[0]));
      }
      assert forall k :: 1 <= k < |cs| ==> Contains(line + rest, Quoted(cs[k])) by {
        forall k | 1 <= k < |cs| ensures Contains(line + rest, Quoted(cs[k])) {
          assert cs[1..][k - 1] == cs[k];
          ContainsAppendLeft(line, rest, Quoted(cs[k]));
        }
      }
      line + rest
  }
}
