/**
 * What run_all_tests.py and run_tests_simple.py share: the outcome of a
 * subprocess, the machine the scripts look at, the choice of a wheel from the
 * `dist` directory, insertion-ordered dictionaries and the statuses a test ends in.
 */
module Runners {
  import opened Wrappers
  import opened Strings

  /** What `subprocess.run` gives back: the completed process, a timeout, or any other exception. */
  datatype Outcome = Completed(returncode: int, stdout: string, stderr: string) | TimedOut | Raised

  /**
   * The machine as the scripts see it: the paths that exist, the outcome of every
   * command vector, and the names `dist` holds, in the order the directory lists them.
   */
  datatype Machine = Machine(existing: set<string>, run: seq<string> -> Outcome, dist: seq<string>)

  /** An interpreter found: its path, its architecture and its `--version` output, stripped. */
  datatype Interpreter = Interpreter(path: string, arch: string, versionString: string)

  /** The `status` of a test result. */
  datatype Status = Passed | Failed | Skipped | Error | Timeout

  // ---------------------------------------------------------------------------
  // Path('dist').glob(pattern)
  // ---------------------------------------------------------------------------

  const WHL := ".whl"

  /** A name matched by `*<infix>*.whl`, or by `*.whl` when the infix is empty. */
  predicate GlobMatch(name: string, infix: string) {
    EndsWith(name, WHL) && Contains(name[..|name| - |WHL|], infix)
  }

  /** The first listed name the pattern matches: `wheels[0]` of the glob. */
  function FirstGlob(names: seq<string>, infix: string): (r: Option<string>)
    ensures r.Some? ==> r.value in names && GlobMatch(r.value, infix)
    ensures r.None? <==> forall n :: n in names ==> !GlobMatch(n, infix)
    ensures r.Some? ==> exists i :: 0 <= i < |names| && names[i] == r.value
                          && forall j :: 0 <= j < i ==> !GlobMatch(names[j], infix)
  {
    if |names| == 0 then None
    else if GlobMatch(names[0], infix) then Some(names[0])
    else
      var r := FirstGlob(names[1..], infix);
      assert r.Some? ==> exists i :: 0 <= i < |names[1..]| && names[1..][i] == r.value
                          && forall j :: 0 <= j < i ==> !GlobMatch(names[1..][j], infix);
      assert r.Some? ==> exists i :: 0 <= i < |names| && names[i] == r.value
                          && forall j :: 0 <= j < i ==> !GlobMatch(names[j], infix) by {
        if r.Some? {
          var i :| 0 <= i < |names[1..]| && names[1..][i] == r.value
                   && forall j :: 0 <= j < i ==> !GlobMatch(names[1..][j], infix);
          assert forall j :: 1 <= j < i + 1 ==> names[j] == names[1..][j - 1];
        }
      }
      r
  }

  /** The infix of the wheel pattern tried first for an architecture, if any. */
  function ArchPattern(arch: string): Option<string> {
    if arch == "arm64" then Some("arm64")
    else if arch == "x86_64" then Some("x86_64")
    else if arch == "universal" then Some("universal2")
    else None
  }

  /**
   * `get_wheel_path` / `get_wheel_for_arch`: the first wheel whose name fits the
   * architecture, else the first wheel of any kind, else None; as a path under `dist`.
   */
  function WheelForArch(arch: string, names: seq<string>): Option<string> {
    var specific := if ArchPattern(arch).Some? then FirstGlob(names, ArchPattern(arch).value) else None;
    if specific.Some? then Some("dist/" + specific.value)
    else
      var any := FirstGlob(names, "");
      if any.Some? then Some("dist/" + any.value) else None
  }

  /**
   * The selection with fallback: a wheel fitting the architecture wins when there is
   * one; otherwise the first wheel; None exactly when `dist` holds no wheel at all.
   */
  lemma WheelForArchSays(arch: string, names: seq<string>)
    ensures WheelForArch(arch, names).None? <==> forall n :: n in names ==> !EndsWith(n, WHL)
    ensures ArchPattern(arch).Some? && (exists n :: n in names && GlobMatch(n, ArchPattern(arch).value)) ==>
              WheelForArch(arch, names) == Some("dist/" + FirstGlob(names, ArchPattern(arch).value).value)
    ensures (ArchPattern(arch).None? || forall n :: n in names ==> !GlobMatch(n, ArchPattern(arch).value)) ==>
              WheelForArch(arch, names) == (if FirstGlob(names, "").Some? then Some("dist/" + FirstGlob(names, "").value) else None)
    ensures WheelForArch(arch, names).Some? ==>
              exists n :: n in names && EndsWith(n, WHL) && WheelForArch(arch, names) == Some("dist/" + n)
  {
    forall n | n in names && EndsWith(n, WHL) ensures GlobMatch(n, "") {
      assert "" <= n[..|n| - |WHL|];
    }
  }

  // ---------------------------------------------------------------------------
  // Dictionaries in insertion order
  // ---------------------------------------------------------------------------

  function Keys<V>(d: seq<(string, V)>): (ks: seq<string>)
    ensures |ks| == |d| && forall i :: 0 <= i < |d| ==> ks[i] == d[i].0
  {
    if |d| == 0 then [] else [d[0].0] + Keys(d[1..])
  }

  predicate DistinctKeys<V>(d: seq<(string, V)>) {
    forall i, j :: 0 <= i < j < |d| ==> d[i].0 != d[j].0
  }

  /** `d[k]`, or None when `k` is not a key. */
  function Lookup<V>(d: seq<(string, V)>, k: string): (r: Option<V>)
    ensures r.None? <==> k !in Keys(d)
    ensures r.Some? ==> exists i :: 0 <= i < |d| && d[i] == (k, r.value)
  {
    if |d| == 0 then None
    else if d[0].0 == k then Some(d[0].1)
    else
      var r := Lookup(d[1..], k);
      assert r.Some? ==> exists i :: 0 <= i < |d| && d[i] == (k, r.value) by {
        if r.Some? {
          var i :| 0 <= i < |d[1..]| && d[1..][i] == (k, r.value);
          assert d[i + 1] == (k, r.value);
        }
      }
      r
  }

  /** `d[k] = v`: an existing key keeps its place and takes the new value; a new key goes last. */
  function Put<V>(d: seq<(string, V)>, k: string, v: V): (r: seq<(string, V)>)
    ensures k in Keys(d) ==> Keys(r) == Keys(d)
    ensures k !in Keys(d) ==> r == d + [(k, v)]
  {
    if |d| == 0 then [(k, v)]
    else if d[0].0 == k then [(k, v)] + d[1..]
    else
      var r := [d[0]] + Put(d[1..], k, v);
      assert Keys(d) == [d[0].0] + Keys(d[1..]);
      assert k in Keys(d) ==> Keys(r) == [d[0].0] + Keys(Put(d[1..], k, v));
      assert k !in Keys(d) ==> d == [d[0]] + d[1..];
      r
  }

  /** After `d[k] = v`, `k` maps to `v` and every other key to what it mapped to before. */
  lemma {:induction false} PutLookup<V>(d: seq<(string, V)>, k: string, v: V, k': string)
    ensures Lookup(Put(d, k, v), k') == if k' == k then Some(v) else Lookup(d, k')
  {
    if |d| > 0 && d[0].0 != k {
      PutLookup(d[1..], k, v, k');
    }
  }

  /** Assigning a key twice keeps only the second value. */
  lemma {:induction false} PutTwice<V>(d: seq<(string, V)>, k: string, v1: V, v2: V)
    ensures Put(Put(d, k, v1), k, v2) == Put(d, k, v2)
  {
    if |d| > 0 && d[0].0 != k {
      PutTwice(d[1..], k, v1, v2);
      assert Put(d, k, v1)[1..] == Put(d[1..], k, v1);
    }
  }

  /** Assignment keeps keys distinct. */
  lemma PutDistinct<V>(d: seq<(string, V)>, k: string, v: V)
    requires DistinctKeys(d)
    ensures DistinctKeys(Put(d, k, v))
  {
    var r := Put(d, k, v);
    if k in Keys(d) {
      forall i, j | 0 <= i < j < |r| ensures r[i].0 != r[j].0 {
        assert Keys(r)[i] == Keys(d)[i] && Keys(r)[j] == Keys(d)[j];
      }
    } else {
      forall i | 0 <= i < |d| ensures d[i].0 != k {
        assert Keys(d)[i] == d[i].0;
      }
    }
  }

  /** `d.setdefault(k, []).append(x)`, written as the scripts write it. */
  function AppendTo<V>(d: seq<(string, seq<V>)>, k: string, x: V): seq<(string, seq<V>)> {
    var old_ := if k in Keys(d) then Lookup(d, k).value else [];
    Put(d, k, old_ + [x])
  }

  /** After appending `x` under `k`, `k` holds its former list (or none) followed by `x`; other keys are untouched. */
  lemma AppendToLookup<V>(d: seq<(string, seq<V>)>, k: string, x: V, k': string)
    ensures Lookup(AppendTo(d, k, x), k') ==
      if k' == k then Some((if k in Keys(d) then Lookup(d, k).value else []) + [x]) else Lookup(d, k')
  {
    PutLookup(d, k, (if k in Keys(d) then Lookup(d, k).value else []) + [x], k');
  }

  // ---------------------------------------------------------------------------
  // Interpreters grouped by key with setdefault(key, []).append(info)
  // ---------------------------------------------------------------------------

  /** The dictionary built by appending each found interpreter, in order, under its key. */
  function Group(es: seq<(string, Interpreter)>): seq<(string, seq<Interpreter>)> {
    if |es| == 0 then []
    else
      var e := es[|es| - 1];
      AppendTo(Group(es[..|es| - 1]), e.0, e.1)
  }

  lemma GroupSnoc(es: seq<(string, Interpreter)>, e: (string, Interpreter))
    ensures Group(es + [e]) == AppendTo(Group(es), e.0, e.1)
  {
    assert (es + [e])[..|es|] == es;
  }

  /** The interpreters recorded under `k`, in the order they were found. */
  function Select(es: seq<(string, Interpreter)>, k: string): seq<Interpreter> {
    if |es| == 0 then []
    else Select(es[..|es| - 1], k) + (if es[|es| - 1].0 == k then [es[|es| - 1].1] else [])
  }

  /**
   * The grouped dictionary: a key is present exactly when some interpreter was found
   * for it, and it holds those interpreters in the order they were found.
   */
  lemma {:induction false} GroupSays(es: seq<(string, Interpreter)>, k: string)
    ensures Lookup(Group(es), k) == if Select(es, k) == [] then None else Some(Select(es, k))
    decreases |es|
  {
    if |es| > 0 {
      var init := es[..|es| - 1];
      var e := es[|es| - 1];
      GroupSays(init, k);
      AppendToLookup(Group(init), e.0, e.1, k);
      assert Group(es) == AppendTo(Group(init), e.0, e.1);
      if e.0 == k {
        assert Select(es, k) == Select(init, k) + [e.1];
        assert k in Keys(Group(init)) <==> Select(init, k) != [];
      } else {
        assert Select(es, k) == Select(init, k);
      }
    }
  }

  /** No interpreter is recorded under a key exactly when none was found for it. */
  lemma {:induction false} SelectEmpty(es: seq<(string, Interpreter)>, k: string)
    ensures Select(es, k) == [] <==> forall e :: e in es ==> e.0 != k
    decreases |es|
  {
    if |es| > 0 {
      SelectEmpty(es[..|es| - 1], k);
      assert es == es[..|es| - 1] + [es[|es| - 1]];
    }
  }

  // ---------------------------------------------------------------------------
  // results: {key: {test name: result}}
  // ---------------------------------------------------------------------------

  /** Every status of `results`, in the order the summary visits them. */
  function Statuses(results: seq<(string, seq<(string, Status)>)>): (ss: seq<Status>)
  {
    if |results| == 0 then []
    else Statuses(results[..|results| - 1]) + StatusesOf(results[|results| - 1].1)
  }

  function StatusesOf(tests: seq<(string, Status)>): (ss: seq<Status>)
    ensures |ss| == |tests| && forall j :: 0 <= j < |tests| ==> ss[j] == tests[j].1
  {
    if |tests| == 0 then [] else StatusesOf(tests[..|tests| - 1]) + [tests[|tests| - 1].1]
  }

  /** The number of results with status `st`. */
  function Count(ss: seq<Status>, st: Status): (n: nat)
    ensures n <= |ss|
  {
    if |ss| == 0 then 0
    else Count(ss[..|ss| - 1], st) + (if ss[|ss| - 1] == st then 1 else 0)
  }

  lemma {:induction false} CountAppend(a: seq<Status>, b: seq<Status>, st: Status)
    ensures Count(a + b, st) == Count(a, st) + Count(b, st)
    decreases |b|
  {
    if |b| == 0 {
      assert a + b == a;
    } else {
      assert (a + b)[..|a + b| - 1] == a + b[..|b| - 1];
      CountAppend(a, b[..|b| - 1], st);
    }
  }

  /** The counts of the five statuses add up to the number of results. */
  lemma {:induction false} CountsPartition(ss: seq<Status>)
    ensures Count(ss, Passed) + Count(ss, Failed) + Count(ss, Skipped) + Count(ss, Error) + Count(ss, Timeout) == |ss|
    decreases |ss|
  {
    if |ss| > 0 {
      CountsPartition(ss[..|ss| - 1]);
    }
  }

  /** Some result has status `st` exactly when its count is positive. */
  lemma {:induction false} CountPositive(ss: seq<Status>, st: Status)
    ensures Count(ss, st) > 0 <==> st in ss
    decreases |ss|
  {
    if |ss| > 0 {
      CountPositive(ss[..|ss| - 1], st);
      assert ss == ss[..|ss| - 1] + [ss[|ss| - 1]];
    }
  }
}
