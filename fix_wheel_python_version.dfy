/**
 * fix_wheel_python_version.py: every `@rpath/libpython3.X.dylib` dependency of the
 * extension modules in a wheel is renamed to `@rpath/Python`, and the wheel is
 * rebuilt only when some module changed. `otool -L` is modelled as the listing it
 * prints for a module's load commands, `install_name_tool -change` as the renaming
 * of the load commands it edits.
 */
module FixWheelPythonVersion {
  import opened Wrappers
  import opened Strings

  const LIBPYTHON := "@rpath/libpython"
  const DYLIB := ".dylib"
  const NEW_REF := "@rpath/Python"

  /** One `install_name_tool -change old new` call. */
  datatype Change = Change(oldRef: string, newRef: string)

  /** A dependency of a Mach-O file: its install name and the version text `otool -L` prints after it. */
  datatype LoadCommand = LoadCommand(installName: string, versions: string)

  // ---------------------------------------------------------------------------
  // Planning over the lines of `otool -L`
  // ---------------------------------------------------------------------------

  /** The test of the planning loop: the line mentions both a libpython rpath and ".dylib". */
  predicate NeedsChange(line: string) {
    Contains(line, LIBPYTHON) && Contains(line, DYLIB)
  }

  /** `line.strip().split()[0]`: defined on every line that needs a change, which holds an '@'. */
  function OldRef(line: string): (r: string)
    requires NeedsChange(line)
    ensures |r| > 0 && NoSpace(r)
  {
    var i := Find(line, LIBPYTHON);
    assert line[i] == LIBPYTHON[0] == '@';
    StripKeeps(line, i);
    WordsNonEmpty(Strip(line));
    FirstWord(Strip(line));
    Words(Strip(line))[0]
  }

  /** The `changes_needed` list built from the lines, in order. */
  function PlanLines(lines: seq<string>): (cs: seq<Change>)
    ensures |cs| <= |lines|
    ensures forall k :: 0 <= k < |cs| ==> cs[k].newRef == NEW_REF
  {
    if |lines| == 0 then []
    else
      var last := lines[|lines| - 1];
      PlanLines(lines[..|lines| - 1]) + (if NeedsChange(last) then [Change(OldRef(last), NEW_REF)] else [])
  }

  lemma {:induction false} PlanLinesAppend(a: seq<string>, b: seq<string>)
    ensures PlanLines(a + b) == PlanLines(a) + PlanLines(b)
    decreases |b|
  {
    if |b| == 0 {
      assert a + b == a;
    } else {
      assert (a + b)[..|a + b| - 1] == a + b[..|b| - 1];
      PlanLinesAppend(a, b[..|b| - 1]);
    }
  }

  /** A change is planned exactly when some line needs one; `fix_so_file` returns this. */
  lemma {:induction false} PlanLinesNonEmpty(lines: seq<string>)
    ensures |PlanLines(lines)| > 0 <==> exists k :: 0 <= k < |lines| && NeedsChange(lines[k])
    decreases |lines|
  {
    if |lines| > 0 {
      var init := lines[..|lines| - 1];
      PlanLinesNonEmpty(init);
      if exists k :: 0 <= k < |init| && NeedsChange(init[k]) {
        var k :| 0 <= k < |init| && NeedsChange(init[k]);
        assert lines[k] == init[k];
      }
      if exists k :: 0 <= k < |lines| && NeedsChange(lines[k]) {
        var k :| 0 <= k < |lines| && NeedsChange(lines[k]);
        if k < |init| {
          assert init[k] == lines[k];
        }
      }
    }
  }

  // ---------------------------------------------------------------------------
  // The listing otool prints for a module, and what planning finds in it
  // ---------------------------------------------------------------------------

  /** One dependency line of `otool -L`: a tab, the install name, a space, the versions. */
  function Line(lc: LoadCommand): string {
    "\t" + lc.installName + " " + lc.versions
  }

  function Lines(lcs: seq<LoadCommand>): (ls: seq<string>)
    ensures |ls| == |lcs|
    ensures forall k :: 0 <= k < |lcs| ==> ls[k] == Line(lcs[k])
  {
    seq(|lcs|, k requires 0 <= k < |lcs| => Line(lcs[k]))
  }

  /** `otool -L <path>`: a header line with the path, one line per dependency, a final newline. */
  function OtoolOutput(path: string, lcs: seq<LoadCommand>): string {
    Join([path + ":"] + Lines(lcs) + [""], '\n')
  }

  /** The changes `fix_so_file` plans for a module with this path and these load commands. */
  function PlanOf(path: string, lcs: seq<LoadCommand>): seq<Change> {
    PlanLines(Split(OtoolOutput(path, lcs), '\n'))
  }

  /** An install name the planning rule is aimed at. */
  predicate NeedsRetarget(name: string) {
    Contains(name, LIBPYTHON) && Contains(name, DYLIB)
  }

  /**
   * A load command as otool prints it: a non-empty install name without white
   * space, and version text on the same line that holds no '@' and no ".dylib".
   */
  predicate WellFormed(lc: LoadCommand) {
    |lc.installName| > 0 && NoSpace(lc.installName)
    && '\n' !in lc.versions && '@' !in lc.versions && !Contains(lc.versions, DYLIB)
  }

  predicate AllWellFormed(lcs: seq<LoadCommand>) {
    forall k :: 0 <= k < |lcs| ==> WellFormed(lcs[k])
  }

  /** The header line is not mistaken for a dependency, and the path is one line. */
  predicate PlainPath(path: string) {
    '\n' !in path && !NeedsChange(path + ":")
  }

  lemma NotContainsWithoutChar(s: string, t: string, k: nat)
    requires k < |t| && t[k] !in s
    ensures !Contains(s, t)
  {
    if Contains(s, t) {
      ContainsChar(s, t, k);
    }
  }

  /** A pattern without tab or space is found in a dependency line only inside its install name or its versions. */
  lemma ContainsInLine(lc: LoadCommand, t: string)
    requires '\t' !in t && ' ' !in t && |t| > 0
    ensures Contains(Line(lc), t) <==> Contains(lc.installName, t) || Contains(lc.versions, t)
  {
    if Contains(Line(lc), t) {
      ContainsInLineOnly(lc, t);
    }
    if Contains(lc.installName, t) || Contains(lc.versions, t) {
      ContainsInLineParts(lc, t);
    }
  }

  lemma ContainsInLineOnly(lc: LoadCommand, t: string)
    requires '\t' !in t && ' ' !in t && |t| > 0 && Contains(Line(lc), t)
    ensures Contains(lc.installName, t) || Contains(lc.versions, t)
  {
    var rest := lc.installName + [' '] + lc.versions;
    assert Line(lc) == [] + ['\t'] + rest;
    ContainsAcross([], '\t', rest, t);
    ContainsAcross(lc.installName, ' ', lc.versions, t);
  }

  lemma ContainsInLineParts(lc: LoadCommand, t: string)
    requires Contains(lc.installName, t) || Contains(lc.versions, t)
    ensures Contains(Line(lc), t)
  {
    var head := "\t" + lc.installName;
    assert Line(lc) == head + (" " + lc.versions);
    assert Line(lc) == (head + " ") + lc.versions;
    if Contains(lc.installName, t) {
      ContainsAppendLeft("\t", lc.installName, t);
      ContainsAppendRight(head, " " + lc.versions, t);
    } else {
      ContainsAppendLeft(head + " ", lc.versions, t);
    }
  }

  /** On a dependency line, the rule of the planning loop is a rule about the install name. */
  lemma LineNeedsChange(lc: LoadCommand)
    requires WellFormed(lc)
    ensures NeedsChange(Line(lc)) <==> NeedsRetarget(lc.installName)
  {
    ContainsInLine(lc, LIBPYTHON);
    ContainsInLine(lc, DYLIB);
    NotContainsWithoutChar(lc.versions, LIBPYTHON, 0);
  }

  /** The reference the loop extracts from a dependency line is its install name. */
  lemma OldRefOfLine(lc: LoadCommand)
    requires WellFormed(lc) && NeedsChange(Line(lc))
    ensures OldRef(Line(lc)) == lc.installName
  {
    assert Line(lc) == "\t" + lc.installName + (" " + lc.versions);
    FirstWordOf("\t", lc.installName, " " + lc.versions);
  }

  /** The changes the rule calls for, one per matching load command, in order. */
  function PlanFor(lcs: seq<LoadCommand>): (cs: seq<Change>)
    ensures |cs| <= |lcs|
  {
    if |lcs| == 0 then []
    else
      var last := lcs[|lcs| - 1];
      PlanFor(lcs[..|lcs| - 1])
      + (if NeedsRetarget(last.installName) then [Change(last.installName, NEW_REF)] else [])
  }

  lemma {:induction false} PlanOfLines(lcs: seq<LoadCommand>)
    requires AllWellFormed(lcs)
    ensures PlanLines(Lines(lcs)) == PlanFor(lcs)
    decreases |lcs|
  {
    if |lcs| > 0 {
      var init := lcs[..|lcs| - 1];
      var last := lcs[|lcs| - 1];
      assert Lines(lcs)[..|lcs| - 1] == Lines(init);
      PlanOfLines(init);
      LineNeedsChange(last);
      if NeedsChange(Line(last)) {
        OldRefOfLine(last);
      }
    }
  }

  /**
   * Planning over the whole otool listing finds exactly one change per load
   * command whose install name is a libpython rpath, in listing order, mapping it
   * to `@rpath/Python`.
   */
  lemma PlanOfListing(path: string, lcs: seq<LoadCommand>)
    requires PlainPath(path) && AllWellFormed(lcs)
    ensures PlanLines(Split(OtoolOutput(path, lcs), '\n')) == PlanFor(lcs)
  {
    var parts := [path + ":"] + Lines(lcs) + [""];
    forall k | 0 <= k < |parts|
      ensures '\n' !in parts[k]
    {
      if 1 <= k <= |lcs| {
        var lc := lcs[k - 1];
        assert parts[k] == Line(lc);
        assert Line(lc) == "\t" + lc.installName + " " + lc.versions;
        assert '\n' !in lc.installName by {
          assert IsSpace('\n');
        }
      }
    }
    JoinSplit(parts, '\n');
    PlanLinesAppend([path + ":"] + Lines(lcs), [""]);
    PlanLinesAppend([path + ":"], Lines(lcs));
    assert PlanLines([""]) == [] by {
      assert [""][..0] == [];
    }
    assert PlanLines([path + ":"]) == [] by {
      assert [path + ":"][..0] == [];
    }
    PlanOfLines(lcs);
  }

  // ---------------------------------------------------------------------------
  // Applying the changes
  // ---------------------------------------------------------------------------

  /** `install_name_tool -change old new`: every load command naming `old` is renamed to `new`. */
  function ChangeInstallName(lcs: seq<LoadCommand>, c: Change): (r: seq<LoadCommand>)
    ensures |r| == |lcs|
  {
    seq(|lcs|, k requires 0 <= k < |lcs| =>
      if lcs[k].installName == c.oldRef then lcs[k].(installName := c.newRef) else lcs[k])
  }

  /** The changes applied one after the other, in the order of the list. */
  function ApplyChanges(lcs: seq<LoadCommand>, cs: seq<Change>): (r: seq<LoadCommand>)
    ensures |r| == |lcs|
  {
    if |cs| == 0 then lcs else ChangeInstallName(ApplyChanges(lcs, cs[..|cs| - 1]), cs[|cs| - 1])
  }

  /** The intended result: every libpython rpath renamed to `@rpath/Python`, nothing else touched. */
  function Retarget(lcs: seq<LoadCommand>): (r: seq<LoadCommand>)
    ensures |r| == |lcs|
  {
    seq(|lcs|, k requires 0 <= k < |lcs| =>
      if NeedsRetarget(lcs[k].installName) then lcs[k].(installName := NEW_REF) else lcs[k])
  }

  /** `@rpath/Python` is shorter than "@rpath/libpython", so it never needs a change. */
  lemma NewRefIsFinal()
    ensures !NeedsRetarget(NEW_REF)
  {
    if Contains(NEW_REF, LIBPYTHON) {
      ContainsLength(NEW_REF, LIBPYTHON);
    }
  }

  /** Whether some change in the list renames `name`. */
  predicate Mentions(cs: seq<Change>, name: string) {
    |cs| > 0 && (Mentions(cs[..|cs| - 1], name) || cs[|cs| - 1].oldRef == name)
  }

  lemma {:induction false} MentionsAppend(a: seq<Change>, b: seq<Change>, name: string)
    ensures Mentions(a + b, name) <==> Mentions(a, name) || Mentions(b, name)
    decreases |b|
  {
    if |b| == 0 {
      assert a + b == a;
    } else {
      assert (a + b)[..|a + b| - 1] == a + b[..|b| - 1];
      MentionsAppend(a, b[..|b| - 1], name);
    }
  }

  /** Applying retargeting changes renames exactly the load commands whose name some change mentions. */
  lemma {:induction false} ApplyChangesPointwise(lcs: seq<LoadCommand>, cs: seq<Change>, i: nat)
    requires i < |lcs|
    requires forall k :: 0 <= k < |cs| ==> cs[k].newRef == NEW_REF && NeedsRetarget(cs[k].oldRef)
    ensures ApplyChanges(lcs, cs)[i]
      == if Mentions(cs, lcs[i].installName) then lcs[i].(installName := NEW_REF) else lcs[i]
    decreases |cs|
  {
    if |cs| > 0 {
      var init := cs[..|cs| - 1];
      var c := cs[|cs| - 1];
      ApplyChangesPointwise(lcs, init, i);
      NewRefIsFinal();
      var prev := ApplyChanges(lcs, init);
      assert ApplyChanges(lcs, cs)[i]
        == if prev[i].installName == c.oldRef then prev[i].(installName := NEW_REF) else prev[i];
    }
  }

  /** The names the plan renames are exactly the libpython rpaths among the load commands. */
  /** Some load command carries `name`. */
  predicate Named(lcs: seq<LoadCommand>, name: string) {
    exists k :: 0 <= k < |lcs| && lcs[k].installName == name
  }

  lemma NamedSnoc(lcs: seq<LoadCommand>, name: string)
    requires |lcs| > 0
    ensures Named(lcs, name) <==> Named(lcs[..|lcs| - 1], name) || lcs[|lcs| - 1].installName == name
  {
    var init := lcs[..|lcs| - 1];
    if Named(init, name) {
      var k :| 0 <= k < |init| && init[k].installName == name;
      assert lcs[k] == init[k];
    }
    if Named(lcs, name) {
      var k :| 0 <= k < |lcs| && lcs[k].installName == name;
      if k < |init| {
        assert init[k] == lcs[k];
      }
    }
  }

  lemma MentionsOne(c: Change, name: string)
    ensures Mentions([c], name) <==> c.oldRef == name
  {
    assert [c][..0] == [];
  }

  /** The names the plan renames are exactly the libpython rpaths among the load commands. */
  lemma {:induction false} MentionedByPlan(lcs: seq<LoadCommand>, name: string)
    ensures Mentions(PlanFor(lcs), name) <==> NeedsRetarget(name) && Named(lcs, name)
    decreases |lcs|
  {
    if |lcs| > 0 {
      var init := lcs[..|lcs| - 1];
      var last := lcs[|lcs| - 1];
      MentionedByPlan(init, name);
      NamedSnoc(lcs, name);
      if NeedsRetarget(last.installName) {
        var c := Change(last.installName, NEW_REF);
        MentionsAppend(PlanFor(init), [c], name);
        MentionsOne(c, name);
      } else {
        assert PlanFor(lcs) == PlanFor(init) + [];
        assert PlanFor(init) + [] == PlanFor(init);
      }
    }
  }

  lemma {:induction false} PlanRetargets(lcs: seq<LoadCommand>)
    ensures forall k :: 0 <= k < |PlanFor(lcs)| ==> PlanFor(lcs)[k].newRef == NEW_REF && NeedsRetarget(PlanFor(lcs)[k].oldRef)
    decreases |lcs|
  {
    if |lcs| > 0 {
      PlanRetargets(lcs[..|lcs| - 1]);
    }
  }

  /** Applying the plan in order gives exactly the retargeted load commands. */
  lemma ApplyPlanRetargets(lcs: seq<LoadCommand>)
    ensures ApplyChanges(lcs, PlanFor(lcs)) == Retarget(lcs)
  {
    PlanRetargets(lcs);
    forall i | 0 <= i < |lcs|
      ensures ApplyChanges(lcs, PlanFor(lcs))[i] == Retarget(lcs)[i]
    {
      ApplyChangesPointwise(lcs, PlanFor(lcs), i);
      MentionedByPlan(lcs, lcs[i].installName);
    }
  }

  lemma NewRefIsWord()
    ensures |NEW_REF| > 0 && NoSpace(NEW_REF)
  {
  }

  /** Retargeting keeps load commands well formed, and afterwards nothing needs retargeting. */
  lemma RetargetIsFinal(lcs: seq<LoadCommand>)
    requires AllWellFormed(lcs)
    ensures AllWellFormed(Retarget(lcs))
    ensures forall k :: 0 <= k < |lcs| ==> !NeedsRetarget(Retarget(lcs)[k].installName)
  {
    NewRefIsFinal();
    NewRefIsWord();
    forall k | 0 <= k < |lcs|
      ensures WellFormed(Retarget(lcs)[k]) && !NeedsRetarget(Retarget(lcs)[k].installName)
    {
      var lc := lcs[k];
      assert WellFormed(lc);
      if NeedsRetarget(lc.installName) {
        assert Retarget(lcs)[k] == lc.(installName := NEW_REF);
      } else {
        assert Retarget(lcs)[k] == lc;
      }
    }
  }

  lemma {:induction false} PlanForNothing(lcs: seq<LoadCommand>)
    requires forall k :: 0 <= k < |lcs| ==> !NeedsRetarget(lcs[k].installName)
    ensures PlanFor(lcs) == []
    decreases |lcs|
  {
    if |lcs| > 0 {
      PlanForNothing(lcs[..|lcs| - 1]);
    }
  }

  /**
   * Idempotence: once the planned changes are applied, `otool -L` of the module
   * shows no line that needs a change, so a second run plans nothing.
   */
  lemma FixIsIdempotent(path: string, lcs: seq<LoadCommand>)
    requires PlainPath(path) && AllWellFormed(lcs)
    ensures PlanOf(path, ApplyChanges(lcs, PlanOf(path, lcs))) == []
  {
    PlanOfListing(path, lcs);
    ApplyPlanRetargets(lcs);
    RetargetIsFinal(lcs);
    PlanOfListing(path, Retarget(lcs));
    PlanForNothing(Retarget(lcs));
  }

  /** Some change is planned for a module exactly when one of its install names is a libpython rpath. */
  lemma PlanForNonEmpty(lcs: seq<LoadCommand>)
    ensures |PlanFor(lcs)| > 0 <==> exists k :: 0 <= k < |lcs| && NeedsRetarget(lcs[k].installName)
  {
    PlanRetargets(lcs);
    if |PlanFor(lcs)| > 0 {
      var p := PlanFor(lcs);
      var name := p[0].oldRef;
      assert Mentions(p[..1], name) by {
        assert p[..1][..0] == [];
      }
      assert p == p[..1] + p[1..];
      MentionsAppend(p[..1], p[1..], name);
      MentionedByPlan(lcs, name);
    }
    if exists k :: 0 <= k < |lcs| && NeedsRetarget(lcs[k].installName) {
      var k :| 0 <= k < |lcs| && NeedsRetarget(lcs[k].installName);
      MentionedByPlan(lcs, lcs[k].installName);
    }
  }

  /**
   * What `fix_so_file` does to a module, in terms of its load commands: it reports
   * true exactly when some install name is a libpython rpath, and afterwards every
   * such name is `@rpath/Python` and every other load command is as it was.
   */
  lemma FixSoFileEffect(path: string, lcs: seq<LoadCommand>)
    requires PlainPath(path) && AllWellFormed(lcs)
    ensures |PlanOf(path, lcs)| > 0 <==> exists k :: 0 <= k < |lcs| && NeedsRetarget(lcs[k].installName)
    ensures ApplyChanges(lcs, PlanOf(path, lcs)) == Retarget(lcs)
  {
    PlanOfListing(path, lcs);
    PlanForNonEmpty(lcs);
    ApplyPlanRetargets(lcs);
  }

  // ---------------------------------------------------------------------------
  // The tools' exit codes
  // ---------------------------------------------------------------------------

  /** The command line `fix_so_file` runs to list a module's dependencies. */
  function OtoolCommand(path: string): seq<string> {
    ["otool", "-L", path]
  }

  /** The command line of one planned change. */
  function ChangeCommand(c: Change, path: string): seq<string> {
    ["install_name_tool", "-change", c.oldRef, c.newRef, path]
  }

  /**
   * How many of the changes are made before the first `install_name_tool` call that
   * exits non-zero (with `check=True` that call raises and the rest never run), or all
   * of them when none fails. `exitCode` gives the exit status of a command line.
   */
  function Applied(path: string, cs: seq<Change>, exitCode: seq<string> -> int): (n: nat)
    ensures n <= |cs|
    ensures n < |cs| ==> exitCode(ChangeCommand(cs[n], path)) != 0
  {
    if |cs| == 0 then 0
    else if exitCode(ChangeCommand(cs[0], path)) != 0 then 0
    else 1 + Applied(path, cs[1..], exitCode)
  }

  /** Every call before the first failing one succeeds. */
  lemma {:induction false} AppliedPrefix(path: string, cs: seq<Change>, exitCode: seq<string> -> int)
    ensures forall k :: 0 <= k < Applied(path, cs, exitCode) ==> exitCode(ChangeCommand(cs[k], path)) == 0
    decreases |cs|
  {
    if |cs| > 0 && exitCode(ChangeCommand(cs[0], path)) == 0 {
      AppliedPrefix(path, cs[1..], exitCode);
      forall k | 1 <= k < Applied(path, cs, exitCode)
        ensures exitCode(ChangeCommand(cs[k], path)) == 0
      {
        assert cs[k] == cs[1..][k - 1];
      }
    }
  }

  /** Every change is made exactly when no `install_name_tool` call of the plan fails. */
  lemma AppliedAll(path: string, cs: seq<Change>, exitCode: seq<string> -> int)
    ensures Applied(path, cs, exitCode) == |cs| <==> forall c :: c in cs ==> exitCode(ChangeCommand(c, path)) == 0
  {
    var n := Applied(path, cs, exitCode);
    AppliedPrefix(path, cs, exitCode);
    if n == |cs| {
      forall c | c in cs
        ensures exitCode(ChangeCommand(c, path)) == 0
      {
        var k :| 0 <= k < |cs| && cs[k] == c;
      }
    } else {
      assert cs[n] in cs;
    }
  }

  /** Every tool call `fix_so_file` makes on this module exits with 0: `otool`, then every planned change. */
  predicate ToolsSucceed(path: string, lcs: seq<LoadCommand>, exitCode: seq<string> -> int) {
    exitCode(OtoolCommand(path)) == 0 && Applied(path, PlanOf(path, lcs), exitCode) == |PlanOf(path, lcs)|
  }

  /** The tools succeed exactly when `otool` and each `install_name_tool` call of the plan exit with 0. */
  lemma ToolsSucceedIff(path: string, lcs: seq<LoadCommand>, exitCode: seq<string> -> int)
    ensures ToolsSucceed(path, lcs, exitCode) <==>
              exitCode(OtoolCommand(path)) == 0 && forall c :: c in PlanOf(path, lcs) ==> exitCode(ChangeCommand(c, path)) == 0
  {
    AppliedAll(path, PlanOf(path, lcs), exitCode);
  }

  /**
   * The load commands after `fix_so_file`, whether it returns or raises: unchanged
   * when `otool` fails, otherwise edited by the changes made before the first failing
   * `install_name_tool` call.
   */
  function AfterFix(path: string, lcs: seq<LoadCommand>, exitCode: seq<string> -> int): (r: seq<LoadCommand>)
    ensures |r| == |lcs|
    ensures exitCode(OtoolCommand(path)) != 0 ==> r == lcs
  {
    if exitCode(OtoolCommand(path)) != 0 then lcs
    else
      var cs := PlanOf(path, lcs);
      ApplyChanges(lcs, cs[..Applied(path, cs, exitCode)])
  }

  /** When every tool call succeeds, the whole plan is applied. */
  lemma AfterFixSucceeded(path: string, lcs: seq<LoadCommand>, exitCode: seq<string> -> int)
    requires ToolsSucceed(path, lcs, exitCode)
    ensures AfterFix(path, lcs, exitCode) == ApplyChanges(lcs, PlanOf(path, lcs))
  {
    var cs := PlanOf(path, lcs);
    assert cs[..|cs|] == cs;
  }

  /**
   * Applying planned-style changes (each renames a libpython rpath to `@rpath/Python`)
   * leaves every load command either as it was or as Retarget makes it.
   */
  lemma {:induction false} PartialRetarget(lcs: seq<LoadCommand>, cs: seq<Change>)
    requires forall k :: 0 <= k < |cs| ==> cs[k].newRef == NEW_REF && NeedsRetarget(cs[k].oldRef)
    ensures forall k :: 0 <= k < |lcs| ==> ApplyChanges(lcs, cs)[k] == lcs[k] || ApplyChanges(lcs, cs)[k] == Retarget(lcs)[k]
    decreases |cs|
  {
    if |cs| > 0 {
      var init := cs[..|cs| - 1];
      var c := cs[|cs| - 1];
      PartialRetarget(lcs, init);
      NewRefIsFinal();
      var before := ApplyChanges(lcs, init);
      forall k | 0 <= k < |lcs|
        ensures ApplyChanges(lcs, cs)[k] == lcs[k] || ApplyChanges(lcs, cs)[k] == Retarget(lcs)[k]
      {
        assert ApplyChanges(lcs, cs)[k] == ChangeInstallName(before, c)[k];
        if before[k].installName == c.oldRef {
          assert before[k] == lcs[k];
          assert Retarget(lcs)[k] == lcs[k].(installName := NEW_REF);
        }
      }
    }
  }

  /**
   * What `fix_so_file` leaves behind: with every tool call succeeding, exactly the
   * retargeted load commands; after a failing call, each load command either as it
   * was or retargeted, never renamed to anything else.
   */
  lemma AfterFixSays(path: string, lcs: seq<LoadCommand>, exitCode: seq<string> -> int)
    requires PlainPath(path) && AllWellFormed(lcs)
    ensures ToolsSucceed(path, lcs, exitCode) ==> AfterFix(path, lcs, exitCode) == Retarget(lcs)
    ensures forall k :: 0 <= k < |lcs| ==>
              AfterFix(path, lcs, exitCode)[k] == lcs[k] || AfterFix(path, lcs, exitCode)[k] == Retarget(lcs)[k]
  {
    PlanOfListing(path, lcs);
    if ToolsSucceed(path, lcs, exitCode) {
      AfterFixSucceeded(path, lcs, exitCode);
      ApplyPlanRetargets(lcs);
    }
    if exitCode(OtoolCommand(path)) == 0 {
      var cs := PlanFor(lcs);
      var n := Applied(path, cs, exitCode);
      PlanRetargets(lcs);
      PartialRetarget(lcs, cs[..n]);
    }
  }

  // ---------------------------------------------------------------------------
  // fix_so_file and fix_wheel
  // ---------------------------------------------------------------------------

  /** An extension module inside the extracted wheel: its path and its load commands. */
  class SharedObject {
    var path: string
    var loadCommands: seq<LoadCommand>

    constructor (path_: string, loadCommands_: seq<LoadCommand>)
      ensures path == path_ && loadCommands == loadCommands_
    {
      path, loadCommands := path_, loadCommands_;
    }
  }

  /** The loop of `fix_so_file` over the lines of `otool -L`, collecting one change per libpython line. */
  method PlanChanges(lines: seq<string>) returns (changes: seq<Change>)
    ensures changes == PlanLines(lines)
  {
    changes := [];
    for i := 0 to |lines|
      invariant changes == PlanLines(lines[..i])
    {
      assert lines[..i + 1][..i] == lines[..i];
      var line := lines[i];
      if Contains(line, LIBPYTHON) && Contains(line, DYLIB) {
        var oldRef := OldRef(line);
        changes := changes + [Change(oldRef, NEW_REF)];
      }
    }
    assert lines[..|lines|] == lines;
  }

  /**
   * `fix_so_file`: lists the module with `otool -L`, plans the changes from its
   * lines and makes them one `install_name_tool` call at a time, in that order; it
   * reports whether there was any. A tool that exits non-zero raises (Err), leaving
   * the changes made before it in place.
   */
  method FixSoFile(so: SharedObject, exitCode: seq<string> -> int) returns (fixed: Result<bool>, changes: seq<Change>)
    modifies so
    ensures so.path == old(so.path)
    ensures so.loadCommands == AfterFix(old(so.path), old(so.loadCommands), exitCode)
    ensures fixed.Ok? <==> ToolsSucceed(old(so.path), old(so.loadCommands), exitCode)
    ensures fixed.Ok? ==> changes == PlanOf(old(so.path), old(so.loadCommands)) && (fixed.value <==> |changes| > 0)
  {
    if exitCode(OtoolCommand(so.path)) != 0 {
      return Err("otool exited with a non-zero status"), [];
    }
    changes := PlanChanges(Split(OtoolOutput(so.path, so.loadCommands), '\n'));
    var ok := MakeChanges(so, changes, exitCode);
    if !ok {
      return Err("install_name_tool exited with a non-zero status"), changes;
    }
    assert changes[..|changes|] == changes;
    fixed := Ok(|changes| > 0);
  }

  /**
   * The second loop of `fix_so_file`: one `install_name_tool -change` call per
   * change, in order, stopping at the first call that exits non-zero.
   */
  method MakeChanges(so: SharedObject, changes: seq<Change>, exitCode: seq<string> -> int) returns (ok: bool)
    modifies so
    ensures so.path == old(so.path)
    ensures so.loadCommands == ApplyChanges(old(so.loadCommands), changes[..Applied(so.path, changes, exitCode)])
    ensures ok <==> Applied(so.path, changes, exitCode) == |changes|
  {
    ghost var before := so.loadCommands;
    ghost var n := Applied(so.path, changes, exitCode);
    AppliedPrefix(so.path, changes, exitCode);
    for i := 0 to |changes|
      invariant so.path == old(so.path)
      invariant i <= n
      invariant so.loadCommands == ApplyChanges(before, changes[..i])
    {
      if exitCode(ChangeCommand(changes[i], so.path)) != 0 {
        return false;
      }
      assert changes[..i + 1][..i] == changes[..i];
      so.loadCommands := ChangeInstallName(so.loadCommands, changes[i]);
    }
    return true;
  }

  /** The outcome of `fix_wheel`. */
  datatype WheelOutcome =
    | NoChangesNeeded
    | Rebuilt(backup: Option<string>, members: seq<string>)

  /**
   * `PurePath.with_suffix` on a file name: the name's suffix (from its last '.',
   * when that is neither the first nor the last character) is replaced by `suffix`,
   * or `suffix` is appended when the name has none.
   */
  function WithSuffix(name: string, suffix: string): (r: string)
    ensures EndsWith(r, suffix)
  {
    var dot := RFind(name, '.');
    var stem := if 0 < dot < |name| - 1 then name[..dot] else name;
    var r := stem + suffix;
    assert r[|r| - |suffix|..] == suffix;
    r
  }

  /**
   * `Path(p).with_suffix(".whl.backup")`: the file name after the last '/' gets the
   * new suffix; an empty file name raises ValueError.
   */
  function BackupPath(p: string): (r: Result<string>)
    ensures r.Ok? ==> EndsWith(r.value, ".whl.backup")
    ensures r.Err? <==> p == "" || p[|p| - 1] == '/'
  {
    var slash := RFind(p, '/');
    var dir := p[..slash + 1];
    var name := p[slash + 1..];
    FileNameEmpty(p);
    if name == "" then Err("has an empty name")
    else
      var w := WithSuffix(name, ".whl.backup");
      EndsWithAppendLeft(dir, w, ".whl.backup");
      Ok(dir + w)
  }

  /** The file name after the last '/' is empty exactly for an empty path or one ending in '/'. */
  lemma FileNameEmpty(p: string)
    ensures p[RFind(p, '/') + 1..] == "" <==> p == "" || p[|p| - 1] == '/'
  {
    var slash := RFind(p, '/');
    if p != "" && p[|p| - 1] == '/' {
      assert slash >= |p| - 1;
    }
  }

  /** A wheel file name keeps its stem: `x.whl` becomes `x.whl.backup`. */
  lemma WithSuffixOfWheel(name: string)
    requires EndsWith(name, ".whl") && |name| > 4 && name[|name| - 5] != '/'
    ensures WithSuffix(name, ".whl.backup") == name + ".backup"
  {
    WheelNameTail(name);
    var dot := RFind(name, '.');
    assert name == name[..dot] + ".whl";
  }

  /** For a wheel file name (something before ".whl"), the backup sits next to it as `<wheel>.whl.backup`. */
  lemma BackupOfWheel(p: string)
    requires EndsWith(p, ".whl") && |p| > 4 && p[|p| - 5] != '/'
    ensures BackupPath(p) == Ok(p + ".backup")
  {
    var slash := RFind(p, '/');
    WheelNameTail(p);
    var name := p[slash + 1..];
    assert name[|name| - 4..] == p[|p| - 4..];
    assert name[|name| - 5] == p[|p| - 5];
    WithSuffixOfWheel(name);
    assert name != "";
    assert BackupPath(p) == Ok(p[..slash + 1] + WithSuffix(name, ".whl.backup"));
    assert p[..slash + 1] + (name + ".backup") == (p[..slash + 1] + name) + ".backup";
    assert p == p[..slash + 1] + name;
  }

  /** In a path ending in ".whl", the last '.' starts that suffix, and the last '/' comes before the character in front of it. */
  lemma WheelNameTail(p: string)
    requires EndsWith(p, ".whl") && |p| > 4 && p[|p| - 5] != '/'
    ensures RFind(p, '.') == |p| - 4
    ensures RFind(p, '/') < |p| - 5
  {
    assert p[|p| - 4..] == ".whl";
    assert p[|p| - 4] == '.' && p[|p| - 3] == 'w' && p[|p| - 2] == 'h' && p[|p| - 1] == 'l';
  }

  /** `file_path.relative_to(temp_dir)` for a file found under the directory. */
  function RelativeTo(base: string, p: string): (r: string)
    requires StartsWith(p, base + "/")
    ensures base + "/" + r == p
  {
    p[|base| + 1..]
  }

  predicate Distinct(sos: seq<SharedObject>) {
    forall i, j :: 0 <= i < |sos| && 0 <= j < |sos| && i != j ==> sos[i] != sos[j]
  }

  /** A module fixed completely: every tool call succeeded and the whole plan was applied. */
  predicate FixedFully(path: string, before: seq<LoadCommand>, after: seq<LoadCommand>, exitCode: seq<string> -> int) {
    ToolsSucceed(path, before, exitCode) && after == ApplyChanges(before, PlanOf(path, before))
  }

  /**
   * The loop of `fix_wheel` over the extension modules, accumulating `fixed_any`. A
   * module whose tools fail raises out of the loop: the modules before it are fixed,
   * it is left as AfterFix says, and the ones after it are never touched.
   */
  method FixAll(sos: seq<SharedObject>, exitCode: seq<string> -> int) returns (fixedAny: Result<bool>)
    requires Distinct(sos)
    modifies set k | 0 <= k < |sos| :: sos[k]
    ensures forall k :: 0 <= k < |sos| ==> sos[k].path == old(sos[k].path)
    ensures fixedAny.Ok? ==>
      forall k :: 0 <= k < |sos| ==> FixedFully(old(sos[k].path), old(sos[k].loadCommands), sos[k].loadCommands, exitCode)
    ensures fixedAny.Ok? ==> (fixedAny.value <==> exists k :: 0 <= k < |sos| && PlanOf(old(sos[k].path), old(sos[k].loadCommands)) != [])
    ensures fixedAny.Err? ==>
      exists i :: (
        && 0 <= i < |sos|
        && !ToolsSucceed(old(sos[i].path), old(sos[i].loadCommands), exitCode)
        && sos[i].loadCommands == AfterFix(old(sos[i].path), old(sos[i].loadCommands), exitCode)
        && (forall k :: 0 <= k < i ==> FixedFully(old(sos[k].path), old(sos[k].loadCommands), sos[k].loadCommands, exitCode))
        && (forall k :: i < k < |sos| ==> sos[k].loadCommands == old(sos[k].loadCommands)))
  {
    var any := false;
    for i := 0 to |sos|
      invariant forall k :: 0 <= k < |sos| ==> sos[k].path == old(sos[k].path)
      invariant forall k :: i <= k < |sos| ==> sos[k].loadCommands == old(sos[k].loadCommands)
      invariant forall k :: 0 <= k < i ==> FixedFully(old(sos[k].path), old(sos[k].loadCommands), sos[k].loadCommands, exitCode)
      invariant any <==> exists k :: 0 <= k < i && PlanOf(old(sos[k].path), old(sos[k].loadCommands)) != []
    {
      var fixed, _ := FixSoFile(sos[i], exitCode);
      if fixed.Err? {
        assert !ToolsSucceed(old(sos[i].path), old(sos[i].loadCommands), exitCode);
        return Err(fixed.message);
      }
      AfterFixSucceeded(old(sos[i].path), old(sos[i].loadCommands), exitCode);
      any := any || fixed.value;
    }
    return Ok(any);
  }

  /**
   * `fix_wheel`: runs `fix_so_file` on every extension module found; a tool failure
   * raises before anything is written; when no module changed, stops without a
   * backup or a new archive; otherwise backs the wheel up (when it exists) and
   * rebuilds it from every file under the extraction directory, named relative to it.
   * `walked` is the listing of `os.walk`. The wheel is opened for extraction before
   * all of this, so a missing wheel raises there; extraction is not modelled, and
   * `wheelExists` stands only for the `exists()` test in front of the backup.
   */
  method FixWheel(wheelPath: string, wheelExists: bool, tempDir: string, sos: seq<SharedObject>, walked: seq<string>,
                  exitCode: seq<string> -> int)
    returns (outcome: Result<WheelOutcome>)
    requires Distinct(sos)
    requires forall k :: 0 <= k < |walked| ==> StartsWith(walked[k], tempDir + "/")
    modifies set k | 0 <= k < |sos| :: sos[k]
    ensures forall k :: 0 <= k < |sos| ==> sos[k].path == old(sos[k].path)
    ensures outcome.Ok? ==> forall k :: 0 <= k < |sos| ==> ToolsSucceed(old(sos[k].path), old(sos[k].loadCommands), exitCode)
    ensures outcome.Ok? ==> forall k :: 0 <= k < |sos| ==>
      sos[k].loadCommands == ApplyChanges(old(sos[k].loadCommands), PlanOf(old(sos[k].path), old(sos[k].loadCommands)))
    ensures (outcome == Ok(NoChangesNeeded)) <==>
      forall k :: 0 <= k < |sos| ==>
        ToolsSucceed(old(sos[k].path), old(sos[k].loadCommands), exitCode) && PlanOf(old(sos[k].path), old(sos[k].loadCommands)) == []
    ensures outcome.Ok? && outcome.value.Rebuilt? ==>
      && BackupPath(wheelPath).Ok?
      && outcome.value.backup == (if wheelExists then Some(BackupPath(wheelPath).value) else None)
      && |outcome.value.members| == |walked|
      && forall k :: 0 <= k < |walked| ==> tempDir + "/" + outcome.value.members[k] == walked[k]
    ensures outcome.Err? <==>
      || (exists k :: 0 <= k < |sos| && !ToolsSucceed(old(sos[k].path), old(sos[k].loadCommands), exitCode))
      || (BackupPath(wheelPath).Err? && exists k :: 0 <= k < |sos| && PlanOf(old(sos[k].path), old(sos[k].loadCommands)) != [])
  {
    var fixedAny := FixAll(sos, exitCode);
    if fixedAny.Err? {
      return Err(fixedAny.message);
    }
    if !fixedAny.value {
      return Ok(NoChangesNeeded);
    }
    var backupPath := BackupPath(wheelPath);
    if backupPath.Err? {
      return Err(backupPath.message);
    }
    var backup := if wheelExists then Some(backupPath.value) else None;
    var members := ArchiveNames(tempDir, walked);
    return Ok(Rebuilt(backup, members));
  }

  /** The archive names of the rebuilt wheel: each walked file relative to the extraction directory, in walk order. */
  method ArchiveNames(tempDir: string, walked: seq<string>) returns (members: seq<string>)
    requires forall k :: 0 <= k < |walked| ==> StartsWith(walked[k], tempDir + "/")
    ensures |members| == |walked|
    ensures forall k :: 0 <= k < |walked| ==> tempDir + "/" + members[k] == walked[k]
  {
    members := [];
    for i := 0 to |walked|
      invariant |members| == i
      invariant forall k :: 0 <= k < i ==> members[k] == RelativeTo(tempDir, walked[k])
    {
      members := members + [RelativeTo(tempDir, walked[i])];
    }
  }
}
