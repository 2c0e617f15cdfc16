/**
 * tools/patch_skbuild_constants.py: rewrites scikit-build's constants.py so that the
 * line unpacking `release.split(".")[:2]` is preceded by code giving a bare
 * release such as "15" a ".0" minor part.
 */
module PatchSkbuildConstants {
  import opened Wrappers
  import opened Strings

  /** The line of scikit-build's constants.py that fails on a release without ".". */
  const NEEDLE := "major_macos, minor_macos = release.split(\".\")[:2]"

  /** The block the needle is replaced with: a guard, then the needle line itself. */
  const REPLACEMENT :=
    "parts = release.split(\".\")\n"
    + "if len(parts) < 2:\n"
    + "    release = f\"{parts[0]}.0\" if parts else \"15.0\"\n"
    + NEEDLE

  /** `src.replace(needle, replacement)` when the needle occurs, the text itself otherwise. */
  function PatchText(src: string): (dst: string)
    ensures !Contains(src, NEEDLE) ==> dst == src
    ensures Contains(src, NEEDLE) ==> dst == ReplaceAll(src, NEEDLE, REPLACEMENT)
  {
    if Contains(src, NEEDLE) then ReplaceAll(src, NEEDLE, REPLACEMENT) else src
  }

  lemma ReplacementHoldsNeedle()
    ensures Contains(REPLACEMENT, NEEDLE)
    ensures |REPLACEMENT| > |NEEDLE|
  {
    var guard := "parts = release.split(\".\")\n"
      + "if len(parts) < 2:\n"
      + "    release = f\"{parts[0]}.0\" if parts else \"15.0\"\n";
    assert REPLACEMENT == guard + NEEDLE + "";
    ContainsMiddle(guard, NEEDLE, "");
  }

  /**
   * When the needle occurs, the text always changes (so the branch for "identical
   * after replace" is never taken), every occurrence grows by the guard's length,
   * and the patched text still holds the needle.
   */
  lemma PatchChangesText(src: string)
    requires Contains(src, NEEDLE)
    ensures PatchText(src) != src
    ensures |PatchText(src)| == |src| + Occurrences(src, NEEDLE) * (|REPLACEMENT| - |NEEDLE|)
    ensures Contains(PatchText(src), NEEDLE)
  {
    ReplacementHoldsNeedle();
    ReplaceAllLength(src, NEEDLE, REPLACEMENT);
    OccurrencesPositive(src, NEEDLE);
    ReplaceAllKeepsPattern(src, NEEDLE, REPLACEMENT);
  }

  /** The patch is not idempotent: running it on already patched text inserts the guard again. */
  lemma PatchNotIdempotent(src: string)
    requires Contains(src, NEEDLE)
    ensures PatchText(PatchText(src)) != PatchText(src)
    ensures |PatchText(PatchText(src))| > |PatchText(src)|
  {
    PatchChangesText(src);
    PatchChangesText(PatchText(src));
    OccurrencesPositive(PatchText(src), NEEDLE);
    ReplacementHoldsNeedle();
  }

  /**
   * The unpacking `major, minor = release.split(".")[:2]` on its own: None stands
   * for the ValueError raised when fewer than two parts are found.
   */
  function UnpackRelease(release: string): Option<(string, string)>
  {
    var parts := Split(release, '.');
    if |parts| >= 2 then Some((parts[0], parts[1])) else None
  }

  /** The needle alone fails exactly on a release without ".". */
  lemma UnpackFailsWithoutDot(release: string)
    ensures UnpackRelease(release).None? <==> '.' !in release
  {
    if '.' in release {
      SplitWithSeparator(release, '.');
    } else {
      SplitWithoutSeparator(release, '.');
    }
  }

  /** The release after the inserted guard has run, followed by the needle's unpacking. */
  function GuardedUnpackRelease(release: string): Option<(string, string)>
  {
    var parts := Split(release, '.');
    var fixed := if |parts| < 2 then (if |parts| > 0 then parts[0] + ".0" else "15.0") else release;
    UnpackRelease(fixed)
  }

  /** With the guard in front, the unpacking never fails. */
  lemma GuardedUnpackSucceeds(release: string)
    ensures GuardedUnpackRelease(release).Some?
  {
    var parts := Split(release, '.');
    if |parts| < 2 {
      SplitWithSeparator(parts[0] + ".0", '.');
    }
  }

  /** The guard's "15.0" branch is dead: `split` never returns an empty list. */
  lemma GuardFallbackUnreachable(release: string)
    ensures |Split(release, '.')| > 0
    ensures '.' !in release ==> Split(release, '.')[0] == release
  {
    if '.' !in release {
      SplitWithoutSeparator(release, '.');
    }
  }

  /** For a bare major release, the guard yields the major and "0". */
  lemma GuardedBareRelease(major: string)
    requires '.' !in major
    ensures GuardedUnpackRelease(major) == Some((major, "0"))
  {
    SplitWithoutSeparator(major, '.');
    assert major + ".0" == major + ['.'] + "0";
    SplitCons(major, '.', "0");
    SplitWithoutSeparator("0", '.');
  }

  /**
   * The site-packages directory as `main` sees it: whether constants.py exists, its
   * text, whether reading and writing it succeed, and how many times it was written.
   */
  class SitePackages {
    var constantsExists: bool
    var constantsText: string
    var readable: bool
    var writable: bool
    var writes: nat

    constructor (exists_: bool, text: string, readable_: bool, writable_: bool)
      ensures constantsExists == exists_ && constantsText == text
      ensures readable == readable_ && writable == writable_ && writes == 0
    {
      constantsExists, constantsText := exists_, text;
      readable, writable := readable_, writable_;
      writes := 0;
    }

    /**
     * `main`: returns 0 on every path; writes constants.py once, with the patched
     * text, exactly when the file exists, can be read and written, and patching
     * changes it.
     */
    method PatchConstants() returns (code: int)
      modifies this
      ensures code == 0
      ensures constantsExists == old(constantsExists)
      ensures readable == old(readable) && writable == old(writable)
      ensures var rewrite := old(constantsExists) && old(readable) && old(writable)
                             && PatchText(old(constantsText)) != old(constantsText);
              constantsText == (if rewrite then PatchText(old(constantsText)) else old(constantsText))
              && writes == old(writes) + (if rewrite then 1 else 0)
    {
      if !constantsExists {
        return 0;
      }
      if !readable {
        // the read raises; the handler reports the error and returns 0
        return 0;
      }
      var src := constantsText;
      if Contains(src, NEEDLE) {
        var dst := ReplaceAll(src, NEEDLE, REPLACEMENT);
        if dst != src {
          if !writable {
            return 0;
          }
          constantsText := dst;
          writes := writes + 1;
        }
      }
      return 0;
    }
  }

  /** Patching an unpatched file once writes it; patching it again writes it again. */
  method PatchTwice(text: string) returns (first: string, second: string, writes: nat)
    requires Contains(text, NEEDLE)
    ensures first == PatchText(text) && second == PatchText(first)
    ensures first != text && second != first
    ensures writes == 2
  {
    var site := new SitePackages(true, text, true, true);
    var _ := site.PatchConstants();
    first := site.constantsText;
    PatchChangesText(text);
    var _ := site.PatchConstants();
    second := site.constantsText;
    PatchNotIdempotent(text);
    writes := site.writes;
  }
}
