/**
 * sitecustomize.py: on import, `platform.release` is replaced by a wrapper that
 * always answers with a dotted release ("15" becomes "15.0"), so that
 * scikit-build's `release.split(".")[:2]` finds a major and a minor part.
 */
module SiteCustomize {
  import opened Wrappers
  import opened Strings

  /** What `getattr(platform, "release", None)` found, and what calling it does. */
  datatype ReleaseAttr =
    | Missing                    // no attribute: `_orig_release` is None
    | NotCallable                // present, but calling it raises TypeError
    | Returns(release: string)   // a call returns this string
    | Raises                     // a call raises

  /** The fallback release used whenever no usable release is known. */
  const DEFAULT_RELEASE := "15.0"

  /** The conditional expression of `_patched_release`, applied to the original release string. */
  function NormaliseRelease(rel: string): (r: string)
    ensures '.' in r
    ensures '.' in rel ==> r == rel
    ensures rel != "" ==> rel <= r && |r| <= |rel| + 2
    ensures rel == "" ==> r == DEFAULT_RELEASE
  {
    if '.' in rel then rel else if rel != "" then rel + ".0" else DEFAULT_RELEASE
  }

  /** `_patched_release()`: never raises, and falls back to "15.0" when the original cannot answer. */
  function PatchedRelease(orig: ReleaseAttr): (r: string)
    ensures '.' in r
    ensures orig.Returns? ==> r == NormaliseRelease(orig.release)
    ensures !orig.Returns? ==> r == DEFAULT_RELEASE
  {
    match orig
    case Missing => NormaliseRelease("")
    case NotCallable => DEFAULT_RELEASE
    case Raises => DEFAULT_RELEASE
    case Returns(rel) => NormaliseRelease(rel)
  }

  /** Whether the module-level guard installs the wrapper: only over a callable original. */
  predicate Installs(orig: ReleaseAttr) {
    orig.Returns? || orig.Raises?
  }

  /**
   * `platform.release()` as any later caller sees it once this module has run:
   * the wrapper's answer when it was installed, otherwise the original behaviour,
   * with None standing for a call that raises.
   */
  function ReleaseAfterImport(orig: ReleaseAttr): (r: Option<string>)
    ensures Installs(orig) ==> r == Some(PatchedRelease(orig))
    ensures orig.Missing? || orig.NotCallable? ==> r == None
  {
    if Installs(orig) then Some(PatchedRelease(orig))
    else None
  }

  /** Normalising is idempotent: a normalised release is left as it is. */
  lemma NormaliseIdempotent(rel: string)
    ensures NormaliseRelease(NormaliseRelease(rel)) == NormaliseRelease(rel)
  {
  }

  /**
   * Once the wrapper is installed, every release it reports splits on "." into at
   * least two parts, so scikit-build's `major, minor = release.split(".")[:2]` succeeds.
   */
  lemma PatchedReleaseSplitsInTwo(orig: ReleaseAttr)
    requires Installs(orig)
    ensures ReleaseAfterImport(orig).Some?
    ensures |Split(ReleaseAfterImport(orig).value, '.')| >= 2
  {
    SplitWithSeparator(PatchedRelease(orig), '.');
  }

  /** A bare major version such as "15" is reported as "15.0", which splits into exactly its major and "0". */
  lemma BareMajorGetsMinorZero(major: string)
    requires major != "" && '.' !in major
    ensures PatchedRelease(Returns(major)) == major + ".0"
    ensures Split(PatchedRelease(Returns(major)), '.') == [major, "0"]
  {
    assert major + ".0" == major + ['.'] + "0";
    SplitCons(major, '.', "0");
    SplitWithoutSeparator("0", '.');
  }
}
