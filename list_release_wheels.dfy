/**
 * list_release_wheels.py: from the assets of a GitHub release, the wheels that are
 * listed, the order they are listed in, what is reported for each name, and the
 * download URLs offered as install examples. The release itself is an input.
 */
module ListReleaseWheels {
  import opened Wrappers
  import opened Strings

  const WHL := ".whl"

  /** A release asset: its `name`, its `browser_download_url` and its `size`. */
  datatype Asset = Asset(name: string, downloadUrl: string, size: nat)

  /** `[a for a in assets if a['name'].endswith('.whl')]`. */
  function Wheels(assets: seq<Asset>): (ws: seq<Asset>)
    ensures |ws| <= |assets|
    ensures forall k :: 0 <= k < |ws| ==> EndsWith(ws[k].name, WHL)
    ensures forall a :: a in ws ==> a in assets
    ensures forall a :: a in assets && EndsWith(a.name, WHL) ==> a in ws
  {
    if |assets| == 0 then []
    else
      var a := assets[|assets| - 1];
      var init := Wheels(assets[..|assets| - 1]);
      if EndsWith(a.name, WHL) then init + [a] else init
  }

  /** The filter keeps the assets' order: filtering a concatenation concatenates the filtered parts. */
  lemma {:induction false} WheelsAppend(a: seq<Asset>, b: seq<Asset>)
    ensures Wheels(a + b) == Wheels(a) + Wheels(b)
    decreases |b|
  {
    if |b| == 0 {
      assert a + b == a;
    } else {
      assert (a + b)[..|a + b| - 1] == a + b[..|b| - 1];
      WheelsAppend(a, b[..|b| - 1]);
    }
  }

  /** "No wheels found" is reported exactly when no asset name ends with ".whl". */
  lemma NoWheelsIff(assets: seq<Asset>)
    ensures Wheels(assets) == [] <==> forall a :: a in assets ==> !EndsWith(a.name, WHL)
  {
  }

  // ---------------------------------------------------------------------------
  // sorted(wheels, key=lambda x: x['name'])
  // ---------------------------------------------------------------------------

  predicate SortedByName(ws: seq<Asset>) {
    forall i, j :: 0 <= i < j < |ws| ==> LexLessEq(ws[i].name, ws[j].name)
  }

  /** Inserts `w` after every element whose name is not greater, as a stable sort does. */
  function Insert(w: Asset, ws: seq<Asset>): (r: seq<Asset>)
    ensures multiset(r) == multiset(ws) + multiset{w}
  {
    if |ws| == 0 then [w]
    else
      var last := ws[|ws| - 1];
      assert ws == ws[..|ws| - 1] + [last];
      if LexLessEq(last.name, w.name) then ws + [w]
      else Insert(w, ws[..|ws| - 1]) + [last]
  }

  /** Inserting into a sorted sequence keeps it sorted. */
  lemma {:induction false} InsertSorted(w: Asset, ws: seq<Asset>)
    requires SortedByName(ws)
    ensures SortedByName(Insert(w, ws))
    decreases |ws|
  {
    if |ws| > 0 {
      var last := ws[|ws| - 1];
      var init := ws[..|ws| - 1];
      if LexLessEq(last.name, w.name) {
        forall i | 0 <= i < |ws| - 1 ensures LexLessEq(ws[i].name, w.name) {
          LexTransitive(ws[i].name, last.name, w.name);
        }
      } else {
        LexTotal(last.name, w.name);
        InsertSorted(w, init);
        var r0 := Insert(w, init);
        forall x | x in r0 ensures LexLessEq(x.name, last.name) {
          assert x in multiset(init) + multiset{w};
        }
      }
    }
  }

  /** `sorted(wheels, key=name)`, as insertion of each wheel in turn into the sorted ones before it. */
  function SortByName(ws: seq<Asset>): (r: seq<Asset>)
    ensures multiset(r) == multiset(ws)
  {
    if |ws| == 0 then []
    else
      assert ws == ws[..|ws| - 1] + [ws[|ws| - 1]];
      Insert(ws[|ws| - 1], SortByName(ws[..|ws| - 1]))
  }

  /** The result is in ascending order of name. */
  lemma {:induction false} SortByNameSorted(ws: seq<Asset>)
    ensures SortedByName(SortByName(ws))
    decreases |ws|
  {
    if |ws| > 0 {
      SortByNameSorted(ws[..|ws| - 1]);
      InsertSorted(ws[|ws| - 1], SortByName(ws[..|ws| - 1]));
    }
  }

  // ---------------------------------------------------------------------------
  // name.replace('.whl', '').split('-')
  // ---------------------------------------------------------------------------

  /** The version, Python tag and "Platform" the listing reports for a name, when it splits into at least four parts. */
  function WheelDetails(name: string): (d: Option<(string, string, string)>)
  {
    var parts := Split(ReplaceAll(name, WHL, ""), '-');
    if |parts| >= 4 then Some((parts[1], parts[2], parts[3])) else None
  }

  lemma WhlBorderFree()
    ensures BorderFree(WHL)
  {
    forall k | 0 < k < |WHL| ensures WHL[..k] != WHL[|WHL| - k..] {
      assert WHL[..k][0] == '.' != WHL[|WHL| - k..][0];
    }
  }

  /**
   * For a name made of '-'-free parts joined by '-' and ending in ".whl" (with no
   * other ".whl" in it), the listing reports the second, third and fourth part.
   */
  lemma DetailsOfParts(parts: seq<string>)
    requires |parts| >= 4
    requires forall k :: 0 <= k < |parts| ==> '-' !in parts[k]
    requires !Contains(Join(parts, '-'), WHL)
    ensures WheelDetails(Join(parts, '-') + WHL) == Some((parts[1], parts[2], parts[3]))
  {
    var stem := Join(parts, '-');
    WhlBorderFree();
    ReplaceAllTrailing(stem, WHL, "");
    ReplaceAllAbsent(stem, WHL, "");
    assert ReplaceAll(stem + WHL, WHL, "") == stem;
    JoinSplit(parts, '-');
  }

  /**
   * Under the file name convention of PEP 427, `{distribution}-{version}-{python
   * tag}-{abi tag}-{platform tag}.whl`, the field reported as "Platform" is the ABI tag.
   */
  lemma PlatformIsAbiTag(dist: string, version: string, python: string, abi: string, platform: string)
    requires '-' !in dist && '-' !in version && '-' !in python && '-' !in abi && '-' !in platform
    requires !Contains(Join([dist, version, python, abi, platform], '-'), WHL)
    ensures WheelDetails(Join([dist, version, python, abi, platform], '-') + WHL) == Some((version, python, abi))
  {
    DetailsOfParts([dist, version, python, abi, platform]);
  }

  /** With the optional build tag of PEP 427, the reported fields shift: the build tag as Python tag, the Python tag as "Platform". */
  lemma BuildTagShifts(dist: string, version: string, build: string, python: string, abi: string, platform: string)
    requires '-' !in dist && '-' !in version && '-' !in build && '-' !in python && '-' !in abi && '-' !in platform
    requires !Contains(Join([dist, version, build, python, abi, platform], '-'), WHL)
    ensures WheelDetails(Join([dist, version, build, python, abi, platform], '-') + WHL) == Some((version, build, python))
  {
    DetailsOfParts([dist, version, build, python, abi, platform]);
  }

  /** A name with at most two '-' gets no details. */
  lemma ShortNameHasNoDetails(a: string, b: string, c: string)
    requires '-' !in a && '-' !in b && '-' !in c
    requires !Contains(Join([a, b, c], '-'), WHL)
    ensures WheelDetails(Join([a, b, c], '-') + WHL).None?
  {
    var stem := Join([a, b, c], '-');
    WhlBorderFree();
    ReplaceAllTrailing(stem, WHL, "");
    ReplaceAllAbsent(stem, WHL, "");
    assert ReplaceAll(stem + WHL, WHL, "") == stem;
    JoinSplit([a, b, c], '-');
  }

  // ---------------------------------------------------------------------------
  // list_wheels
  // ---------------------------------------------------------------------------

  /** A wheel printed with its details. */
  datatype Entry = Entry(wheel: Asset, version: string, pythonTag: string, platform: string)

  /** The printing loop over the sorted wheels: an entry for each name with details, in order. */
  function Entries(sorted: seq<Asset>): (es: seq<Entry>)
    ensures |es| <= |sorted|
    ensures forall e :: e in es ==> e.wheel in sorted
    ensures forall e :: e in es ==> WheelDetails(e.wheel.name) == Some((e.version, e.pythonTag, e.platform))
    ensures forall w :: w in sorted && WheelDetails(w.name).Some? ==> exists e :: e in es && e.wheel == w
  {
    if |sorted| == 0 then []
    else
      var w := sorted[|sorted| - 1];
      var init := sorted[..|sorted| - 1];
      assert sorted == init + [w];
      var es := Entries(init);
      match WheelDetails(w.name)
      case None => es
      case Some(d) =>
        var e := Entry(w, d.0, d.1, d.2);
        assert e in es + [e];
        es + [e]
  }

  /** Entries are printed in ascending order of wheel name. */
  lemma {:induction false} EntriesSorted(sorted: seq<Asset>)
    requires SortedByName(sorted)
    ensures forall i, j :: 0 <= i < j < |Entries(sorted)| ==>
              LexLessEq(Entries(sorted)[i].wheel.name, Entries(sorted)[j].wheel.name)
  {
    if |sorted| > 0 {
      var init := sorted[..|sorted| - 1];
      EntriesSorted(init);
      var w := sorted[|sorted| - 1];
      forall e | e in Entries(init) ensures LexLessEq(e.wheel.name, w.name) {
        var k :| 0 <= k < |init| && init[k] == e.wheel;
      }
    }
  }

  /** What `list_wheels` reports for the assets of a release. */
  datatype Listing =
    | NoWheels
    | Listed(count: nat, entries: seq<Entry>, installUrls: seq<string>)

  function Min(a: int, b: int): int {
    if a < b then a else b
  }

  /** The download URLs of the given wheels, in the given order. */
  function Urls(ws: seq<Asset>): (us: seq<string>)
    ensures |us| == |ws|
    ensures forall k :: 0 <= k < |ws| ==> us[k] == ws[k].downloadUrl
  {
    if |ws| == 0 then [] else [ws[0].downloadUrl] + Urls(ws[1..])
  }

  function ListWheels(assets: seq<Asset>): Listing {
    var wheels := Wheels(assets);
    if wheels == [] then NoWheels
    else Listed(|wheels|, Entries(SortByName(wheels)), Urls(wheels[..Min(3, |wheels|)]))
  }

  /**
   * The listing: nothing when no asset is a wheel; otherwise the number of wheels,
   * entries in ascending name order, each for a wheel of the release, and as install
   * examples the URLs of the first three wheels in the release's own order.
   */
  lemma ListWheelsSays(assets: seq<Asset>)
    ensures ListWheels(assets).NoWheels? <==> forall a :: a in assets ==> !EndsWith(a.name, WHL)
    ensures ListWheels(assets).Listed? ==>
      var l := ListWheels(assets);
      var wheels := Wheels(assets);
      && l.count == |wheels| > 0
      && (forall i, j :: 0 <= i < j < |l.entries| ==> LexLessEq(l.entries[i].wheel.name, l.entries[j].wheel.name))
      && (forall e :: e in l.entries ==> e.wheel in assets && EndsWith(e.wheel.name, WHL))
      && |l.installUrls| == Min(3, |wheels|)
      && (forall k :: 0 <= k < |l.installUrls| ==> l.installUrls[k] == wheels[k].downloadUrl)
  {
    NoWheelsIff(assets);
    var wheels := Wheels(assets);
    if wheels != [] {
      var sorted := SortByName(wheels);
      SortByNameSorted(wheels);
      EntriesSorted(sorted);
      forall e | e in Entries(sorted) ensures e.wheel in assets && EndsWith(e.wheel.name, WHL) {
        assert e.wheel in multiset(sorted);
        var k :| 0 <= k < |wheels| && wheels[k] == e.wheel;
      }
    }
  }
}
