/** The ordered table of compiler detectors and the search through it. */
module Detectors {
  import opened Wrappers
  import opened VersionSuffix
  import opened BasenameMatch

  /** The two argument-parser families: the GNU C parser and the GNU C++ parser. */
  datatype Family = GccFamily | GxxFamily

  /** A detector: the compiler name its basename pattern is built around, and the
      family of the argument parser it hands out. */
  datatype Detector = Detector(name: string, family: Family)

  const GccLanguageId: string := "org.eclipse.cdt.core.gcc"
  const GxxLanguageId: string := "org.eclipse.cdt.core.g++"

  /** The detectors in the order they are tried: the C++ compilers, whose names are the
      more specific, before the C compilers. */
  const Table: seq<Detector> := [
    Detector("c++", GxxFamily),
    Detector("g++", GxxFamily),
    Detector("clang++", GxxFamily),
    Detector("cc", GccFamily),
    Detector("gcc", GccFamily),
    Detector("clang", GccFamily)
  ]

  /** The language id the detector's parser reports for a generic language key
      (`"c"`, `"cpp"`): the id of the parser family, whatever the key. A table entry
      reports the C++ id exactly when its compiler name ends in `++`, and the C id
      otherwise. */
  function LanguageId(d: Detector, key: string): (r: string)
    ensures r == GccLanguageId || r == GxxLanguageId
    ensures d in Table ==> (r == GxxLanguageId <==> |d.name| >= 2 && d.name[|d.name| - 2..] == "++")
  {
    match d.family
    case GccFamily => GccLanguageId
    case GxxFamily => GxxLanguageId
  }

  /** The C++ detectors are exactly those whose compiler name ends in `++`. */
  lemma TableFamilies(d: Detector)
    requires d in Table
    ensures d.family == GxxFamily <==> |d.name| >= 2 && d.name[|d.name| - 2..] == "++"
  {
  }

  /** Every name in the table has a shape that a prefix, a version or `.exe` cannot blur. */
  lemma TableNameShapes(d: Detector)
    requires d in Table
    ensures NameShape(d.name)
  {
  }

  /** No two detectors share a name. */
  lemma TableNamesDistinct(d1: Detector, d2: Detector)
    requires d1 in Table && d2 in Table && d1.name == d2.name
    ensures d1 == d2
  {
  }

  /** `ds[i]` matches the basename and no detector before it does. */
  predicate FirstMatchAt(b: string, ver: VersionPattern, ds: seq<Detector>, i: nat)
    requires i < |ds|
  {
    Matches(b, ds[i].name, ver) && forall j :: 0 <= j < i ==> !Matches(b, ds[j].name, ver)
  }

  /** The first detector of `ds`, in order, whose name the basename matches. */
  function FirstMatch(b: string, ver: VersionPattern, ds: seq<Detector>): (r: Option<Detector>)
    ensures r.None? ==> forall d :: d in ds ==> !Matches(b, d.name, ver)
    ensures r.Some? ==> exists i :: 0 <= i < |ds| && ds[i] == r.value && FirstMatchAt(b, ver, ds, i)
  {
    if ds == [] then None
    else if Matches(b, ds[0].name, ver) then Some(ds[0])
    else
      var r := FirstMatch(b, ver, ds[1..]);
      assert r.Some? ==> exists i :: 1 <= i < |ds| && ds[i] == r.value && FirstMatchAt(b, ver, ds, i) by {
        if r.Some? {
          var i :| 0 <= i < |ds[1..]| && ds[1..][i] == r.value && FirstMatchAt(b, ver, ds[1..], i);
          assert forall j :: 1 <= j < i + 1 ==> ds[j] == ds[1..][j - 1];
          assert FirstMatchAt(b, ver, ds, i + 1);
        }
      }
      r
  }

  /** Looks the basename up: first every detector without a version suffix, and only
      when none matches and the caller gave a version pattern, every detector again
      allowing that version. */
  function FindDetector(b: string, ver: VersionPattern): (r: Option<Detector>)
    ensures r.Some? ==> r.value in Table && (Matches(b, r.value.name, NoVersion) || Matches(b, r.value.name, ver))
    ensures r.None? ==> forall d :: d in Table ==> !Matches(b, d.name, NoVersion) && !Matches(b, d.name, ver)
  {
    match FirstMatch(b, NoVersion, Table)
    case Some(d) => Some(d)
    case None => if ver == NoVersion then None else FirstMatch(b, ver, Table)
  }

  /** A fit without a version is a fit under any version pattern. */
  lemma FitsWithoutVersion(b: string, name: string, ver: VersionPattern)
    requires Fits(b, name, NoVersion)
    ensures Fits(b, name, ver)
  {
    var p, v, e :| FitsAs(b, name, NoVersion, p, v, e);
    FitsIntro(p, name, v, e, ver);
  }

  /** Whatever the version pattern, a detector is found exactly when some table name
      fits the basename, and the detector found is one whose name fits. */
  lemma FindDetectorSoundComplete(b: string, ver: VersionPattern)
    ensures FindDetector(b, ver).Some? ==>
      FindDetector(b, ver).value in Table && Fits(b, FindDetector(b, ver).value.name, ver)
    ensures FindDetector(b, ver).None? <==> forall d :: d in Table ==> !Fits(b, d.name, ver)
  {
    var r := FindDetector(b, ver);
    if r.Some? {
      var d := r.value;
      if Matches(b, d.name, NoVersion) {
        FitsWithoutVersion(b, d.name, ver);
      }
    }
  }

  /** With a version pattern made of version characters (the dotted-digits pattern, a
      literal like `40`, or none), the detector found is exactly the table entry whose
      name fits the basename: at most one can, so the order of the table never decides
      and a generic name never shadows a more specific one. */
  lemma FindDetectorExact(b: string, ver: VersionPattern, d: Detector)
    requires DigitLike(ver)
    ensures FindDetector(b, ver) == Some(d) <==> d in Table && Fits(b, d.name, ver)
  {
    FindDetectorSoundComplete(b, ver);
    var r := FindDetector(b, ver);
    if d in Table && Fits(b, d.name, ver) {
      var found := r.value;
      TableNameShapes(d);
      TableNameShapes(found);
      FitsUnique(b, d.name, found.name, ver);
      TableNamesDistinct(d, found);
    }
  }

  /** A basename built from an allowed prefix, a table name, an accepted version and an
      allowed extension is detected as that table entry. */
  lemma DetectsComposedBasename(p: string, d: Detector, v: string, e: string, ver: VersionPattern)
    requires d in Table && DigitLike(ver)
    requires PrefixOk(p) && Accepts(ver, v) && ExtensionOk(e)
    ensures FindDetector(p + d.name + v + e, ver) == Some(d)
  {
    FitsIntro(p, d.name, v, e, ver);
    FindDetectorExact(p + d.name + v + e, ver, d);
  }

  /** Without a version pattern, a table name followed by version characters is not
      detected at all: no table name fits such a basename. */
  lemma VersionedNotDetectedWithoutPattern(p: string, d: Detector, v: string, e: string)
    requires d in Table && v != [] && AllVersionChars(v) && ExtensionOk(e)
    ensures FindDetector(p + d.name + v + e, NoVersion) == None
  {
    var b := p + d.name + v + e;
    TableNameShapes(d);
    forall m | m in Table ensures !Fits(b, m.name, NoVersion) {
      TableNameShapes(m);
      VersionedNeedsPattern(p, d.name, v, e, m.name);
    }
    FindDetectorSoundComplete(b, NoVersion);
  }

  /** A match found without a version pattern stays the match whatever pattern is given. */
  lemma PlainMatchWins(b: string, ver: VersionPattern)
    requires FindDetector(b, NoVersion).Some?
    ensures FindDetector(b, ver) == FindDetector(b, NoVersion)
  {
  }
}
