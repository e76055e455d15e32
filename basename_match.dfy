/** Whether a command's basename names a given compiler: the name, optionally preceded
    by a cross-compiler target-triplet prefix, optionally followed by a version suffix
    the caller allows, optionally followed by the `.exe` extension. The whole basename
    has to be consumed, so a name is never found inside a longer unrelated word. */
module BasenameMatch {
  import opened VersionSuffix

  const Exe: string := ".exe"

  /** A target-triplet prefix such as `arm-none-eabi-`: one or more non-empty
      hyphen-free segments, each followed by a hyphen. */
  predicate IsTripletPrefix(p: string) {
    && |p| >= 2 && p[0] != '-' && p[|p| - 1] == '-'
    && forall i :: 0 <= i < |p| - 1 && p[i] == '-' ==> p[i + 1] != '-'
  }

  predicate PrefixOk(p: string) {
    p == [] || IsTripletPrefix(p)
  }

  predicate ExtensionOk(e: string) {
    e == [] || e == Exe
  }

  /** `b` splits into the allowed prefix `p`, the compiler name, the accepted version `v`
      and the allowed extension `e`. */
  ghost predicate FitsAs(b: string, name: string, ver: VersionPattern, p: string, v: string, e: string) {
    b == p + name + v + e && PrefixOk(p) && Accepts(ver, v) && ExtensionOk(e)
  }

  /** The reference description of a match: some such split exists. */
  ghost predicate Fits(b: string, name: string, ver: VersionPattern) {
    exists p, v, e :: FitsAs(b, name, ver, p, v, e)
  }

  lemma FitsIntro(p: string, name: string, v: string, e: string, ver: VersionPattern)
    requires PrefixOk(p) && Accepts(ver, v) && ExtensionOk(e)
    ensures Fits(p + name + v + e, name, ver)
  {
    assert FitsAs(p + name + v + e, name, ver, p, v, e);
  }

  /** `rest` is a prefix, then `name` ending at index `k`, then an accepted version. */
  predicate FitsAt(rest: string, name: string, ver: VersionPattern, k: nat)
    requires |name| <= k <= |rest|
  {
    rest[k - |name|..k] == name && PrefixOk(rest[..k - |name|]) && AcceptsVersion(ver, rest[k..])
  }

  /** `FitsAt` holds at some index no larger than `k`. */
  predicate FitsUpTo(rest: string, name: string, ver: VersionPattern, k: nat)
    requires k <= |rest|
    decreases k
  {
    |name| <= k && (FitsAt(rest, name, ver, k) || (k > 0 && FitsUpTo(rest, name, ver, k - 1)))
  }

  predicate EndsWithExe(b: string) {
    |b| >= 4 && b[|b| - 4..] == Exe
  }

  /** Tries every place the name could end, without and with `.exe`. */
  predicate Search(b: string, name: string, ver: VersionPattern) {
    || FitsUpTo(b, name, ver, |b|)
    || (EndsWithExe(b) && FitsUpTo(b[..|b| - 4], name, ver, |b| - 4))
  }

  /** The matcher: the search accepts exactly the basenames the reference description
      admits. */
  predicate Matches(b: string, name: string, ver: VersionPattern): (r: bool)
    ensures r <==> Fits(b, name, ver)
  {
    SearchIffFits(b, name, ver);
    Search(b, name, ver)
  }

  lemma {:induction false} FitsUpToSound(rest: string, name: string, ver: VersionPattern, k: nat)
    requires k <= |rest| && FitsUpTo(rest, name, ver, k)
    ensures exists p, v :: FitsAs(rest, name, ver, p, v, [])
    decreases k
  {
    if FitsAt(rest, name, ver, k) {
      var p, v := rest[..k - |name|], rest[k..];
      assert rest == p + name + v + [];
      assert FitsAs(rest, name, ver, p, v, []);
    } else {
      FitsUpToSound(rest, name, ver, k - 1);
    }
  }

  lemma {:induction false} FitsUpToComplete(rest: string, name: string, ver: VersionPattern, j: nat, k: nat)
    requires |name| <= j <= k <= |rest| && FitsAt(rest, name, ver, j)
    ensures FitsUpTo(rest, name, ver, k)
    decreases k
  {
    if j < k {
      FitsUpToComplete(rest, name, ver, j, k - 1);
    }
  }

  lemma SearchSound(b: string, name: string, ver: VersionPattern)
    requires Search(b, name, ver)
    ensures Fits(b, name, ver)
  {
    if FitsUpTo(b, name, ver, |b|) {
      FitsUpToSound(b, name, ver, |b|);
    } else {
      var rest := b[..|b| - 4];
      FitsUpToSound(rest, name, ver, |b| - 4);
      var p, v :| FitsAs(rest, name, ver, p, v, []);
      assert b == p + name + v + Exe;
      assert FitsAs(b, name, ver, p, v, Exe);
    }
  }

  lemma FitsAtJoint(p: string, name: string, v: string, ver: VersionPattern)
    requires PrefixOk(p) && AcceptsVersion(ver, v)
    ensures FitsAt(p + name + v, name, ver, |p| + |name|)
  {
    var rest, k := p + name + v, |p| + |name|;
    assert rest[k - |name|..k] == name && rest[..k - |name|] == p && rest[k..] == v;
  }

  lemma FitsUpToJoint(p: string, name: string, v: string, ver: VersionPattern)
    requires PrefixOk(p) && Accepts(ver, v)
    ensures FitsUpTo(p + name + v, name, ver, |p + name + v|)
  {
    FitsAtJoint(p, name, v, ver);
    FitsUpToComplete(p + name + v, name, ver, |p| + |name|, |p + name + v|);
  }

  lemma SearchComplete(b: string, name: string, ver: VersionPattern, p: string, v: string, e: string)
    requires FitsAs(b, name, ver, p, v, e)
    ensures Search(b, name, ver)
  {
    var rest := p + name + v;
    FitsUpToJoint(p, name, v, ver);
    if e == [] {
      assert b == rest;
    } else {
      assert b[..|b| - 4] == rest && b[|b| - 4..] == Exe;
    }
  }

  /** The search accepts exactly the basenames the reference description admits. */
  lemma SearchIffFits(b: string, name: string, ver: VersionPattern)
    ensures Search(b, name, ver) <==> Fits(b, name, ver)
  {
    if Search(b, name, ver) {
      SearchSound(b, name, ver);
    }
    if Fits(b, name, ver) {
      var p, v, e :| FitsAs(b, name, ver, p, v, e);
      SearchComplete(b, name, ver, p, v, e);
    }
  }

  // ---- Which name a basename can fit ----

  /** The compiler names that can never be confused with a prefix, a version or the
      extension: non-empty, hyphen-free, and not ending in a version character or in
      the last letter of `.exe`. */
  predicate NameShape(n: string) {
    n != [] && '-' !in n && !IsVersionChar(n[|n| - 1]) && n[|n| - 1] != 'e'
  }

  function StripExe(b: string): string {
    if EndsWithExe(b) then b[..|b| - 4] else b
  }

  /** Removes the longest suffix made of version characters. */
  function DropVersionChars(c: string): (h: string)
    ensures |h| <= |c| && h == c[..|h|]
    ensures AllVersionChars(c[|h|..])
    ensures h == [] || !IsVersionChar(h[|h| - 1])
  {
    if c != [] && IsVersionChar(c[|c| - 1]) then DropVersionChars(c[..|c| - 1]) else c
  }

  /** The part after the last hyphen. */
  function AfterLastHyphen(h: string): string {
    if h == [] then []
    else if h[|h| - 1] == '-' then []
    else AfterLastHyphen(h[..|h| - 1]) + [h[|h| - 1]]
  }

  /** The only name a basename can fit: drop `.exe`, then the version characters,
      then everything up to the last hyphen. */
  function CandidateName(b: string): string {
    AfterLastHyphen(DropVersionChars(StripExe(b)))
  }

  lemma {:induction false} DropVersionCharsAppend(h: string, v: string)
    requires h != [] && !IsVersionChar(h[|h| - 1]) && AllVersionChars(v)
    ensures DropVersionChars(h + v) == h
    decreases |v|
  {
    if v == [] {
      assert h + v == h;
    } else {
      var c := h + v;
      assert c[|c| - 1] == v[|v| - 1];
      assert c[..|c| - 1] == h + v[..|v| - 1];
      DropVersionCharsAppend(h, v[..|v| - 1]);
    }
  }

  lemma AfterLastHyphenSnoc(h: string, c: char)
    requires c != '-'
    ensures AfterLastHyphen(h + [c]) == AfterLastHyphen(h) + [c]
  {
    var hc := h + [c];
    assert hc[..|hc| - 1] == h;
  }

  lemma {:induction false} AfterLastHyphenAppend(p: string, n: string)
    requires p == [] || p[|p| - 1] == '-'
    requires '-' !in n
    ensures AfterLastHyphen(p + n) == n
    decreases |n|
  {
    if n == [] {
      assert p + n == p;
    } else {
      var n', c := n[..|n| - 1], n[|n| - 1];
      assert n == n' + [c];
      assert p + n == (p + n') + [c];
      AfterLastHyphenAppend(p, n');
      AfterLastHyphenSnoc(p + n', c);
    }
  }

  lemma StripExeOfFit(p: string, name: string, v: string, e: string)
    requires NameShape(name) && AllVersionChars(v) && ExtensionOk(e)
    ensures StripExe(p + name + v + e) == p + name + v
  {
    var rest := p + name + v;
    if e == [] {
      assert p + name + v + e == rest;
      var last := rest[|rest| - 1];
      if v == [] {
        assert last == name[|name| - 1];
      } else {
        assert last == v[|v| - 1];
      }
      assert last != 'e';
    } else {
      assert (rest + e)[..|rest + e| - 4] == rest;
    }
  }

  /** A name of the right shape fits a basename only if it is the candidate name. */
  lemma FitDeterminesName(b: string, name: string, ver: VersionPattern)
    requires NameShape(name) && DigitLike(ver) && Fits(b, name, ver)
    ensures name == CandidateName(b)
  {
    var p, v, e :| FitsAs(b, name, ver, p, v, e);
    AcceptedIsVersionChars(ver, v);
    StripExeOfFit(p, name, v, e);
    assert (p + name)[|p + name| - 1] == name[|name| - 1];
    DropVersionCharsAppend(p + name, v);
    AfterLastHyphenAppend(p, name);
  }

  /** With a version pattern made of version characters, no basename fits two different
      names: the order in which names are tried cannot matter. */
  lemma FitsUnique(b: string, n1: string, n2: string, ver: VersionPattern)
    requires NameShape(n1) && NameShape(n2) && DigitLike(ver)
    requires Fits(b, n1, ver) && Fits(b, n2, ver)
    ensures n1 == n2
  {
    FitDeterminesName(b, n1, ver);
    FitDeterminesName(b, n2, ver);
  }

  /** A target-triplet prefix put in front of an allowed prefix is an allowed prefix. */
  lemma TripletPrefixConcat(p: string, p0: string)
    requires IsTripletPrefix(p) && PrefixOk(p0)
    ensures IsTripletPrefix(p + p0)
  {
    var q := p + p0;
    forall i | 0 <= i < |q| - 1 && q[i] == '-' ensures q[i + 1] != '-' {
      if i < |p| - 1 {
        assert q[i] == p[i] && q[i + 1] == p[i + 1];
      } else if i >= |p| {
        assert q[i] == p0[i - |p|] && q[i + 1] == p0[i + 1 - |p|];
      } else {
        assert q[i + 1] == p0[0];
      }
    }
  }

  /** A target-triplet prefix in front of a fitting basename keeps the fit. */
  lemma FitsBehindTriplet(p: string, b: string, name: string, ver: VersionPattern)
    requires IsTripletPrefix(p) && Fits(b, name, ver)
    ensures Fits(p + b, name, ver)
  {
    var p0, v, e :| FitsAs(b, name, ver, p0, v, e);
    TripletPrefixConcat(p, p0);
    assert p + b == (p + p0) + name + v + e;
    assert FitsAs(p + b, name, ver, p + p0, v, e);
  }

  /** Appending `.exe` to a fitting basename that has no extension keeps the fit. */
  lemma FitsWithExe(b: string, name: string, ver: VersionPattern)
    requires !EndsWithExe(b) && Fits(b, name, ver)
    ensures Fits(b + Exe, name, ver)
  {
    var p, v, e :| FitsAs(b, name, ver, p, v, e);
    assert b + Exe == p + name + v + Exe;
    assert FitsAs(b + Exe, name, ver, p, v, Exe);
  }

  /** Without a version pattern, a fitting basename (less `.exe`) ends in the name, and
      so in a character that is not a version character. */
  lemma PlainFitEndsInName(b: string, m: string)
    requires NameShape(m)
    ensures Fits(b, m, NoVersion) ==>
      var h := StripExe(b);
      && |h| >= |m| && h[|h| - |m|..] == m
      && h != [] && !IsVersionChar(h[|h| - 1])
  {
    if Fits(b, m, NoVersion) {
      var p, v, e :| FitsAs(b, m, NoVersion, p, v, e);
      StripExeOfFit(p, m, v, e);
      assert v == [] && StripExe(b) == p + m;
      assert (p + m)[|p + m| - |m|..] == m;
      assert (p + m)[|p + m| - 1] == m[|m| - 1];
    }
  }

  /** A basename that ends in a non-empty version suffix (before an optional `.exe`)
      fits no name when no version pattern is given. */
  lemma VersionedNeedsPattern(p: string, n: string, v: string, e: string, m: string)
    requires NameShape(n) && NameShape(m) && v != [] && AllVersionChars(v) && ExtensionOk(e)
    ensures !Fits(p + n + v + e, m, NoVersion)
  {
    var b := p + n + v + e;
    StripExeOfFit(p, n, v, e);
    PlainFitEndsInName(b, m);
    var h := p + n + v;
    assert h[|h| - 1] == v[|v| - 1];
  }
}
