/** The version suffix a caller may allow after a compiler name. The caller passes a
    regular expression; the two shapes in use are modelled: the dotted-digits pattern
    `-?\d+(\.\d+)*` and a literal text such as `40`. */
module VersionSuffix {
  import opened Wrappers

  datatype VersionPattern =
    | NoVersion              // the caller passed no pattern
    | DottedDigits           // `-?\d+(\.\d+)*`
    | Literal(text: string)  // a pattern without metacharacters, matching itself

  predicate IsDigit(c: char) {
    '0' <= c <= '9'
  }

  /** The characters a dotted-digits version is made of. */
  predicate IsVersionChar(c: char) {
    IsDigit(c) || c == '.' || c == '-'
  }

  predicate AllVersionChars(v: string) {
    forall i :: 0 <= i < |v| ==> IsVersionChar(v[i])
  }

  /** Digits and dots only, with a digit after every dot. */
  ghost predicate DotsSeparateDigits(w: string) {
    && (forall i :: 0 <= i < |w| ==> IsDigit(w[i]) || w[i] == '.')
    && (forall i :: 0 <= i < |w| && w[i] == '.' ==> i + 1 < |w| && IsDigit(w[i + 1]))
  }

  /** `\d+(\.\d+)*`: groups of digits separated by single dots. */
  ghost predicate DigitGroups(w: string) {
    w != [] && IsDigit(w[0]) && DotsSeparateDigits(w)
  }

  /** `-?\d+(\.\d+)*`, stated on the characters of `v`. */
  ghost predicate DottedForm(v: string) {
    DigitGroups(v) || (v != [] && v[0] == '-' && DigitGroups(v[1..]))
  }

  /** The states of a scanner for `-?\d+(\.\d+)*`. */
  datatype ScanState = Start | AfterSign | InNumber | AfterDot

  function Step(st: ScanState, c: char): Option<ScanState> {
    match st
    case Start => if c == '-' then Some(AfterSign) else if IsDigit(c) then Some(InNumber) else None
    case AfterSign => if IsDigit(c) then Some(InNumber) else None
    case InNumber => if IsDigit(c) then Some(InNumber) else if c == '.' then Some(AfterDot) else None
    case AfterDot => if IsDigit(c) then Some(InNumber) else None
  }

  /** Runs the scanner over `w` from state `st`; `None` once a character is rejected. */
  function Scan(st: ScanState, w: string): Option<ScanState>
    decreases |w|
  {
    if w == [] then Some(st)
    else match Step(st, w[0])
      case None => None
      case Some(next) => Scan(next, w[1..])
  }

  /** Whole-string match of `-?\d+(\.\d+)*`: the scanner ends inside a digit group. */
  predicate IsDottedVersion(v: string): (r: bool)
    ensures r <==> DottedForm(v)
  {
    ScanFromStart(v);
    Scan(Start, v) == Some(InNumber)
  }

  lemma DotsSeparateDigitsAfterDigit(c: char, w: string)
    requires IsDigit(c)
    ensures DotsSeparateDigits([c] + w) <==> DotsSeparateDigits(w)
  {
    var cw := [c] + w;
    if DotsSeparateDigits(w) {
      forall i | 0 <= i < |cw| && cw[i] == '.' ensures i + 1 < |cw| && IsDigit(cw[i + 1]) {
        assert w[i - 1] == '.';
      }
    }
    if DotsSeparateDigits(cw) {
      forall i | 0 <= i < |w| ensures IsDigit(w[i]) || w[i] == '.' {
        assert cw[i + 1] == w[i];
      }
      forall i | 0 <= i < |w| && w[i] == '.' ensures i + 1 < |w| && IsDigit(w[i + 1]) {
        assert cw[i + 1] == '.';
        assert cw[i + 2] == w[i + 1];
      }
    }
  }

  lemma DotsSeparateDigitsAfterDot(w: string)
    ensures DotsSeparateDigits(['.'] + w) <==> DigitGroups(w)
  {
    var dw := ['.'] + w;
    if DigitGroups(w) {
      forall i | 0 <= i < |dw| && dw[i] == '.' ensures i + 1 < |dw| && IsDigit(dw[i + 1]) {
        if i > 0 {
          assert w[i - 1] == '.';
        }
      }
    }
    if DotsSeparateDigits(dw) {
      assert dw[0] == '.' && dw[1] == w[0];
      forall i | 0 <= i < |w| ensures IsDigit(w[i]) || w[i] == '.' {
        assert dw[i + 1] == w[i];
      }
      forall i | 0 <= i < |w| && w[i] == '.' ensures i + 1 < |w| && IsDigit(w[i + 1]) {
        assert dw[i + 1] == '.';
        assert dw[i + 2] == w[i + 1];
      }
    }
  }

  /** After at least one digit, the scanner accepts exactly the rest of a digit-group string. */
  lemma {:induction false} ScanInNumber(w: string)
    ensures Scan(InNumber, w) == Some(InNumber) <==> DotsSeparateDigits(w)
    decreases |w|, 1
  {
    if w != [] {
      var c, rest := w[0], w[1..];
      assert w == [c] + rest;
      if IsDigit(c) {
        ScanInNumber(rest);
        DotsSeparateDigitsAfterDigit(c, rest);
      } else if c == '.' {
        ScanAfterDot(rest);
        DotsSeparateDigitsAfterDot(rest);
      } else {
        assert !(IsDigit(w[0]) || w[0] == '.');
      }
    }
  }

  /** After a dot or a sign, the scanner accepts exactly a digit-group string. */
  lemma {:induction false} ScanAfterDot(w: string)
    ensures Scan(AfterDot, w) == Some(InNumber) <==> DigitGroups(w)
    ensures Scan(AfterSign, w) == Some(InNumber) <==> DigitGroups(w)
    decreases |w|, 0
  {
    if w != [] {
      var c, rest := w[0], w[1..];
      assert w == [c] + rest;
      if IsDigit(c) {
        ScanInNumber(rest);
        DotsSeparateDigitsAfterDigit(c, rest);
      }
    }
  }

  /** From its start state, the scanner recognises exactly `-?\d+(\.\d+)*`. */
  lemma ScanFromStart(v: string)
    ensures Scan(Start, v) == Some(InNumber) <==> DottedForm(v)
  {
    if v != [] {
      var c, rest := v[0], v[1..];
      assert v == [c] + rest;
      if c == '-' {
        ScanAfterDot(rest);
      } else if IsDigit(c) {
        ScanInNumber(rest);
        DotsSeparateDigitsAfterDigit(c, rest);
      }
    }
  }

  /** A dotted-digits version is made of version characters only. */
  lemma DottedFormChars(v: string)
    requires DottedForm(v)
    ensures AllVersionChars(v)
  {
    if !DigitGroups(v) {
      forall i | 0 <= i < |v| ensures IsVersionChar(v[i]) {
        if i > 0 {
          assert v[i] == v[1..][i - 1];
        }
      }
    }
  }

  /** The version texts a pattern accepts after a compiler name. No version is always
      acceptable: the pattern only adds alternatives. */
  ghost predicate Accepts(ver: VersionPattern, v: string) {
    || v == []
    || (ver.DottedDigits? && DottedForm(v))
    || (ver.Literal? && v == ver.text)
  }

  /** The computable form of `Accepts`. */
  predicate AcceptsVersion(ver: VersionPattern, v: string): (r: bool)
    ensures r <==> Accepts(ver, v)
  {
    || v == []
    || (ver.DottedDigits? && IsDottedVersion(v))
    || (ver.Literal? && v == ver.text)
  }

  /** Patterns whose every accepted text consists of version characters: the dotted-digits
      pattern and literals such as `40`. Such a suffix can never be mistaken for part of
      a compiler name. */
  predicate DigitLike(ver: VersionPattern) {
    ver.Literal? ==> AllVersionChars(ver.text)
  }

  lemma AcceptedIsVersionChars(ver: VersionPattern, v: string)
    requires DigitLike(ver) && Accepts(ver, v)
    ensures AllVersionChars(v)
  {
    if ver.DottedDigits? && DottedForm(v) {
      DottedFormChars(v);
    }
  }
}
