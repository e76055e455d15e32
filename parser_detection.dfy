/** Parser detection for one build command line: tokenize it, take the basename of the
    command, and look the basename up in the detector table. */
module ParserDetection {
  import opened Wrappers
  import opened Text
  import opened CommandLines
  import opened VersionSuffix
  import opened BasenameMatch
  import opened Detectors

  /** What a successful detection hands back: the detector that matched and the
      tokenized command line. */
  datatype ParserDetectionResult = ParserDetectionResult(detector: Detector, commandLine: CommandLine)

  /** `/` separates directories; on Windows-style input `\` does too. */
  predicate IsSeparator(c: char, windowsStyle: bool) {
    c == '/' || (windowsStyle && c == '\\')
  }

  predicate NoSeparator(s: string, windowsStyle: bool) {
    forall i :: 0 <= i < |s| ==> !IsSeparator(s[i], windowsStyle)
  }

  /** The file name part of a command: the longest suffix without a separator. */
  function Basename(path: string, windowsStyle: bool): (b: string)
    ensures |b| <= |path| && b == path[|path| - |b|..]
    ensures NoSeparator(b, windowsStyle)
    ensures |b| < |path| ==> IsSeparator(path[|path| - |b| - 1], windowsStyle)
  {
    if path == [] then []
    else if IsSeparator(path[|path| - 1], windowsStyle) then []
    else Basename(path[..|path| - 1], windowsStyle) + [path[|path| - 1]]
  }

  /** The text matched against the table: the basename, lower-cased on Windows-style
      input, where file names are compared without regard to letter case. Taking the
      basename of the lower-cased command gives the same key. */
  function MatchKey(command: string, windowsStyle: bool): (r: string)
    ensures NoSeparator(r, windowsStyle)
    ensures !windowsStyle ==> r == Basename(command, false)
    ensures windowsStyle ==> NoUpper(r) && r == Basename(Lower(command), true)
  {
    var b := Basename(command, windowsStyle);
    if windowsStyle then BasenameOfLower(command); Lower(b) else b
  }

  /** The version pattern as applied to the match key: on Windows-style input a literal
      is lower-cased with it. A pattern made of version characters is left as it is. */
  function EffectiveVersion(ver: VersionPattern, windowsStyle: bool): (r: VersionPattern)
    ensures r.NoVersion? == ver.NoVersion? && r.DottedDigits? == ver.DottedDigits?
    ensures !windowsStyle ==> r == ver
    ensures windowsStyle && ver.Literal? ==> r == Literal(Lower(ver.text)) && NoUpper(r.text)
    ensures DigitLike(ver) ==> r == ver
  {
    if windowsStyle && ver.Literal? then LowerFixesLowerCase(ver.text); Literal(Lower(ver.text)) else ver
  }

  /** Determines the detector for a command line. A line without a command is an error;
      a command whose basename no detector matches gives no result. */
  function DetermineDetector(line: string, ver: VersionPattern, windowsStyle: bool)
    : (r: Result<Option<ParserDetectionResult>, Malformed>)
    ensures r.Err? <==> Tokenize(line).Err?
    ensures r.Ok? && r.value.Some? ==>
      var res := r.value.value;
      && res.commandLine == Tokenize(line).value
      && res.detector in Table
      && Fits(MatchKey(res.commandLine.command, windowsStyle), res.detector.name, EffectiveVersion(ver, windowsStyle))
    ensures r.Ok? && r.value.None? ==>
      forall d :: d in Table ==>
        !Fits(MatchKey(Tokenize(line).value.command, windowsStyle), d.name, EffectiveVersion(ver, windowsStyle))
  {
    match Tokenize(line)
    case Err(e) => Err(e)
    case Ok(cl) =>
      var key, v := MatchKey(cl.command, windowsStyle), EffectiveVersion(ver, windowsStyle);
      FindDetectorSoundComplete(key, v);
      match FindDetector(key, v)
      case None => Ok(None)
      case Some(d) => Ok(Some(ParserDetectionResult(d, cl)))
  }

  lemma BasenameSnoc(path: string, c: char, windowsStyle: bool)
    requires !IsSeparator(c, windowsStyle)
    ensures Basename(path + [c], windowsStyle) == Basename(path, windowsStyle) + [c]
  {
    var pc := path + [c];
    assert pc[..|pc| - 1] == path;
  }

  /** Directories in front of a file name do not change its basename. */
  lemma {:induction false} BasenameAfterDirectory(dir: string, name: string, windowsStyle: bool)
    requires dir == [] || IsSeparator(dir[|dir| - 1], windowsStyle)
    requires NoSeparator(name, windowsStyle)
    ensures Basename(dir + name, windowsStyle) == name
    decreases |name|
  {
    if name == [] {
      assert dir + name == dir;
    } else {
      var name', c := name[..|name| - 1], name[|name| - 1];
      assert name == name' + [c];
      assert dir + name == (dir + name') + [c];
      BasenameAfterDirectory(dir, name', windowsStyle);
      BasenameSnoc(dir + name', c, windowsStyle);
    }
  }

  /** Detection is driven by the basename alone: any directory in front of the command
      leaves the detector unchanged. */
  lemma DirectoryDoesNotMatter(dir: string, name: string, ver: VersionPattern, windowsStyle: bool)
    requires dir == [] || IsSeparator(dir[|dir| - 1], windowsStyle)
    requires NoSeparator(name, windowsStyle)
    ensures FindDetector(MatchKey(dir + name, windowsStyle), EffectiveVersion(ver, windowsStyle))
         == FindDetector(MatchKey(name, windowsStyle), EffectiveVersion(ver, windowsStyle))
  {
    BasenameAfterDirectory(dir, name, windowsStyle);
    BasenameAfterDirectory([], name, windowsStyle);
    assert [] + name == name;
  }

  lemma {:induction false} BasenameOfLower(path: string)
    ensures Basename(Lower(path), true) == Lower(Basename(path, true))
    decreases |path|
  {
    if path != [] {
      var p', c := path[..|path| - 1], path[|path| - 1];
      var lc := LowerChar(c);
      assert path == p' + [c];
      assert Lower([c]) == [lc];
      LowerAppend(p', [c]);
      assert Lower(path) == Lower(p') + [lc];
      if IsSeparator(c, true) {
        assert lc == c;
      } else {
        assert !IsSeparator(lc, true);
        BasenameOfLower(p');
        BasenameSnoc(Lower(p'), lc, true);
        BasenameSnoc(p', c, true);
        LowerAppend(Basename(p', true), [c]);
      }
    }
  }

  lemma LowerAppend(s: string, t: string)
    ensures Lower(s + t) == Lower(s) + Lower(t)
  {
    assert forall i :: 0 <= i < |s + t| ==> (s + t)[i] == if i < |s| then s[i] else t[i - |s|];
  }

  lemma LowerIdempotent(s: string)
    ensures Lower(Lower(s)) == Lower(s)
  {
  }

  /** On Windows-style input letter case makes no difference to the detection. */
  lemma WindowsIgnoresCase(command: string, ver: VersionPattern)
    ensures MatchKey(Lower(command), true) == MatchKey(command, true)
    ensures FindDetector(MatchKey(Lower(command), true), EffectiveVersion(ver, true))
         == FindDetector(MatchKey(command, true), EffectiveVersion(ver, true))
  {
    BasenameOfLower(command);
    LowerIdempotent(Basename(command, true));
  }

  /** On Windows-style input two command lines whose commands differ only in the letter
      case of ASCII letters get the same detection: both or neither find a detector,
      and the detector found is the same. */
  lemma SameUpToCaseSameDetection(line1: string, line2: string, ver: VersionPattern)
    ensures
      && Tokenize(line1).Ok? && Tokenize(line2).Ok?
      && Lower(Tokenize(line1).value.command) == Lower(Tokenize(line2).value.command)
      ==>
      && DetermineDetector(line1, ver, true).Ok? && DetermineDetector(line2, ver, true).Ok?
      && (DetermineDetector(line1, ver, true).value.None? <==> DetermineDetector(line2, ver, true).value.None?)
      && (DetermineDetector(line1, ver, true).value.Some? ==>
            (DetermineDetector(line1, ver, true).value.value.detector
             == DetermineDetector(line2, ver, true).value.value.detector))
  {
    if Tokenize(line1).Ok? && Tokenize(line2).Ok? {
      var cl1, cl2 := Tokenize(line1).value, Tokenize(line2).value;
      DetectionOfTokens(line1, ver, true);
      DetectionOfTokens(line2, ver, true);
      if Lower(cl1.command) == Lower(cl2.command) {
        assert MatchKey(cl1.command, true) == MatchKey(cl2.command, true);
      }
    }
  }

  /** A detection hands back the tokenized line. */
  lemma DetectionTokenizes(line: string, cl: CommandLine, ver: VersionPattern, windowsStyle: bool, d: Detector)
    ensures DetermineDetector(line, ver, windowsStyle) == Ok(Some(ParserDetectionResult(d, cl)))
        ==> Tokenize(line) == Ok(cl)
  {
  }

  /** For a line that tokenizes, the detection is the table lookup of its match key. */
  lemma DetectionOfTokens(line: string, ver: VersionPattern, windowsStyle: bool)
    ensures Tokenize(line).Ok? ==>
      var cl := Tokenize(line).value;
      var f := FindDetector(MatchKey(cl.command, windowsStyle), EffectiveVersion(ver, windowsStyle));
      DetermineDetector(line, ver, windowsStyle)
        == if f.None? then Ok(None) else Ok(Some(ParserDetectionResult(f.value, cl)))
  {
  }

  /** The detection of a command line carries over to any line whose command differs
      from it only in letter case; the command is kept as that line writes it. */
  lemma DetectedUpToCase(line1: string, cl1: CommandLine, line2: string, cl2: CommandLine,
                         ver: VersionPattern, d: Detector)
    requires Lower(cl1.command) == Lower(cl2.command)
    ensures
      && Tokenize(line1) == Ok(cl1) && Tokenize(line2) == Ok(cl2)
      && DetermineDetector(line2, ver, true) == Ok(Some(ParserDetectionResult(d, cl2)))
      ==> DetermineDetector(line1, ver, true) == Ok(Some(ParserDetectionResult(d, cl1)))
  {
    SameUpToCaseSameDetection(line1, line2, ver);
  }

  /** `cmd` is a directory part followed by a basename built from an allowed prefix,
      the name of table entry `d`, a version accepted by `ver` and an allowed extension;
      on Windows-style input the basename is written in lower case. */
  predicate ComposedCommand(cmd: string, dir: string, p: string, d: Detector, v: string, e: string,
                            ver: VersionPattern, windowsStyle: bool)
  {
    && d in Table && DigitLike(ver)
    && PrefixOk(p) && AcceptsVersion(ver, v) && ExtensionOk(e)
    && (dir == [] || IsSeparator(dir[|dir| - 1], windowsStyle))
    && NoSeparator(p + d.name + v + e, windowsStyle)
    && (windowsStyle ==> NoUpper(p + d.name + v + e))
    && cmd == dir + (p + d.name + v + e)
  }

  /** A character that can neither end a directory, nor change under lower-casing, nor
      end an unquoted command, nor close a quoted one. */
  predicate PlainChar(c: char, windowsStyle: bool) {
    !IsSeparator(c, windowsStyle) && !IsUpper(c) && !IsWhitespace(c) && !IsQuote(c)
  }

  predicate AllPlain(s: string, windowsStyle: bool) {
    forall i :: 0 <= i < |s| ==> PlainChar(s[i], windowsStyle)
  }

  lemma AllPlainConcat(a: string, b: string, windowsStyle: bool)
    requires AllPlain(a, windowsStyle) && AllPlain(b, windowsStyle)
    ensures AllPlain(a + b, windowsStyle)
  {
    forall i | 0 <= i < |a + b| ensures PlainChar((a + b)[i], windowsStyle) {
      if i >= |a| {
        assert (a + b)[i] == b[i - |a|];
      }
    }
  }

  lemma NoSeparatorConcat(a: string, b: string, windowsStyle: bool)
    requires NoSeparator(a, windowsStyle) && NoSeparator(b, windowsStyle)
    ensures NoSeparator(a + b, windowsStyle)
  {
    forall i | 0 <= i < |a + b| ensures !IsSeparator((a + b)[i], windowsStyle) {
      if i >= |a| {
        assert (a + b)[i] == b[i - |a|];
      }
    }
  }

  lemma NoUpperConcat(a: string, b: string)
    requires NoUpper(a) && NoUpper(b)
    ensures NoUpper(a + b)
  {
    forall i | 0 <= i < |a + b| ensures !IsUpper((a + b)[i]) {
      if i >= |a| {
        assert (a + b)[i] == b[i - |a|];
      }
    }
  }

  lemma NoQuoteConcat(a: string, b: string)
    requires NoQuote(a) && NoQuote(b)
    ensures NoQuote(a + b)
  {
    forall i | 0 <= i < |a + b| ensures !IsQuote((a + b)[i]) {
      if i >= |a| {
        assert (a + b)[i] == b[i - |a|];
      }
    }
  }

  lemma NoWhitespaceConcat(a: string, b: string)
    requires NoWhitespace(a) && NoWhitespace(b)
    ensures NoWhitespace(a + b)
  {
    forall i | 0 <= i < |a + b| ensures !IsWhitespace((a + b)[i]) {
      if i >= |a| {
        assert (a + b)[i] == b[i - |a|];
      }
    }
  }

  lemma TableNamePlain(d: Detector, windowsStyle: bool)
    requires d in Table
    ensures AllPlain(d.name, windowsStyle)
  {
  }

  lemma VersionPlain(v: string, windowsStyle: bool)
    requires AllVersionChars(v)
    ensures AllPlain(v, windowsStyle)
  {
    forall i | 0 <= i < |v| ensures PlainChar(v[i], windowsStyle) {
      assert IsVersionChar(v[i]);
    }
  }

  /** What follows the prefix in a composed basename is plain: a table name, a version
      made of version characters and an allowed extension. */
  lemma NameVersionExtensionPlain(d: Detector, v: string, e: string, windowsStyle: bool)
    requires d in Table && AllVersionChars(v) && ExtensionOk(e)
    ensures AllPlain(d.name + v + e, windowsStyle)
  {
    TableNamePlain(d, windowsStyle);
    VersionPlain(v, windowsStyle);
    assert AllPlain(e, windowsStyle);
    AllPlainConcat(d.name, v, windowsStyle);
    AllPlainConcat(d.name + v, e, windowsStyle);
  }

  lemma AppendAssoc(a: string, b: string, c: string)
    ensures a + (b + c) == a + b + c
  {
  }

  lemma PrefixConcat(p: string, n: string, v: string, e: string)
    ensures p + (n + v + e) == p + n + v + e
  {
    AppendAssoc(p, n + v, e);
    AppendAssoc(p, n, v);
  }

  /** Writing a command as its directory followed by its basename, or as its five parts
      one after the other, gives the same text. */
  lemma DirectoryConcat(dir: string, p: string, n: string, v: string, e: string)
    ensures dir + (p + n + v + e) == dir + p + n + v + e
  {
    AppendAssoc(dir, p + n + v, e);
    AppendAssoc(dir, p + n, v);
    AppendAssoc(dir, p, n);
  }

  /** A composed command is made of its parts: whether it has a separator or an upper-case
      letter in its basename depends on the prefix alone, since a table name, an accepted
      version and an allowed extension have none. */
  lemma ComposedFromParts(dir: string, p: string, d: Detector, v: string, e: string,
                          ver: VersionPattern, windowsStyle: bool)
    requires d in Table && DigitLike(ver)
    requires PrefixOk(p) && AcceptsVersion(ver, v) && ExtensionOk(e)
    requires dir == [] || IsSeparator(dir[|dir| - 1], windowsStyle)
    requires NoSeparator(p, windowsStyle) && (windowsStyle ==> NoUpper(p))
    ensures ComposedCommand(dir + (p + d.name + v + e), dir, p, d, v, e, ver, windowsStyle)
  {
    AcceptedIsVersionChars(ver, v);
    var rest := d.name + v + e;
    NameVersionExtensionPlain(d, v, e, windowsStyle);
    assert NoSeparator(rest, windowsStyle) && NoUpper(rest);
    PrefixConcat(p, d.name, v, e);
    NoSeparatorConcat(p, rest, windowsStyle);
    if windowsStyle {
      NoUpperConcat(p, rest);
    }
  }

  /** Whether a composed command has whitespace or a quote character in it depends on its
      directory and prefix alone. */
  lemma ComposedPlainTail(dir: string, p: string, d: Detector, v: string, e: string, windowsStyle: bool)
    requires d in Table && AllVersionChars(v) && ExtensionOk(e)
    ensures NoWhitespace(dir) && NoWhitespace(p) ==> NoWhitespace(dir + (p + d.name + v + e))
    ensures NoQuote(dir) && NoQuote(p) ==> NoQuote(dir + (p + d.name + v + e))
  {
    var rest := d.name + v + e;
    NameVersionExtensionPlain(d, v, e, windowsStyle);
    assert NoWhitespace(rest) && NoQuote(rest);
    PrefixConcat(p, d.name, v, e);
    if NoWhitespace(dir) && NoWhitespace(p) {
      NoWhitespaceConcat(p, rest);
      NoWhitespaceConcat(dir, p + rest);
    }
    if NoQuote(dir) && NoQuote(p) {
      NoQuoteConcat(p, rest);
      NoQuoteConcat(dir, p + rest);
    }
  }

  /** Such a command is detected as `d`, whatever directory it sits in. */
  lemma ComposedCommandDetected(cmd: string, dir: string, p: string, d: Detector, v: string, e: string,
                                ver: VersionPattern, windowsStyle: bool)
    requires ComposedCommand(cmd, dir, p, d, v, e, ver, windowsStyle)
    ensures FindDetector(MatchKey(cmd, windowsStyle), EffectiveVersion(ver, windowsStyle)) == Some(d)
  {
    var name := p + d.name + v + e;
    BasenameAfterDirectory(dir, name, windowsStyle);
    if windowsStyle {
      LowerFixesLowerCase(name);
    }
    DetectsComposedBasename(p, d, v, e, ver);
  }

  /** An unquoted compiler command followed by arguments: the command is returned as
      written and detected as `d`, however the arguments continue. */
  lemma UnquotedCommandDetected(cmd: string, dir: string, p: string, d: Detector, v: string, e: string,
                                more: string, ver: VersionPattern, windowsStyle: bool)
    requires ComposedCommand(cmd, dir, p, d, v, e, ver, windowsStyle)
    requires !IsQuote(cmd[0]) && NoWhitespace(cmd)
    requires more == [] || IsWhitespace(more[0])
    ensures DetermineDetector(cmd + more, ver, windowsStyle)
         == Ok(Some(ParserDetectionResult(d, CommandLine(cmd, TrimLeft(more)))))
  {
    TokenizeUnquoted(cmd, more);
    ComposedCommandDetected(cmd, dir, p, d, v, e, ver, windowsStyle);
  }

  /** A quoted compiler command followed by arguments: the command is returned as the
      text between the quotes and detected as `d`. */
  lemma QuotedCommandDetected(q: char, cmd: string, dir: string, p: string, d: Detector, v: string, e: string,
                              more: string, ver: VersionPattern, windowsStyle: bool)
    requires ComposedCommand(cmd, dir, p, d, v, e, ver, windowsStyle)
    requires IsQuote(q) && q !in cmd
    ensures DetermineDetector([q] + cmd + [q] + more, ver, windowsStyle)
         == Ok(Some(ParserDetectionResult(d, CommandLine(cmd, TrimLeft(more)))))
  {
    TokenizeQuoted(q, cmd, more);
    ComposedCommandDetected(cmd, dir, p, d, v, e, ver, windowsStyle);
  }

  /** Without a version pattern, a command whose basename carries a version after the
      compiler name matches no detector. */
  lemma VersionedCommandNotDetected(cmd: string, dir: string, p: string, d: Detector, v: string, e: string,
                                    windowsStyle: bool)
    requires d in Table && v != [] && AllVersionChars(v) && ExtensionOk(e)
    requires dir == [] || IsSeparator(dir[|dir| - 1], windowsStyle)
    requires NoSeparator(p + d.name + v + e, windowsStyle)
    requires windowsStyle ==> NoUpper(p + d.name + v + e)
    requires cmd == dir + (p + d.name + v + e)
    ensures FindDetector(MatchKey(cmd, windowsStyle), EffectiveVersion(NoVersion, windowsStyle)) == None
  {
    var name := p + d.name + v + e;
    BasenameAfterDirectory(dir, name, windowsStyle);
    if windowsStyle {
      LowerFixesLowerCase(name);
    }
    VersionedNotDetectedWithoutPattern(p, d, v, e);
  }

  /** Without a version pattern, an unquoted command whose basename carries a version
      after the compiler name is not detected. */
  lemma UnquotedVersionedNotDetected(dir: string, p: string, d: Detector, v: string, e: string,
                                     more: string, windowsStyle: bool)
    requires d in Table && v != [] && AllVersionChars(v) && ExtensionOk(e)
    requires dir == [] || IsSeparator(dir[|dir| - 1], windowsStyle)
    requires NoSeparator(p, windowsStyle) && (windowsStyle ==> NoUpper(p))
    requires NoWhitespace(dir) && NoWhitespace(p) && NoQuote(dir) && NoQuote(p)
    requires more == [] || IsWhitespace(more[0])
    ensures DetermineDetector(dir + p + d.name + v + e + more, NoVersion, windowsStyle) == Ok(None)
  {
    var rest := d.name + v + e;
    NameVersionExtensionPlain(d, v, e, windowsStyle);
    PrefixConcat(p, d.name, v, e);
    NoSeparatorConcat(p, rest, windowsStyle);
    if windowsStyle {
      NoUpperConcat(p, rest);
    }
    var cmd := dir + (p + d.name + v + e);
    DirectoryConcat(dir, p, d.name, v, e);
    ComposedPlainTail(dir, p, d, v, e, windowsStyle);
    TableNameShapes(d);
    TokenizeUnquoted(cmd, more);
    VersionedCommandNotDetected(cmd, dir, p, d, v, e, windowsStyle);
  }

  /** An unquoted command assembled from a directory, a prefix, a table name, a version
      and an extension is detected as that table entry; the conditions fall on the
      directory and the prefix alone. */
  lemma UnquotedPartsDetected(dir: string, p: string, d: Detector, v: string, e: string,
                              more: string, ver: VersionPattern, windowsStyle: bool)
    requires d in Table && DigitLike(ver)
    requires PrefixOk(p) && AcceptsVersion(ver, v) && ExtensionOk(e)
    requires dir == [] || IsSeparator(dir[|dir| - 1], windowsStyle)
    requires NoSeparator(p, windowsStyle) && (windowsStyle ==> NoUpper(p))
    requires NoWhitespace(dir) && NoWhitespace(p) && NoQuote(dir) && NoQuote(p)
    requires more == [] || IsWhitespace(more[0])
    ensures DetermineDetector(dir + p + d.name + v + e + more, ver, windowsStyle)
         == Ok(Some(ParserDetectionResult(d, CommandLine(dir + p + d.name + v + e, TrimLeft(more)))))
  {
    var cmd := dir + (p + d.name + v + e);
    DirectoryConcat(dir, p, d.name, v, e);
    ComposedFromParts(dir, p, d, v, e, ver, windowsStyle);
    AcceptedIsVersionChars(ver, v);
    ComposedPlainTail(dir, p, d, v, e, windowsStyle);
    TableNameShapes(d);
    UnquotedCommandDetected(cmd, dir, p, d, v, e, more, ver, windowsStyle);
  }

  /** On Windows-style input, an unquoted command whose lower-cased form is composed of
      directory, prefix, table name, version and extension is detected as that entry,
      whatever the letter case it is written in; the command is kept as written. */
  lemma UnquotedPartsDetectedAnyCase(cmd: string, dir: string, p: string, d: Detector, v: string,
                                     e: string, more: string, ver: VersionPattern)
    requires d in Table && DigitLike(ver)
    requires PrefixOk(p) && AcceptsVersion(ver, v) && ExtensionOk(e)
    requires dir == [] || IsSeparator(dir[|dir| - 1], true)
    requires NoSeparator(p, true) && NoUpper(p)
    requires NoWhitespace(dir) && NoWhitespace(p) && NoQuote(dir) && NoQuote(p)
    requires more == [] || IsWhitespace(more[0])
    requires cmd != [] && !IsQuote(cmd[0]) && NoWhitespace(cmd)
    requires Lower(cmd) == dir + p + d.name + v + e
    ensures DetermineDetector(cmd + more, ver, true)
         == Ok(Some(ParserDetectionResult(d, CommandLine(cmd, TrimLeft(more)))))
  {
    var lower := dir + p + d.name + v + e;
    LowerPartsDetected(lower, dir, p, d, v, e, more, ver);
    AnyCaseDetected(cmd, lower, more, ver, d);
  }

  /** The lower-case spelling: detected, and tokenized into itself and the arguments. */
  lemma LowerPartsDetected(lower: string, dir: string, p: string, d: Detector, v: string,
                           e: string, more: string, ver: VersionPattern)
    requires d in Table && DigitLike(ver)
    requires PrefixOk(p) && AcceptsVersion(ver, v) && ExtensionOk(e)
    requires dir == [] || IsSeparator(dir[|dir| - 1], true)
    requires NoSeparator(p, true) && NoUpper(p)
    requires NoWhitespace(dir) && NoWhitespace(p) && NoQuote(dir) && NoQuote(p)
    requires more == [] || IsWhitespace(more[0])
    requires lower == dir + p + d.name + v + e
    ensures Tokenize(lower + more) == Ok(CommandLine(lower, TrimLeft(more)))
    ensures DetermineDetector(lower + more, ver, true)
         == Ok(Some(ParserDetectionResult(d, CommandLine(lower, TrimLeft(more)))))
  {
    UnquotedPartsDetected(dir, p, d, v, e, more, ver, true);
    DetectionTokenizes(lower + more, CommandLine(lower, TrimLeft(more)), ver, true, d);
  }

  /** An unquoted command spelled in any letter case is detected like its lower-case
      spelling. */
  lemma AnyCaseDetected(cmd: string, lower: string, more: string, ver: VersionPattern, d: Detector)
    requires cmd != [] && !IsQuote(cmd[0]) && NoWhitespace(cmd)
    requires more == [] || IsWhitespace(more[0])
    requires Lower(cmd) == lower
    ensures
      (DetermineDetector(lower + more, ver, true)
       == Ok(Some(ParserDetectionResult(d, CommandLine(lower, TrimLeft(more))))))
      ==>
      (DetermineDetector(cmd + more, ver, true)
       == Ok(Some(ParserDetectionResult(d, CommandLine(cmd, TrimLeft(more))))))
  {
    TokenizeUnquoted(cmd, more);
    DetectionTokenizes(lower + more, CommandLine(lower, TrimLeft(more)), ver, true, d);
    LowerIdempotent(cmd);
    DetectedUpToCase(cmd + more, CommandLine(cmd, TrimLeft(more)),
                     lower + more, CommandLine(lower, TrimLeft(more)), ver, d);
  }

  /** The same command between double quotes. */
  lemma QuotedPartsDetected(dir: string, p: string, d: Detector, v: string, e: string,
                            more: string, ver: VersionPattern, windowsStyle: bool)
    requires d in Table && DigitLike(ver)
    requires PrefixOk(p) && AcceptsVersion(ver, v) && ExtensionOk(e)
    requires dir == [] || IsSeparator(dir[|dir| - 1], windowsStyle)
    requires NoSeparator(p, windowsStyle) && (windowsStyle ==> NoUpper(p))
    requires NoQuote(dir) && NoQuote(p)
    ensures DetermineDetector("\"" + (dir + p + d.name + v + e) + "\"" + more, ver, windowsStyle)
         == Ok(Some(ParserDetectionResult(d, CommandLine(dir + p + d.name + v + e, TrimLeft(more)))))
  {
    var cmd := dir + (p + d.name + v + e);
    DirectoryConcat(dir, p, d.name, v, e);
    ComposedFromParts(dir, p, d, v, e, ver, windowsStyle);
    AcceptedIsVersionChars(ver, v);
    ComposedPlainTail(dir, p, d, v, e, windowsStyle);
    QuotedCommandDetected('"', cmd, dir, p, d, v, e, more, ver, windowsStyle);
  }
}
