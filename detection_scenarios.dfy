/** The detections the repository's parser-detection tests expect, each derived from
    the general lemmas about composed command lines. Each proof names how the command
    is composed: directory, target-triplet prefix, table entry, version and extension. */
module DetectionScenarios {
  import opened Wrappers
  import opened Text
  import opened CommandLines
  import opened VersionSuffix
  import opened BasenameMatch
  import opened Detectors
  import opened ParserDetection

  const Cc := Detector("cc", GccFamily)
  const Gcc := Detector("gcc", GccFamily)
  const Clang := Detector("clang", GccFamily)
  const Cxx := Detector("c++", GxxFamily)
  const Gxx := Detector("g++", GxxFamily)
  const Clangxx := Detector("clang++", GxxFamily)

  /** The arguments most of the tests put after the compiler. */
  const Args := " -C blah.c"
  /** Arguments with quoted words of their own. */
  const QuotedArgs := " -DFoo=bar \"quoted\" 'quoted' -C blah.c"
  /** Arguments with a path that itself contains `c++`. */
  const GreedyArgs := " " + "-DFoo=bar -I /opt/mingw53_32/mkspecs/win32-c++ -C blah.c"
  /** A long line of include and compile options. */
  const LongArgs := " " + "-I/apps/tools/cent_os72/thirdparty/boost/boost_1_64_0/include -I/home/XXX/repositories/bepa/common/include -g -Wall -c /home/XXX/repositories/bepa/common/settings/src/settings.cpp"

  lemma ArgumentsStartBlank()
    ensures IsWhitespace(Args[0])
    ensures IsWhitespace(GreedyArgs[0])
    ensures IsWhitespace(LongArgs[0])
  {
  }

  /** Each `...Parts` lemma below splits a test's command into directory, target-triplet
      prefix, table name, version and extension. */

  /** The directories of the unquoted commands hold no whitespace and no quote. */
  lemma UsrBinPlain()
    ensures NoWhitespace("/usr/bin/") && NoQuote("/usr/bin/")
  {
  }

  lemma UsrLocalBinPlain()
    ensures NoWhitespace("/usr/local/bin/") && NoQuote("/usr/local/bin/")
  {
  }

  lemma BinlinksPlain()
    ensures NoWhitespace("/apps/tools/cent_os72/binlinks/") && NoQuote("/apps/tools/cent_os72/binlinks/")
  {
  }

  /** The directories of the quoted commands hold no quote. */
  lemma SpacedDirectoryNoQuote()
    ensures NoQuote("/us r/bi n/")
  {
  }

  lemma DriveLikeDirectoryNoQuote()
    ensures NoQuote("C;/us r/bi n/")
  {
  }

  lemma WindowsDirectoryNoQuote()
    ensures NoQuote("C;\\us r\\bi n\\")
  {
  }

  /** `arm-none-eabi-` is a target-triplet prefix without separators, blanks, quotes or
      upper-case letters. */
  lemma TripletPrefixOk()
    ensures PrefixOk("arm-none-eabi-")
  {
  }

  lemma TripletPrefixPlain()
    ensures NoWhitespace("arm-none-eabi-") && NoQuote("arm-none-eabi-") && NoUpper("arm-none-eabi-")
    ensures NoSeparator("arm-none-eabi-", false) && NoSeparator("arm-none-eabi-", true)
  {
  }

  /** The version suffixes the tests use fit the dotted-digits pattern (and `40` also
      the literal pattern `40`). */
  lemma CrossVersionAccepted()
    ensures AcceptsVersion(DottedDigits, "-9.2.0") && AllVersionChars("-9.2.0")
  {
  }

  lemma ShortVersionAccepted()
    ensures AcceptsVersion(DottedDigits, "-4.1") && AllVersionChars("-4.1")
    ensures AcceptsVersion(DottedDigits, "-7.1") && AllVersionChars("-7.1")
  {
  }

  lemma BareVersionAccepted()
    ensures AcceptsVersion(DottedDigits, "40") && AcceptsVersion(Literal("40"), "40")
    ensures DigitLike(Literal("40"))
  {
  }

  lemma ClangIsCParts()
    ensures "/usr/bin/clang" == "/usr/bin/" + "" + Clang.name + "" + ""
  {
  }

  /** `/usr/bin/clang` is a C compiler. */
  lemma ClangIsC()
    ensures DetermineDetector("/usr/bin/clang" + Args, NoVersion, true)
         == Ok(Some(ParserDetectionResult(Clang, CommandLine("/usr/bin/clang", TrimLeft(Args)))))
  {
    ClangIsCParts();
    UsrBinPlain();
    ArgumentsStartBlank();
    UnquotedPartsDetected("/usr/bin/", "", Clang, "", "", Args, NoVersion, true);
  }

  lemma ClangxxIsCxxParts()
    ensures "/usr/bin/clang++" == "/usr/bin/" + "" + Clangxx.name + "" + ""
  {
  }

  /** `/usr/bin/clang++` is a C++ compiler. */
  lemma ClangxxIsCxx()
    ensures DetermineDetector("/usr/bin/clang++" + Args, NoVersion, true)
         == Ok(Some(ParserDetectionResult(Clangxx, CommandLine("/usr/bin/clang++", TrimLeft(Args)))))
  {
    ClangxxIsCxxParts();
    UsrBinPlain();
    ArgumentsStartBlank();
    UnquotedPartsDetected("/usr/bin/", "", Clangxx, "", "", Args, NoVersion, true);
  }

  lemma ClangxxBasenameIsCxxParts()
    ensures "clang++" == "" + "" + Clangxx.name + "" + ""
  {
  }

  /** A bare `clang++` without a directory is a C++ compiler too. */
  lemma ClangxxBasenameIsCxx()
    ensures DetermineDetector("clang++" + Args, NoVersion, false)
         == Ok(Some(ParserDetectionResult(Clangxx, CommandLine("clang++", TrimLeft(Args)))))
  {
    ClangxxBasenameIsCxxParts();
    ArgumentsStartBlank();
    UnquotedPartsDetected("", "", Clangxx, "", "", Args, NoVersion, false);
  }

  lemma CrossGccIsCParts()
    ensures "/usr/bin/arm-none-eabi-gcc" == "/usr/bin/" + "arm-none-eabi-" + Gcc.name + "" + ""
  {
  }

  /** A cross compiler named with a target-triplet prefix is detected by the name after
      the prefix. */
  lemma CrossGccIsC()
    ensures DetermineDetector("/usr/bin/arm-none-eabi-gcc" + Args, NoVersion, true)
         == Ok(Some(ParserDetectionResult(Gcc, CommandLine("/usr/bin/arm-none-eabi-gcc", TrimLeft(Args)))))
  {
    CrossGccIsCParts();
    UsrBinPlain();
    TripletPrefixOk();
    TripletPrefixPlain();
    ArgumentsStartBlank();
    UnquotedPartsDetected("/usr/bin/", "arm-none-eabi-", Gcc, "", "", Args, NoVersion, true);
  }

  lemma CrossGccExeIsCParts()
    ensures "/usr/bin/arm-none-eabi-gcc.exe" == "/usr/bin/" + "arm-none-eabi-" + Gcc.name + "" + ".exe"
  {
  }

  /** The same cross compiler with the `.exe` extension. */
  lemma CrossGccExeIsC()
    ensures DetermineDetector("/usr/bin/arm-none-eabi-gcc.exe" + Args, NoVersion, true)
         == Ok(Some(ParserDetectionResult(Gcc, CommandLine("/usr/bin/arm-none-eabi-gcc.exe", TrimLeft(Args)))))
  {
    CrossGccExeIsCParts();
    UsrBinPlain();
    TripletPrefixOk();
    TripletPrefixPlain();
    ArgumentsStartBlank();
    UnquotedPartsDetected("/usr/bin/", "arm-none-eabi-", Gcc, "", ".exe", Args, NoVersion, true);
  }

  lemma CrossGccWithVersionIsCParts()
    ensures "/usr/bin/arm-none-eabi-gcc-9.2.0" == "/usr/bin/" + "arm-none-eabi-" + Gcc.name + "-9.2.0" + ""
  {
  }

  /** A cross compiler with a version suffix, under the dotted-digits pattern. */
  lemma CrossGccWithVersionIsC()
    ensures DetermineDetector("/usr/bin/arm-none-eabi-gcc-9.2.0" + Args, DottedDigits, true)
         == Ok(Some(ParserDetectionResult(Gcc, CommandLine("/usr/bin/arm-none-eabi-gcc-9.2.0", TrimLeft(Args)))))
  {
    CrossGccWithVersionIsCParts();
    UsrBinPlain();
    TripletPrefixOk();
    TripletPrefixPlain();
    CrossVersionAccepted();
    ArgumentsStartBlank();
    UnquotedPartsDetected("/usr/bin/", "arm-none-eabi-", Gcc, "-9.2.0", "", Args, DottedDigits, true);
  }

  lemma CrossGccWithVersionExeIsCParts()
    ensures "/usr/bin/arm-none-eabi-gcc-9.2.0.exe" == "/usr/bin/" + "arm-none-eabi-" + Gcc.name + "-9.2.0" + ".exe"
  {
  }

  /** The same with the `.exe` extension after the version. */
  lemma CrossGccWithVersionExeIsC()
    ensures DetermineDetector("/usr/bin/arm-none-eabi-gcc-9.2.0.exe" + Args, DottedDigits, true)
         == Ok(Some(ParserDetectionResult(Gcc, CommandLine("/usr/bin/arm-none-eabi-gcc-9.2.0.exe", TrimLeft(Args)))))
  {
    CrossGccWithVersionExeIsCParts();
    UsrBinPlain();
    TripletPrefixOk();
    TripletPrefixPlain();
    CrossVersionAccepted();
    ArgumentsStartBlank();
    UnquotedPartsDetected("/usr/bin/", "arm-none-eabi-", Gcc, "-9.2.0", ".exe", Args, DottedDigits, true);
  }

  lemma CrossGxxIsCxxParts()
    ensures "/usr/bin/arm-none-eabi-g++" == "/usr/bin/" + "arm-none-eabi-" + Gxx.name + "" + ""
  {
  }

  /** A cross C++ compiler named with a target-triplet prefix. */
  lemma CrossGxxIsCxx()
    ensures DetermineDetector("/usr/bin/arm-none-eabi-g++" + Args, NoVersion, true)
         == Ok(Some(ParserDetectionResult(Gxx, CommandLine("/usr/bin/arm-none-eabi-g++", TrimLeft(Args)))))
  {
    CrossGxxIsCxxParts();
    UsrBinPlain();
    TripletPrefixOk();
    TripletPrefixPlain();
    ArgumentsStartBlank();
    UnquotedPartsDetected("/usr/bin/", "arm-none-eabi-", Gxx, "", "", Args, NoVersion, true);
  }

  lemma CrossGxxExeIsCxxParts()
    ensures "/usr/bin/arm-none-eabi-g++.exe" == "/usr/bin/" + "arm-none-eabi-" + Gxx.name + "" + ".exe"
  {
  }

  /** The same cross C++ compiler with the `.exe` extension. */
  lemma CrossGxxExeIsCxx()
    ensures DetermineDetector("/usr/bin/arm-none-eabi-g++.exe" + Args, NoVersion, true)
         == Ok(Some(ParserDetectionResult(Gxx, CommandLine("/usr/bin/arm-none-eabi-g++.exe", TrimLeft(Args)))))
  {
    CrossGxxExeIsCxxParts();
    UsrBinPlain();
    TripletPrefixOk();
    TripletPrefixPlain();
    ArgumentsStartBlank();
    UnquotedPartsDetected("/usr/bin/", "arm-none-eabi-", Gxx, "", ".exe", Args, NoVersion, true);
  }

  lemma CrossGxxWithVersionIsCxxParts()
    ensures "/usr/bin/arm-none-eabi-g++-9.2.0" == "/usr/bin/" + "arm-none-eabi-" + Gxx.name + "-9.2.0" + ""
  {
  }

  /** A cross C++ compiler with a version suffix, under the dotted-digits pattern. */
  lemma CrossGxxWithVersionIsCxx()
    ensures DetermineDetector("/usr/bin/arm-none-eabi-g++-9.2.0" + Args, DottedDigits, true)
         == Ok(Some(ParserDetectionResult(Gxx, CommandLine("/usr/bin/arm-none-eabi-g++-9.2.0", TrimLeft(Args)))))
  {
    CrossGxxWithVersionIsCxxParts();
    UsrBinPlain();
    TripletPrefixOk();
    TripletPrefixPlain();
    CrossVersionAccepted();
    ArgumentsStartBlank();
    UnquotedPartsDetected("/usr/bin/", "arm-none-eabi-", Gxx, "-9.2.0", "", Args, DottedDigits, true);
  }

  lemma CrossGxxWithVersionExeIsCxxParts()
    ensures "/usr/bin/arm-none-eabi-g++-9.2.0.exe" == "/usr/bin/" + "arm-none-eabi-" + Gxx.name + "-9.2.0" + ".exe"
  {
  }

  /** The same with the `.exe` extension after the version. */
  lemma CrossGxxWithVersionExeIsCxx()
    ensures DetermineDetector("/usr/bin/arm-none-eabi-g++-9.2.0.exe" + Args, DottedDigits, true)
         == Ok(Some(ParserDetectionResult(Gxx, CommandLine("/usr/bin/arm-none-eabi-g++-9.2.0.exe", TrimLeft(Args)))))
  {
    CrossGxxWithVersionExeIsCxxParts();
    UsrBinPlain();
    TripletPrefixOk();
    TripletPrefixPlain();
    CrossVersionAccepted();
    ArgumentsStartBlank();
    UnquotedPartsDetected("/usr/bin/", "arm-none-eabi-", Gxx, "-9.2.0", ".exe", Args, DottedDigits, true);
  }

  lemma CrossGxxBasenameIsCxxParts()
    ensures "arm-none-eabi-g++" == "" + "arm-none-eabi-" + Gxx.name + "" + ""
  {
  }

  /** A cross C++ compiler given by its basename only. */
  lemma CrossGxxBasenameIsCxx()
    ensures DetermineDetector("arm-none-eabi-g++" + Args, NoVersion, false)
         == Ok(Some(ParserDetectionResult(Gxx, CommandLine("arm-none-eabi-g++", TrimLeft(Args)))))
  {
    CrossGxxBasenameIsCxxParts();
    TripletPrefixOk();
    TripletPrefixPlain();
    ArgumentsStartBlank();
    UnquotedPartsDetected("", "arm-none-eabi-", Gxx, "", "", Args, NoVersion, false);
  }

  lemma CrossGxxBasenameExeIsCxxParts()
    ensures "arm-none-eabi-g++.exe" == "" + "arm-none-eabi-" + Gxx.name + "" + ".exe"
  {
  }

  /** The same basename with the `.exe` extension. */
  lemma CrossGxxBasenameExeIsCxx()
    ensures DetermineDetector("arm-none-eabi-g++.exe" + Args, NoVersion, false)
         == Ok(Some(ParserDetectionResult(Gxx, CommandLine("arm-none-eabi-g++.exe", TrimLeft(Args)))))
  {
    CrossGxxBasenameExeIsCxxParts();
    TripletPrefixOk();
    TripletPrefixPlain();
    ArgumentsStartBlank();
    UnquotedPartsDetected("", "arm-none-eabi-", Gxx, "", ".exe", Args, NoVersion, false);
  }

  lemma CcWithVersionIsCParts()
    ensures "/usr/bin/cc-4.1" == "/usr/bin/" + "" + Cc.name + "-4.1" + ""
  {
  }

  /** `cc` with a version suffix, under the dotted-digits pattern. */
  lemma CcWithVersionIsC()
    ensures DetermineDetector("/usr/bin/cc-4.1" + Args, DottedDigits, false)
         == Ok(Some(ParserDetectionResult(Cc, CommandLine("/usr/bin/cc-4.1", TrimLeft(Args)))))
  {
    CcWithVersionIsCParts();
    UsrBinPlain();
    ShortVersionAccepted();
    ArgumentsStartBlank();
    UnquotedPartsDetected("/usr/bin/", "", Cc, "-4.1", "", Args, DottedDigits, false);
  }

  lemma CcWithVersionExeIsCParts()
    ensures "/usr/bin/cc-4.1.exe" == "/usr/bin/" + "" + Cc.name + "-4.1" + ".exe"
  {
  }

  /** The same with the `.exe` extension, Windows-style. */
  lemma CcWithVersionExeIsC()
    ensures DetermineDetector("/usr/bin/cc-4.1.exe" + Args, DottedDigits, true)
         == Ok(Some(ParserDetectionResult(Cc, CommandLine("/usr/bin/cc-4.1.exe", TrimLeft(Args)))))
  {
    CcWithVersionExeIsCParts();
    UsrBinPlain();
    ShortVersionAccepted();
    ArgumentsStartBlank();
    UnquotedPartsDetected("/usr/bin/", "", Cc, "-4.1", ".exe", Args, DottedDigits, true);
  }

  lemma CxxWithVersionIsCxxParts()
    ensures "/usr/bin/c++-4.1" == "/usr/bin/" + "" + Cxx.name + "-4.1" + ""
  {
  }

  /** `c++` with a version suffix, under the dotted-digits pattern. */
  lemma CxxWithVersionIsCxx()
    ensures DetermineDetector("/usr/bin/c++-4.1" + Args, DottedDigits, false)
         == Ok(Some(ParserDetectionResult(Cxx, CommandLine("/usr/bin/c++-4.1", TrimLeft(Args)))))
  {
    CxxWithVersionIsCxxParts();
    UsrBinPlain();
    ShortVersionAccepted();
    ArgumentsStartBlank();
    UnquotedPartsDetected("/usr/bin/", "", Cxx, "-4.1", "", Args, DottedDigits, false);
  }

  lemma CxxWithVersionExeIsCxxParts()
    ensures "/usr/bin/c++-4.1.exe" == "/usr/bin/" + "" + Cxx.name + "-4.1" + ".exe"
  {
  }

  /** The same with the `.exe` extension, Windows-style. */
  lemma CxxWithVersionExeIsCxx()
    ensures DetermineDetector("/usr/bin/c++-4.1.exe" + Args, DottedDigits, true)
         == Ok(Some(ParserDetectionResult(Cxx, CommandLine("/usr/bin/c++-4.1.exe", TrimLeft(Args)))))
  {
    CxxWithVersionExeIsCxxParts();
    UsrBinPlain();
    ShortVersionAccepted();
    ArgumentsStartBlank();
    UnquotedPartsDetected("/usr/bin/", "", Cxx, "-4.1", ".exe", Args, DottedDigits, true);
  }

  lemma Clangxx40IsCxxParts()
    ensures "/usr/local/bin/clang++40" == "/usr/local/bin/" + "" + Clangxx.name + "40" + ""
  {
  }

  /** `clang++40`: a version directly after the name, without a hyphen. */
  lemma Clangxx40IsCxx()
    ensures DetermineDetector("/usr/local/bin/clang++40" + Args, DottedDigits, false)
         == Ok(Some(ParserDetectionResult(Clangxx, CommandLine("/usr/local/bin/clang++40", TrimLeft(Args)))))
  {
    Clangxx40IsCxxParts();
    UsrLocalBinPlain();
    BareVersionAccepted();
    ArgumentsStartBlank();
    UnquotedPartsDetected("/usr/local/bin/", "", Clangxx, "40", "", Args, DottedDigits, false);
  }

  /** The same under the literal version pattern `40`. */
  lemma Clangxx40LiteralIsCxx()
    ensures DetermineDetector("/usr/local/bin/clang++40" + Args, Literal("40"), false)
         == Ok(Some(ParserDetectionResult(Clangxx, CommandLine("/usr/local/bin/clang++40", TrimLeft(Args)))))
  {
    Clangxx40IsCxxParts();
    UsrLocalBinPlain();
    BareVersionAccepted();
    ArgumentsStartBlank();
    UnquotedPartsDetected("/usr/local/bin/", "", Clangxx, "40", "", Args, Literal("40"), false);
  }

  lemma GxxWithVersionLongArgsIsCxxParts()
    ensures "/apps/tools/cent_os72/binlinks/g++-7.1" == "/apps/tools/cent_os72/binlinks/" + "" + Gxx.name + "-7.1" + ""
  {
  }

  /** `g++-7.1` followed by a long list of include and compile options. */
  lemma GxxWithVersionLongArgsIsCxx()
    ensures DetermineDetector("/apps/tools/cent_os72/binlinks/g++-7.1" + LongArgs, DottedDigits, true)
         == Ok(Some(ParserDetectionResult(Gxx, CommandLine("/apps/tools/cent_os72/binlinks/g++-7.1", TrimLeft(LongArgs)))))
  {
    GxxWithVersionLongArgsIsCxxParts();
    BinlinksPlain();
    ShortVersionAccepted();
    ArgumentsStartBlank();
    UnquotedPartsDetected("/apps/tools/cent_os72/binlinks/", "", Gxx, "-7.1", "", LongArgs, DottedDigits, true);
  }

  lemma QuotedWithSpacesIsCcParts()
    ensures "/us r/bi n/cc" == "/us r/bi n/" + "" + Cc.name + "" + ""
  {
  }

  /** A quoted command whose directories contain blanks is returned without the quotes. */
  lemma QuotedWithSpacesIsCc()
    ensures DetermineDetector("\"" + ("/us r/bi n/cc") + "\"" + QuotedArgs, NoVersion, false)
         == Ok(Some(ParserDetectionResult(Cc, CommandLine("/us r/bi n/cc", TrimLeft(QuotedArgs)))))
  {
    QuotedWithSpacesIsCcParts();
    SpacedDirectoryNoQuote();
    QuotedPartsDetected("/us r/bi n/", "", Cc, "", "", QuotedArgs, NoVersion, false);
  }

  lemma QuotedDriveLikeIsCcParts()
    ensures "C;/us r/bi n/cc" == "C;/us r/bi n/" + "" + Cc.name + "" + ""
  {
  }

  /** A quoted command starting with a drive-like `C;`. */
  lemma QuotedDriveLikeIsCc()
    ensures DetermineDetector("\"" + ("C;/us r/bi n/cc") + "\"" + QuotedArgs, NoVersion, false)
         == Ok(Some(ParserDetectionResult(Cc, CommandLine("C;/us r/bi n/cc", TrimLeft(QuotedArgs)))))
  {
    QuotedDriveLikeIsCcParts();
    DriveLikeDirectoryNoQuote();
    QuotedPartsDetected("C;/us r/bi n/", "", Cc, "", "", QuotedArgs, NoVersion, false);
  }

  lemma QuotedWindowsIsCcParts()
    ensures "C;\\us r\\bi n\\cc" == "C;\\us r\\bi n\\" + "" + Cc.name + "" + ""
  {
  }

  /** A quoted command with backslash separators, Windows-style. */
  lemma QuotedWindowsIsCc()
    ensures DetermineDetector("\"" + ("C;\\us r\\bi n\\cc") + "\"" + QuotedArgs, NoVersion, true)
         == Ok(Some(ParserDetectionResult(Cc, CommandLine("C;\\us r\\bi n\\cc", TrimLeft(QuotedArgs)))))
  {
    QuotedWindowsIsCcParts();
    WindowsDirectoryNoQuote();
    QuotedPartsDetected("C;\\us r\\bi n\\", "", Cc, "", "", QuotedArgs, NoVersion, true);
  }

  lemma QuotedWindowsExeIsCcParts()
    ensures "C;\\us r\\bi n\\cc.exe" == "C;\\us r\\bi n\\" + "" + Cc.name + "" + ".exe"
  {
  }

  /** The same with the `.exe` extension. */
  lemma QuotedWindowsExeIsCc()
    ensures DetermineDetector("\"" + ("C;\\us r\\bi n\\cc.exe") + "\"" + QuotedArgs, NoVersion, true)
         == Ok(Some(ParserDetectionResult(Cc, CommandLine("C;\\us r\\bi n\\cc.exe", TrimLeft(QuotedArgs)))))
  {
    QuotedWindowsExeIsCcParts();
    WindowsDirectoryNoQuote();
    QuotedPartsDetected("C;\\us r\\bi n\\", "", Cc, "", ".exe", QuotedArgs, NoVersion, true);
  }

  lemma GreedyCxxParts()
    ensures "/usr/bin/c++" == "/usr/bin/" + "" + Cxx.name + "" + ""
  {
  }

  /** `/usr/bin/c++` followed by an option that itself mentions `c++`: the command ends
      at the first blank. */
  lemma GreedyCxx()
    ensures DetermineDetector("/usr/bin/c++" + GreedyArgs, NoVersion, false)
         == Ok(Some(ParserDetectionResult(Cxx, CommandLine("/usr/bin/c++", TrimLeft(GreedyArgs)))))
  {
    GreedyCxxParts();
    UsrBinPlain();
    ArgumentsStartBlank();
    UnquotedPartsDetected("/usr/bin/", "", Cxx, "", "", GreedyArgs, NoVersion, false);
  }

  /** The same command quoted: the command ends at the closing quote. */
  lemma GreedyCxxQuoted()
    ensures DetermineDetector("\"" + ("/usr/bin/c++") + "\"" + GreedyArgs, NoVersion, false)
         == Ok(Some(ParserDetectionResult(Cxx, CommandLine("/usr/bin/c++", TrimLeft(GreedyArgs)))))
  {
    GreedyCxxParts();
    UsrBinPlain();
    QuotedPartsDetected("/usr/bin/", "", Cxx, "", "", GreedyArgs, NoVersion, false);
  }

  lemma GreedyCxxExeParts()
    ensures "/usr/bin/c++.exe" == "/usr/bin/" + "" + Cxx.name + "" + ".exe"
  {
  }

  /** The same with the `.exe` extension, Windows-style. */
  lemma GreedyCxxExe()
    ensures DetermineDetector("/usr/bin/c++.exe" + GreedyArgs, NoVersion, true)
         == Ok(Some(ParserDetectionResult(Cxx, CommandLine("/usr/bin/c++.exe", TrimLeft(GreedyArgs)))))
  {
    GreedyCxxExeParts();
    UsrBinPlain();
    ArgumentsStartBlank();
    UnquotedPartsDetected("/usr/bin/", "", Cxx, "", ".exe", GreedyArgs, NoVersion, true);
  }

  /** The same quoted. */
  lemma GreedyCxxExeQuoted()
    ensures DetermineDetector("\"" + ("/usr/bin/c++.exe") + "\"" + GreedyArgs, NoVersion, true)
         == Ok(Some(ParserDetectionResult(Cxx, CommandLine("/usr/bin/c++.exe", TrimLeft(GreedyArgs)))))
  {
    GreedyCxxExeParts();
    UsrBinPlain();
    QuotedPartsDetected("/usr/bin/", "", Cxx, "", ".exe", GreedyArgs, NoVersion, true);
  }

  /** Without a version pattern, `cc-4.1` is not detected. */
  lemma CcWithVersionNeedsPattern()
    ensures DetermineDetector("/usr/bin/cc-4.1" + Args, NoVersion, false) == Ok(None)
  {
    CcWithVersionIsCParts();
    UsrBinPlain();
    ArgumentsStartBlank();
    UnquotedVersionedNotDetected("/usr/bin/", "", Cc, "-4.1", "", Args, false);
  }

  /** The upper-case command starts with no quote and holds no whitespace. */
  lemma UpperGccPlain()
    ensures "/usr/bin/GCC" != [] && !IsQuote("/usr/bin/GCC"[0]) && NoWhitespace("/usr/bin/GCC")
  {
  }

  lemma UpperGccLower()
    ensures Lower("/usr/bin/GCC") == "/usr/bin/" + "" + Gcc.name + "" + ""
  {
    UpperGccSplit();
    LowerAppend("/usr/bin/", "GCC");
    UsrBinLower();
    GccLower();
    LowerGccJoin();
  }

  lemma UpperGccSplit()
    ensures "/usr/bin/GCC" == "/usr/bin/" + "GCC"
  {
  }

  lemma LowerGccJoin()
    ensures "/usr/bin/" + "gcc" == "/usr/bin/" + "" + Gcc.name + "" + ""
  {
  }

  lemma UsrBinLower()
    ensures Lower("/usr/bin/") == "/usr/bin/"
  {
    LowerFixesLowerCase("/usr/bin/");
  }

  lemma GccLower()
    ensures Lower("GCC") == "gcc"
  {
  }

  /** On Windows-style input an upper-case spelling of a compiler is detected as the
      lower-case one: `/usr/bin/GCC` is the C compiler `gcc`, and the command is kept as
      written. */
  lemma UpperGccIsC()
    ensures DetermineDetector("/usr/bin/GCC" + Args, NoVersion, true)
         == Ok(Some(ParserDetectionResult(Gcc, CommandLine("/usr/bin/GCC", TrimLeft(Args)))))
  {
    UpperGccPlain();
    UpperGccLower();
    UsrBinPlain();
    ArgumentsStartBlank();
    UnquotedPartsDetectedAnyCase("/usr/bin/GCC", "/usr/bin/", "", Gcc, "", "", Args, NoVersion);
  }
}
