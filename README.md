# Compiler detection for build command lines (cmake4eclipse)

This project models, in Dafny, how cmake4eclipse decides which compiler produced a
build command line. The decision picks the argument parser (GNU C or GNU C++) that later
extracts include paths and macros from the command line. The model covers four steps:

1. **Tokenizing** (`CommandLines`). Leading whitespace is skipped. A command opened by
   `"` or `'` runs to the next occurrence of the same quote and is kept verbatim, spaces,
   `;` and backslashes included. Any other command ends at the first whitespace. The
   arguments are the rest, with leading whitespace removed. A blank line or an unclosed
   quote is an error (`Malformed`).
2. **Basename and match key** (`ParserDetection.Basename`, `ParserDetection.MatchKey`).
   The basename is the part of the command after the last `/`; on Windows-style input it
   is also split at `\`. The match key is the basename, lower-cased on Windows-style
   input, because file names there are compared without regard to letter case.
   `ParserDetection.SameUpToCaseSameDetection` proves that commands that agree up to ASCII
   letter case get the same detection; `DetectionScenarios.UpperGccIsC` applies it to
   `/usr/bin/GCC`.
3. **Matching** (`BasenameMatch`, `VersionSuffix`). A basename fits a compiler name when
   it is made of four parts: an optional target-triplet prefix such as `arm-none-eabi-`,
   the name itself, an optional version suffix and an optional `.exe`. The model knows
   two version patterns: the dotted-digits pattern `-?\d+(\.\d+)*` and a literal such as
   `40`. A small scanner for the dotted-digits pattern is proved equal to its declarative
   definition. The matcher `Matches` is proved equivalent to the existential definition
   `Fits`.
4. **Lookup** (`Detectors`, `ParserDetection.DetermineDetector`). The detector table
   holds `c++`, `g++`, `clang++` (GNU C++ parser, `org.eclipse.cdt.core.g++`) and `cc`,
   `gcc`, `clang` (GNU C parser, `org.eclipse.cdt.core.gcc`). First every detector is
   tried without a version suffix, then every detector again with the caller's version
   pattern. The result holds the detector found and the tokenized command line. An
   unknown compiler gives no result, which is not an error.

The central theorem is `Detectors.FindDetectorExact`. If the version pattern accepts only
digits, `.` and `-`, at most one table name can fit a basename. So the detector found is
exactly the table entry whose name fits, whatever the table order. In particular, `cc`
never shadows `gcc`. That `c++` inside an argument never leaks into the command is a
property of the tokenizer: `CommandLines.TokenizeUnquoted` ends an unquoted command at
the first whitespace, and `DetectionScenarios.GreedyCxx` shows it for the test's line.
`DetectionScenarios` derives every detection that the repository's tests expect from
these general lemmas.

`CmakeVariableTypes` models the enum of cmake cache-variable types. Its `getCmakeArg`
maps each type to the cmake keyword, which is the type's own constant name.

## Model

| member | source | states |
|---|---|---|
| Text.TrimLeft | de.marw.cmake.cdt.tests/src/main/java/de/marw/cmake/cdt/internal/lsp/ParserDetectionTest.java:206-210 | the result is a suffix of the input; it is empty or starts with non-whitespace; everything removed is whitespace |
| Text.FirstWhitespace | de.marw.cmake.cdt.tests/src/main/java/de/marw/cmake/cdt/internal/lsp/ParserDetectionTest.java:236-241 | there is no whitespace before the index, and the index is the end or holds whitespace |
| Text.IndexOf | de.marw.cmake.cdt.tests/src/main/java/de/marw/cmake/cdt/internal/lsp/ParserDetectionTest.java:206-210 | `None` means the character is absent; otherwise the index holds its first occurrence |
| Text.FirstWhitespaceAt | de.marw.cmake.cdt.tests/src/main/java/de/marw/cmake/cdt/internal/lsp/ParserDetectionTest.java:236-241 | any index with no whitespace before it and whitespace (or the end) at it is `FirstWhitespace` |
| Text.IndexOfAt | de.marw.cmake.cdt.tests/src/main/java/de/marw/cmake/cdt/internal/lsp/ParserDetectionTest.java:206-210 | the first occurrence of a character is what `IndexOf` returns |
| Text.LowerChar | de.marw.cmake.cdt.tests/src/main/java/de/marw/cmake/cdt/internal/lsp/ParserDetectionTest.java:168-171 | an upper-case ASCII letter becomes the same letter in lower case; every other character is left unchanged; the result is never an upper-case letter (the Windows-style test lines are all lower case; no test exercises letter case) |
| Text.Lower | de.marw.cmake.cdt.tests/src/main/java/de/marw/cmake/cdt/internal/lsp/ParserDetectionTest.java:168-171 | the result has the input's length and is lower-cased character by character (the Windows-style test lines are all lower case; no test exercises letter case) |
| Text.LowerFixesLowerCase | de.marw.cmake.cdt.tests/src/main/java/de/marw/cmake/cdt/internal/lsp/ParserDetectionTest.java:168-171 | lower-casing leaves a text unchanged if and only if it has no upper-case letters (the Windows-style test lines are all lower case; no test exercises letter case) |
| CommandLines.Tokenize | de.marw.cmake.cdt.tests/src/main/java/de/marw/cmake/cdt/internal/lsp/ParserDetectionTest.java:204-256 | on success the line is not blank; a quoted command does not contain its quote; an unquoted command is non-empty with no whitespace; the arguments do not start with whitespace |
| CommandLines.TokenizeBlank | de.marw.cmake.cdt.tests/src/main/java/de/marw/cmake/cdt/internal/lsp/ParserDetectionTest.java:32-33 | a line is rejected as blank if and only if it is all whitespace (the tests pass only non-blank lines, as at :32; rejecting a blank one is the model's choice) |
| CommandLines.TokenizeSkipsLeadingWhitespace | de.marw.cmake.cdt.tests/src/main/java/de/marw/cmake/cdt/internal/lsp/ParserDetectionTest.java:32-33 | whitespace before the command does not change the result (no test line starts with whitespace; skipping it is the model's choice) |
| CommandLines.TokenizeUnquoted | de.marw.cmake.cdt.tests/src/main/java/de/marw/cmake/cdt/internal/lsp/ParserDetectionTest.java:233-241 | an unquoted command followed by whitespace and anything else yields exactly that command, and the rest trimmed as arguments |
| CommandLines.TokenizeTrimmedQuoted | de.marw.cmake.cdt.tests/src/main/java/de/marw/cmake/cdt/internal/lsp/ParserDetectionTest.java:204-231 | a line that starts with a quote yields the text up to the matching quote |
| CommandLines.TokenizeQuoted | de.marw.cmake.cdt.tests/src/main/java/de/marw/cmake/cdt/internal/lsp/ParserDetectionTest.java:204-231 | a quoted command yields the text between the quotes verbatim (blanks, `;` and `\` included), and the rest trimmed as arguments |
| CommandLines.TokenizeUnterminated | de.marw.cmake.cdt.tests/src/main/java/de/marw/cmake/cdt/internal/lsp/ParserDetectionTest.java:204-210 | a quote that is never closed is the `UnterminatedQuote` error |
| CommandLines.QuotingKeepsCommand | de.marw.cmake.cdt.tests/src/main/java/de/marw/cmake/cdt/internal/lsp/ParserDetectionTest.java:238-245 | a plain command tokenizes the same quoted and unquoted |
| CommandLines.TokenizeRender | de.marw.cmake.cdt.tests/src/main/java/de/marw/cmake/cdt/internal/lsp/ParserDetectionTest.java:204-256 | round trip: writing a command line (quoting the command when needed) and tokenizing it gives it back |
| VersionSuffix.ScanInNumber | de.marw.cmake.cdt.tests/src/main/java/de/marw/cmake/cdt/internal/lsp/ParserDetectionTest.java:80 | from inside a digit group, the scanner accepts exactly the text that completes the pattern |
| VersionSuffix.ScanAfterDot | de.marw.cmake.cdt.tests/src/main/java/de/marw/cmake/cdt/internal/lsp/ParserDetectionTest.java:80 | after a dot, the scanner accepts exactly the text that completes the pattern |
| VersionSuffix.ScanFromStart | de.marw.cmake.cdt.tests/src/main/java/de/marw/cmake/cdt/internal/lsp/ParserDetectionTest.java:80 | from its start state the scanner accepts exactly the strings of the form `-?\d+(\.\d+)*` |
| VersionSuffix.IsDottedVersion | de.marw.cmake.cdt.tests/src/main/java/de/marw/cmake/cdt/internal/lsp/ParserDetectionTest.java:80 | the whole-string match of the version pattern: true exactly for the strings of the form `-?\d+(\.\d+)*` |
| VersionSuffix.DottedFormChars | de.marw.cmake.cdt.tests/src/main/java/de/marw/cmake/cdt/internal/lsp/ParserDetectionTest.java:80 | a dotted version holds only digits, `.` and `-` |
| VersionSuffix.AcceptsVersion | de.marw.cmake.cdt.tests/src/main/java/de/marw/cmake/cdt/internal/lsp/ParserDetectionTest.java:185-188 | the version check accepts exactly the empty suffix, a dotted version under the dotted-digits pattern, and the literal text under a literal pattern |
| VersionSuffix.AcceptedIsVersionChars | de.marw.cmake.cdt.tests/src/main/java/de/marw/cmake/cdt/internal/lsp/ParserDetectionTest.java:185-192 | under the dotted-digits pattern or a literal like `40`, every accepted suffix is made of version characters |
| BasenameMatch.FitsIntro | de.marw.cmake.cdt.tests/src/main/java/de/marw/cmake/cdt/internal/lsp/ParserDetectionTest.java:63-146 | prefix + name + accepted version + extension fits the name |
| BasenameMatch.FitsUpToSound | de.marw.cmake.cdt.tests/src/main/java/de/marw/cmake/cdt/internal/lsp/ParserDetectionTest.java:63-146 | what the positional search accepts splits into an allowed prefix, the name and an accepted version |
| BasenameMatch.FitsUpToComplete | de.marw.cmake.cdt.tests/src/main/java/de/marw/cmake/cdt/internal/lsp/ParserDetectionTest.java:63-146 | every such split is found by the positional search |
| BasenameMatch.SearchSound | de.marw.cmake.cdt.tests/src/main/java/de/marw/cmake/cdt/internal/lsp/ParserDetectionTest.java:63-146 | whatever the search over end positions accepts fits |
| BasenameMatch.SearchComplete | de.marw.cmake.cdt.tests/src/main/java/de/marw/cmake/cdt/internal/lsp/ParserDetectionTest.java:63-146 | everything that fits is accepted by the search |
| BasenameMatch.SearchIffFits | de.marw.cmake.cdt.tests/src/main/java/de/marw/cmake/cdt/internal/lsp/ParserDetectionTest.java:63-146 | the search accepts a basename if and only if it fits (both directions) |
| BasenameMatch.Matches | de.marw.cmake.cdt.tests/src/main/java/de/marw/cmake/cdt/internal/lsp/ParserDetectionTest.java:63-146 | the matcher, anchored at both ends, accepts a basename if and only if prefix + name + accepted version + optional `.exe` make it up |
| BasenameMatch.DropVersionChars | de.marw.cmake.cdt.tests/src/main/java/de/marw/cmake/cdt/internal/lsp/ParserDetectionTest.java:158-192 | the result is a prefix of the input; only version characters were removed; it is empty or ends in a non-version character |
| BasenameMatch.DropVersionCharsAppend | de.marw.cmake.cdt.tests/src/main/java/de/marw/cmake/cdt/internal/lsp/ParserDetectionTest.java:158-192 | a trailing run of version characters is removed exactly |
| BasenameMatch.AfterLastHyphenAppend | de.marw.cmake.cdt.tests/src/main/java/de/marw/cmake/cdt/internal/lsp/ParserDetectionTest.java:63-146 | behind a prefix ending in `-`, the text after the last hyphen is the hyphen-free name |
| BasenameMatch.StripExeOfFit | de.marw.cmake.cdt.tests/src/main/java/de/marw/cmake/cdt/internal/lsp/ParserDetectionTest.java:71-75 | removing `.exe` from a fitting basename leaves prefix + name + version |
| BasenameMatch.FitDeterminesName | de.marw.cmake.cdt.tests/src/main/java/de/marw/cmake/cdt/internal/lsp/ParserDetectionTest.java:40-55 | for a well-shaped name and a digit-like version, the name that fits is the one computed from the basename (so `clang++` is not taken for `clang` at :40-55, nor `c++-4.1` for `cc` at :173-182) |
| BasenameMatch.FitsUnique | de.marw.cmake.cdt.tests/src/main/java/de/marw/cmake/cdt/internal/lsp/ParserDetectionTest.java:40-55 | two well-shaped names that both fit the same basename are equal (so `clang++` is not taken for `clang` at :40-55, nor `c++-4.1` for `cc` at :173-182) |
| BasenameMatch.TripletPrefixConcat | de.marw.cmake.cdt.tests/src/main/java/de/marw/cmake/cdt/internal/lsp/ParserDetectionTest.java:63-146 | a triplet prefix in front of an allowed prefix is again an allowed prefix |
| BasenameMatch.FitsBehindTriplet | de.marw.cmake.cdt.tests/src/main/java/de/marw/cmake/cdt/internal/lsp/ParserDetectionTest.java:63-76 | putting a triplet prefix in front of a fitting basename keeps the fit |
| BasenameMatch.FitsWithExe | de.marw.cmake.cdt.tests/src/main/java/de/marw/cmake/cdt/internal/lsp/ParserDetectionTest.java:71-75 | appending `.exe` to a basename without an extension keeps the fit |
| BasenameMatch.PlainFitEndsInName | de.marw.cmake.cdt.tests/src/main/java/de/marw/cmake/cdt/internal/lsp/ParserDetectionTest.java:158-166 | without a version, a fitting basename ends in the name, or in the name plus `.exe` |
| BasenameMatch.VersionedNeedsPattern | de.marw.cmake.cdt.tests/src/main/java/de/marw/cmake/cdt/internal/lsp/ParserDetectionTest.java:158-166 | without a version pattern, no well-shaped name fits a basename that carries a version |
| Detectors.TableFamilies | de.marw.cmake.cdt.tests/src/main/java/de/marw/cmake/cdt/internal/lsp/ParserDetectionTest.java:37-46 | a detector hands out the C++ parser if and only if its name ends in `++` |
| Detectors.TableNameShapes | de.marw.cmake.cdt.tests/src/main/java/de/marw/cmake/cdt/internal/lsp/ParserDetectionTest.java:31-146 | no table name contains `-`, and none ends in a version character or in `e` |
| Detectors.TableNamesDistinct | de.marw.cmake.cdt.tests/src/main/java/de/marw/cmake/cdt/internal/lsp/ParserDetectionTest.java:31-146 | no two detectors of the ordered table `Detectors.Table` share a name |
| Detectors.LanguageId | de.marw.cmake.cdt.tests/src/main/java/de/marw/cmake/cdt/internal/lsp/ParserDetectionTest.java:36-54 | every detector reports the C id or the C++ id; a table entry reports the C++ id `org.eclipse.cdt.core.g++` exactly when its name ends in `++`, whatever the language key |
| Detectors.FirstMatch | de.marw.cmake.cdt.tests/src/main/java/de/marw/cmake/cdt/internal/lsp/ParserDetectionTest.java:31-146 | the result matches and nothing before it in the order does; `None` means no detector matches |
| Detectors.FindDetector | de.marw.cmake.cdt.tests/src/main/java/de/marw/cmake/cdt/internal/lsp/ParserDetectionTest.java:158-202 | the result is a table entry that matches with or without the version; `None` means no entry matches either way |
| Detectors.FitsWithoutVersion | de.marw.cmake.cdt.tests/src/main/java/de/marw/cmake/cdt/internal/lsp/ParserDetectionTest.java:158-202 | a fit without a version is a fit under any pattern |
| Detectors.FindDetectorSoundComplete | de.marw.cmake.cdt.tests/src/main/java/de/marw/cmake/cdt/internal/lsp/ParserDetectionTest.java:31-202 | the detector found fits; nothing is found if and only if no table name fits |
| Detectors.FindDetectorExact | de.marw.cmake.cdt.tests/src/main/java/de/marw/cmake/cdt/internal/lsp/ParserDetectionTest.java:40-55 | for digit-like patterns, the lookup returns `d` if and only if `d` is in the table and its name fits, so table order never decides (so `clang++` is not taken for `clang` at :40-55, nor `c++-4.1` for `cc` at :173-182) |
| Detectors.DetectsComposedBasename | de.marw.cmake.cdt.tests/src/main/java/de/marw/cmake/cdt/internal/lsp/ParserDetectionTest.java:63-202 | prefix + table name + accepted version + extension is detected as that table entry |
| Detectors.VersionedNotDetectedWithoutPattern | de.marw.cmake.cdt.tests/src/main/java/de/marw/cmake/cdt/internal/lsp/ParserDetectionTest.java:158-166 | without a version pattern, a table name followed by a version is not detected |
| Detectors.PlainMatchWins | de.marw.cmake.cdt.tests/src/main/java/de/marw/cmake/cdt/internal/lsp/ParserDetectionTest.java:184-192 | a match found without a version stays the match whatever pattern is given |
| ParserDetection.Basename | de.marw.cmake.cdt.tests/src/main/java/de/marw/cmake/cdt/internal/lsp/ParserDetectionTest.java:31-55 | the basename is a suffix of the path with no separator, and a separator comes right before it |
| ParserDetection.MatchKey | de.marw.cmake.cdt.tests/src/main/java/de/marw/cmake/cdt/internal/lsp/ParserDetectionTest.java:168-171 | the key holds no separator; off Windows style it is the basename; on Windows style it holds no upper-case letter and equals the basename of the lower-cased command (the Windows-style test lines are all lower case; no test exercises letter case) |
| ParserDetection.EffectiveVersion | de.marw.cmake.cdt.tests/src/main/java/de/marw/cmake/cdt/internal/lsp/ParserDetectionTest.java:184-192 | the kind of pattern is kept; off Windows style the pattern is unchanged; on Windows style a literal becomes its lower-cased text; a pattern of version characters is never changed |
| ParserDetection.DetermineDetector | de.marw.cmake.cdt.tests/src/main/java/de/marw/cmake/cdt/internal/lsp/ParserDetectionTest.java:31-256 | it fails exactly when tokenizing fails; a result carries the tokenized line and a table entry whose name fits the match key; no result means no table name fits |
| ParserDetection.BasenameSnoc | de.marw.cmake.cdt.tests/src/main/java/de/marw/cmake/cdt/internal/lsp/ParserDetectionTest.java:31-55 | appending a non-separator character appends it to the basename |
| ParserDetection.BasenameAfterDirectory | de.marw.cmake.cdt.tests/src/main/java/de/marw/cmake/cdt/internal/lsp/ParserDetectionTest.java:204-231 | the basename of directory + separator-free name is that name |
| ParserDetection.DirectoryDoesNotMatter | de.marw.cmake.cdt.tests/src/main/java/de/marw/cmake/cdt/internal/lsp/ParserDetectionTest.java:40-55 | the directory in front of a command does not change the detector found |
| ParserDetection.BasenameOfLower | de.marw.cmake.cdt.tests/src/main/java/de/marw/cmake/cdt/internal/lsp/ParserDetectionTest.java:168-171 | on Windows-style input, lower-casing and taking the basename commute (the Windows-style test lines are all lower case; no test exercises letter case) |
| ParserDetection.LowerAppend | de.marw.cmake.cdt.tests/src/main/java/de/marw/cmake/cdt/internal/lsp/ParserDetectionTest.java:168-171 | lower-casing distributes over concatenation (the Windows-style test lines are all lower case; no test exercises letter case) |
| ParserDetection.LowerIdempotent | de.marw.cmake.cdt.tests/src/main/java/de/marw/cmake/cdt/internal/lsp/ParserDetectionTest.java:168-171 | lower-casing twice is lower-casing once (the Windows-style test lines are all lower case; no test exercises letter case) |
| ParserDetection.WindowsIgnoresCase | de.marw.cmake.cdt.tests/src/main/java/de/marw/cmake/cdt/internal/lsp/ParserDetectionTest.java:168-171 | on Windows-style input, the letter case of the command does not change the detector found (the Windows-style test lines are all lower case; no test exercises letter case) |
| ParserDetection.SameUpToCaseSameDetection | de.marw.cmake.cdt.tests/src/main/java/de/marw/cmake/cdt/internal/lsp/ParserDetectionTest.java:168-171 | on Windows-style input, two lines whose commands agree up to ASCII letter case both find a detector or both find none, and find the same one (the Windows-style test lines are all lower case; no test exercises letter case) |
| ParserDetection.DetectedUpToCase | de.marw.cmake.cdt.tests/src/main/java/de/marw/cmake/cdt/internal/lsp/ParserDetectionTest.java:168-171 | a detection carries over to a line whose command differs only in letter case, with that line's command kept as written (the Windows-style test lines are all lower case; no test exercises letter case) |
| ParserDetection.ComposedFromParts | de.marw.cmake.cdt.tests/src/main/java/de/marw/cmake/cdt/internal/lsp/ParserDetectionTest.java:63-146 | a command built from its parts is a composed command when the directory ends in a separator and the prefix is plain |
| ParserDetection.ComposedPlainTail | de.marw.cmake.cdt.tests/src/main/java/de/marw/cmake/cdt/internal/lsp/ParserDetectionTest.java:204-256 | whitespace and quotes in a composed command can only come from its directory and prefix |
| ParserDetection.ComposedCommandDetected | de.marw.cmake.cdt.tests/src/main/java/de/marw/cmake/cdt/internal/lsp/ParserDetectionTest.java:31-202 | a composed command is detected as its table entry, in any directory and on either platform style |
| ParserDetection.UnquotedCommandDetected | de.marw.cmake.cdt.tests/src/main/java/de/marw/cmake/cdt/internal/lsp/ParserDetectionTest.java:233-241 | an unquoted composed command plus arguments gives that detector and exactly that command |
| ParserDetection.QuotedCommandDetected | de.marw.cmake.cdt.tests/src/main/java/de/marw/cmake/cdt/internal/lsp/ParserDetectionTest.java:204-231 | a quoted composed command plus arguments gives that detector and the command without the quotes |
| ParserDetection.VersionedCommandNotDetected | de.marw.cmake.cdt.tests/src/main/java/de/marw/cmake/cdt/internal/lsp/ParserDetectionTest.java:158-166 | without a version pattern, a command whose basename carries a version matches no detector |
| ParserDetection.UnquotedVersionedNotDetected | de.marw.cmake.cdt.tests/src/main/java/de/marw/cmake/cdt/internal/lsp/ParserDetectionTest.java:158-166 | such a command line gives no result, and no error |
| ParserDetection.UnquotedPartsDetected | de.marw.cmake.cdt.tests/src/main/java/de/marw/cmake/cdt/internal/lsp/ParserDetectionTest.java:63-202 | directory + prefix + table name + version + extension, unquoted and followed by arguments, is detected as that entry |
| ParserDetection.UnquotedPartsDetectedAnyCase | de.marw.cmake.cdt.tests/src/main/java/de/marw/cmake/cdt/internal/lsp/ParserDetectionTest.java:168-171 | on Windows-style input, an unquoted command whose lower-cased form is directory + prefix + table name + version + extension is detected as that entry in any letter case (the Windows-style test lines are all lower case; no test exercises letter case) |
| ParserDetection.QuotedPartsDetected | de.marw.cmake.cdt.tests/src/main/java/de/marw/cmake/cdt/internal/lsp/ParserDetectionTest.java:204-231 | the same, between double quotes |
| DetectionScenarios.ClangIsC | de.marw.cmake.cdt.tests/src/main/java/de/marw/cmake/cdt/internal/lsp/ParserDetectionTest.java:31-38 | `/usr/bin/clang -C blah.c` (Windows-style) gives the `clang` detector (C parser) |
| DetectionScenarios.ClangxxIsCxx | de.marw.cmake.cdt.tests/src/main/java/de/marw/cmake/cdt/internal/lsp/ParserDetectionTest.java:40-47 | `/usr/bin/clang++` gives the `clang++` detector (C++ parser) |
| DetectionScenarios.ClangxxBasenameIsCxx | de.marw.cmake.cdt.tests/src/main/java/de/marw/cmake/cdt/internal/lsp/ParserDetectionTest.java:49-55 | a bare `clang++` gives the `clang++` detector |
| DetectionScenarios.CrossGccIsC | de.marw.cmake.cdt.tests/src/main/java/de/marw/cmake/cdt/internal/lsp/ParserDetectionTest.java:63-69 | `arm-none-eabi-gcc` gives the `gcc` detector |
| DetectionScenarios.CrossGccExeIsC | de.marw.cmake.cdt.tests/src/main/java/de/marw/cmake/cdt/internal/lsp/ParserDetectionTest.java:71-75 | `arm-none-eabi-gcc.exe` gives the `gcc` detector |
| DetectionScenarios.CrossGccWithVersionIsC | de.marw.cmake.cdt.tests/src/main/java/de/marw/cmake/cdt/internal/lsp/ParserDetectionTest.java:78-86 | `arm-none-eabi-gcc-9.2.0` gives `gcc` under the dotted-digits pattern |
| DetectionScenarios.CrossGccWithVersionExeIsC | de.marw.cmake.cdt.tests/src/main/java/de/marw/cmake/cdt/internal/lsp/ParserDetectionTest.java:88-92 | `arm-none-eabi-gcc-9.2.0.exe` gives `gcc` |
| DetectionScenarios.CrossGxxIsCxx | de.marw.cmake.cdt.tests/src/main/java/de/marw/cmake/cdt/internal/lsp/ParserDetectionTest.java:98-104 | `arm-none-eabi-g++` gives `g++` |
| DetectionScenarios.CrossGxxExeIsCxx | de.marw.cmake.cdt.tests/src/main/java/de/marw/cmake/cdt/internal/lsp/ParserDetectionTest.java:106-110 | `arm-none-eabi-g++.exe` gives `g++` |
| DetectionScenarios.CrossGxxWithVersionIsCxx | de.marw.cmake.cdt.tests/src/main/java/de/marw/cmake/cdt/internal/lsp/ParserDetectionTest.java:116-124 | `arm-none-eabi-g++-9.2.0` gives `g++` |
| DetectionScenarios.CrossGxxWithVersionExeIsCxx | de.marw.cmake.cdt.tests/src/main/java/de/marw/cmake/cdt/internal/lsp/ParserDetectionTest.java:126-130 | `arm-none-eabi-g++-9.2.0.exe` gives `g++` |
| DetectionScenarios.CrossGxxBasenameIsCxx | de.marw.cmake.cdt.tests/src/main/java/de/marw/cmake/cdt/internal/lsp/ParserDetectionTest.java:136-141 | the bare basename `arm-none-eabi-g++` gives `g++` |
| DetectionScenarios.CrossGxxBasenameExeIsCxx | de.marw.cmake.cdt.tests/src/main/java/de/marw/cmake/cdt/internal/lsp/ParserDetectionTest.java:143-146 | `arm-none-eabi-g++.exe` without Windows style gives `g++` |
| DetectionScenarios.CcWithVersionIsC | de.marw.cmake.cdt.tests/src/main/java/de/marw/cmake/cdt/internal/lsp/ParserDetectionTest.java:158-166 | `/usr/bin/cc-4.1` gives `cc` |
| DetectionScenarios.CcWithVersionExeIsC | de.marw.cmake.cdt.tests/src/main/java/de/marw/cmake/cdt/internal/lsp/ParserDetectionTest.java:168-171 | `/usr/bin/cc-4.1.exe` (Windows-style) gives `cc` |
| DetectionScenarios.CxxWithVersionIsCxx | de.marw.cmake.cdt.tests/src/main/java/de/marw/cmake/cdt/internal/lsp/ParserDetectionTest.java:173-177 | `/usr/bin/c++-4.1` gives `c++` |
| DetectionScenarios.CxxWithVersionExeIsCxx | de.marw.cmake.cdt.tests/src/main/java/de/marw/cmake/cdt/internal/lsp/ParserDetectionTest.java:179-182 | `/usr/bin/c++-4.1.exe` gives `c++` |
| DetectionScenarios.Clangxx40IsCxx | de.marw.cmake.cdt.tests/src/main/java/de/marw/cmake/cdt/internal/lsp/ParserDetectionTest.java:184-187 | `clang++40` gives `clang++` under the dotted-digits pattern |
| DetectionScenarios.Clangxx40LiteralIsCxx | de.marw.cmake.cdt.tests/src/main/java/de/marw/cmake/cdt/internal/lsp/ParserDetectionTest.java:188-192 | `clang++40` gives `clang++` under the literal pattern `40` |
| DetectionScenarios.GxxWithVersionLongArgsIsCxx | de.marw.cmake.cdt.tests/src/main/java/de/marw/cmake/cdt/internal/lsp/ParserDetectionTest.java:194-201 | `g++-7.1` with a long option list gives `g++` and the command alone |
| DetectionScenarios.QuotedWithSpacesIsCc | de.marw.cmake.cdt.tests/src/main/java/de/marw/cmake/cdt/internal/lsp/ParserDetectionTest.java:204-212 | a quoted `/us r/bi n/cc` gives `cc` and the command without quotes |
| DetectionScenarios.QuotedDriveLikeIsCc | de.marw.cmake.cdt.tests/src/main/java/de/marw/cmake/cdt/internal/lsp/ParserDetectionTest.java:214-218 | a quoted `C;/us r/bi n/cc` gives `cc` and the command verbatim |
| DetectionScenarios.QuotedWindowsIsCc | de.marw.cmake.cdt.tests/src/main/java/de/marw/cmake/cdt/internal/lsp/ParserDetectionTest.java:220-224 | a quoted `C;\us r\bi n\cc` (Windows-style) gives `cc` and the command verbatim |
| DetectionScenarios.QuotedWindowsExeIsCc | de.marw.cmake.cdt.tests/src/main/java/de/marw/cmake/cdt/internal/lsp/ParserDetectionTest.java:226-230 | the same with `cc.exe` |
| DetectionScenarios.GreedyCxx | de.marw.cmake.cdt.tests/src/main/java/de/marw/cmake/cdt/internal/lsp/ParserDetectionTest.java:236-241 | `/usr/bin/c++` followed by an argument that contains `c++` gives the command `/usr/bin/c++` alone |
| DetectionScenarios.GreedyCxxQuoted | de.marw.cmake.cdt.tests/src/main/java/de/marw/cmake/cdt/internal/lsp/ParserDetectionTest.java:243-245 | the same, quoted |
| DetectionScenarios.GreedyCxxExe | de.marw.cmake.cdt.tests/src/main/java/de/marw/cmake/cdt/internal/lsp/ParserDetectionTest.java:247-251 | the same with `c++.exe`, Windows-style |
| DetectionScenarios.GreedyCxxExeQuoted | de.marw.cmake.cdt.tests/src/main/java/de/marw/cmake/cdt/internal/lsp/ParserDetectionTest.java:253-255 | the same, quoted |
| DetectionScenarios.CcWithVersionNeedsPattern | de.marw.cmake.cdt.tests/src/main/java/de/marw/cmake/cdt/internal/lsp/ParserDetectionTest.java:158-163 | without a version pattern, `/usr/bin/cc-4.1` gives no result (a consequence of the anchored match, not a test assertion: the test at :158-163 passes the pattern) |
| DetectionScenarios.UpperGccIsC | de.marw.cmake.cdt.tests/src/main/java/de/marw/cmake/cdt/internal/lsp/ParserDetectionTest.java:168-171 | `/usr/bin/GCC -C blah.c` (Windows-style) gives the `gcc` detector and keeps the command as `/usr/bin/GCC` (the Windows-style test lines are all lower case; no test exercises letter case) |
| CmakeVariableTypes.CmakeArg | de.marw.cdt.cmake.core/src/main/java/de/marw/cdt/cmake/core/internal/CmakeVariableType.java:55-58 | the argument is a non-empty word of upper-case letters, so it is a valid command-line token |
| CmakeVariableTypes.ValueOf | de.marw.cdt.cmake.core/src/main/java/de/marw/cdt/cmake/core/internal/CmakeVariableType.java:18-58 | a name is found exactly when it is the argument of some type, and then the type found is the one whose argument it is |
| CmakeVariableTypes.AllTypesExact | de.marw.cdt.cmake.core/src/main/java/de/marw/cdt/cmake/core/internal/CmakeVariableType.java:18-53 | there are exactly five types, all different, and every type is among them |
| CmakeVariableTypes.CmakeArgIsConstantName | de.marw.cdt.cmake.core/src/main/java/de/marw/cdt/cmake/core/internal/CmakeVariableType.java:20-58 | the argument of each type is its own constant name: looking it up by name gives the type back |
| CmakeVariableTypes.CmakeArgInjective | de.marw.cdt.cmake.core/src/main/java/de/marw/cdt/cmake/core/internal/CmakeVariableType.java:20-53 | two types have the same argument if and only if they are the same type |
| CmakeVariableTypes.CmakeArgKeywords | de.marw.cdt.cmake.core/src/main/java/de/marw/cdt/cmake/core/internal/CmakeVariableType.java:20-52 | the arguments are `BOOL`, `FILEPATH`, `PATH`, `STRING` and `INTERNAL` |

## Left out

- `ParserDetection.java`, the implementation behind the tests, is not part of this model.
  Its behaviour is reconstructed from the tests in `ParserDetectionTest.java`. Where the
  tests leave a choice, the model picks one, and the choices are listed here: a blank
  line and an unclosed quote are errors (`Malformed`); a command may be quoted with `'`
  as well as `"`; the lookup runs in two passes, every detector without a version first
  and then every detector with the caller's pattern.
- Java regular expressions are not modelled in general. The model has no version pattern
  (`null`), the dotted-digits pattern of line 80 and a literal such as `"40"` (line 188).
  The strong lemmas (`Detectors.FindDetectorExact` and those built on it) need a pattern
  whose accepted texts hold only digits, `.` and `-`.
- MS-DOS short names such as `AVR-G_~1.EXE` are left out. That test (lines 148-156) is
  ignored in the repository because it needs an NTFS file system.
- The argument parsers are left out. `Detectors.LanguageId` returns the language id of the
  detector's parser family for every language key, which covers the `"c"` and `"cpp"`
  keys that the tests ask for. The detector and detection-method wrappers
  (`getDetectorWithMethod`, `getToolDetectionParticipant`) are collapsed into one
  `Detector` value.
- Escape characters are not modelled. A backslash is an ordinary character, which is how
  Windows paths need it. Whitespace is the ASCII set of Java's `\s`, and lower-casing is
  ASCII only.
- Windows-style detection is modelled as one rule: split at `/` and `\`, then compare in
  lower case. The implementation may reach the same result through several passes; those
  passes are not modelled one by one.
- The target-triplet prefix is modelled as one or more segments, each a run of characters
  followed by a single `-` (`arm-none-eabi-`). The model does not restrict which
  characters a segment may hold.
- `.exe` is accepted on both platform styles, as the test at line 143 requires for the
  non-Windows style.
- The order of the detector table (C++ compilers first) is a choice. `FindDetectorExact`
  shows that no result depends on it for no pattern, the dotted-digits pattern and literals
  made of digits, `.` and `-`. For a literal with other characters this is not proved.
- DetectionScenarios.ClangIsC: like the other scenario lemmas, it states the detector
  found and the tokenized command line. The language id follows from the detector's
  family through `Detectors.LanguageId` and is not restated in each lemma.
