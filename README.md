# ResLoaderGen in Dafny

ResLoaderGen is a command-line generator for Android projects. It reads one or more
`strings.xml` resource files and writes a Java class with two parts:

- one `public final String` field per entry, named by the upper-cased key;
- a constructor that sets each field with `context.getString(R.string.<key>)`.

What counts as an entry is exactly what the SAX handler records:

- Only a `<string>` element that is a child of the document's root element
  `<resources>` is read. The element stack is compared from the bottom, so a `<string>`
  under a `<resources>` nested inside another element is ignored.
- An entry is recorded only when the parser reports character data for it. A
  `<string>` with no text yields no entry and no field.
- When the text arrives in several chunks, the last chunk overwrites the earlier ones.
- Text after a child element inside `<string>` is filed under the `null` key, and so
  is the text of a `<string>` that has no `name` attribute. A `null` key makes `exec`
  crash at `toUpperCase`.

The generated class is skipped ("UP-TO-DATE") when it exists and is at least as new as
the newest input file.

This project models the single source file `ResLoaderGen.java`, in six modules:

- `Wrappers` (`wrappers.dfy`): `Option` and `Result`.
- `Text` (`text.dfy`): the `java.lang.String` operations the generator uses. These are
  ASCII `toUpperCase`, `replaceAll` with a literal pattern, `lastIndexOf` and
  `split("\\.")`, with Java's removal of trailing empty strings.
- `Arguments` (`arguments.dfy`): the `ARG` enum and the constructor's argument loop and
  checks. The constructor is a method over the token sequence, proved against the fold
  `ScanAll`. A second, positional account of the tokens (`LastValue`, `Positionals`,
  `Dangling`) says what the fold computes.
- `Extractor` (`extractor.dfy`): `loadStringResources` and its anonymous SAX
  `DefaultHandler`. The handler is a class whose fields are the element stack `path`, the
  current `id` and the map being filled. The parse is given as the sequence of callbacks
  the parser makes, plus how it ended: normally, with a `SAXException`, or with an
  `IOException`.
- `Naming` (`naming.dfy`): `getOutPackageName`, `getOutClassName`, `getClassDir` and the
  output file path. Paths are sequences of components.
- `Generator` (`generator.dfy`): the class `ResLoaderGen` with `mLastModified`; `exec`,
  with the merge over the input files and the rendering of the fields; and `output`,
  with the staleness gate and the template expansion.

Both `HashMap` iteration orders are parameters of the model:

- the order of the merged entries, which sets the order of the fields;
- the order of the five template parameters, which sets the order of the replacements.

Each order must list its map's keys exactly once. The file system is also a parameter:
a map from input path to modification time and parse, and a map from output path to
modification time.

A crash of the Java program is a `Result` error:

- `ArgError`: the `IllegalArgumentException` cases of the constructor.
- `Crash.NullKey`: a `null` key reaches `toUpperCase`.
- `Crash.NoPackage`: the class name has no dot, so `getOutPackageName` calls
  `substring(0, -1)`.

All source paths below are relative to the repository root.

## Model

| member | source | states |
|---|---|---|
| Text.UpperChar | src/jp/togashi/resloadergen/ResLoaderGen.java:145-146 | upper-casing a character leaves no lower-case ASCII letter and keeps every other character |
| Text.ToUpper | src/jp/togashi/resloadergen/ResLoaderGen.java:145-146 | `toUpperCase` keeps the length, turns each lower-case letter into its capital, keeps every other character and leaves no lower-case letter |
| Text.ToUpperIdempotent | src/jp/togashi/resloadergen/ResLoaderGen.java:145-146 | an upper-cased key has no lower-case letter, and upper-casing it again changes nothing |
| Text.ReplaceAbsent | src/jp/togashi/resloadergen/ResLoaderGen.java:190 | `replaceAll` of a token that occurs nowhere returns the text unchanged |
| Text.ReplaceFirst | src/jp/togashi/resloadergen/ResLoaderGen.java:145-146 | when the first occurrence of the token follows `a`, the result is `a`, the replacement, then the replaced rest |
| Text.LastIndexOf | src/jp/togashi/resloadergen/ResLoaderGen.java:119 | `lastIndexOf` is the greatest index holding the character, and -1 exactly when it is absent |
| Text.ReplaceAll | src/jp/togashi/resloadergen/ResLoaderGen.java:145-146 | definition of `replaceAll` with a literal pattern: the leftmost match is replaced and the scan resumes after it; its properties are proved in `ReplaceFirst` and `ReplaceAbsent` |
| Text.Pieces | src/jp/togashi/resloadergen/ResLoaderGen.java:162 | the pieces between dots number at least one and contain no dot |
| Text.JoinPieces | src/jp/togashi/resloadergen/ResLoaderGen.java:162 | joining the pieces with dots gives back the string |
| Text.PiecesNoDot | src/jp/togashi/resloadergen/ResLoaderGen.java:162 | a dot-free string is one piece |
| Text.PiecesAfterDot | src/jp/togashi/resloadergen/ResLoaderGen.java:162 | a dot-free prefix before a dot is the first piece, and the rest splits on its own |
| Text.SplitJoin | src/jp/togashi/resloadergen/ResLoaderGen.java:162 | dot-free pieces joined with dots split back into the same pieces |
| Text.DropTrailingEmpty | src/jp/togashi/resloadergen/ResLoaderGen.java:162 | only trailing empty strings are removed, and the result does not end in one |
| Text.SplitDots | src/jp/togashi/resloadergen/ResLoaderGen.java:162 | `split("\\.")` of a dot-free string is that string alone; no element contains a dot |
| Arguments.Switches | src/jp/togashi/resloadergen/ResLoaderGen.java:49-51 | definition of each option's two switches, short and long; `FromString` proves a token names an option exactly when it is one of them |
| Arguments.FindFlag | src/jp/togashi/resloadergen/ResLoaderGen.java:59-66 | definition of the search over `ARG.values()` and their switches; `FromString` proves what it finds |
| Arguments.FromString | src/jp/togashi/resloadergen/ResLoaderGen.java:48-67 | a token names option `f` exactly when it is one of `f`'s two switches |
| Arguments.Step | src/jp/togashi/resloadergen/ResLoaderGen.java:74-93 | definition of one turn of the constructor loop; its properties are proved in `ValueAfterSwitch`, `OtherTokenIsFile`, `StepKeeps` and `ValueAfterSwitchState` |
| Arguments.ScanAll | src/jp/togashi/resloadergen/ResLoaderGen.java:72-95 | definition of the loop as a fold of `Step`; `ScanAllMeaning` proves what it computes |
| Arguments.Check | src/jp/togashi/resloadergen/ResLoaderGen.java:97-112 | definition of the five checks after the loop, in source order; `ParseOutcome` proves their outcome |
| Arguments.Parse | src/jp/togashi/resloadergen/ResLoaderGen.java:70-112 | definition of the constructor's parse: `Check` of `ScanAll`; `ParseArgs` computes it and `ParseOutcome` characterises it |
| Arguments.ParseArgs | src/jp/togashi/resloadergen/ResLoaderGen.java:70-112 | the constructor loop and the checks compute `Parse`, the fold of the token step followed by the checks |
| Arguments.IsValueAtPrefix | src/jp/togashi/resloadergen/ResLoaderGen.java:73-94 | whether a token is a switch's value depends only on the tokens before it |
| Arguments.ValueIffPending | src/jp/togashi/resloadergen/ResLoaderGen.java:74-93 | the last token is a value exactly when the tokens before it leave a switch pending, and it is that switch's value |
| Arguments.ScanAllMeaning | src/jp/togashi/resloadergen/ResLoaderGen.java:72-95 | after the loop, the pending switch is the one left dangling, the input files are the positional tokens in order, and each option holds the value after its last switch |
| Arguments.ValueAfterSwitch | src/jp/togashi/resloadergen/ResLoaderGen.java:79-93 | the token after a switch becomes that option's value, is not an input file and changes no other option |
| Arguments.OtherTokenIsFile | src/jp/togashi/resloadergen/ResLoaderGen.java:74-78 | a token that is not a switch, seen with no switch pending, is appended to the input files |
| Arguments.StepKeeps | src/jp/togashi/resloadergen/ResLoaderGen.java:73-94 | a token that is not one of `f`'s switches, seen with `f` not pending, leaves option `f` as it was |
| Arguments.KeepsField | src/jp/togashi/resloadergen/ResLoaderGen.java:73-94 | tokens that are not switches of `f`, read while `f` is not pending, leave option `f` unchanged and not pending |
| Arguments.LaterValueWins | src/jp/togashi/resloadergen/ResLoaderGen.java:80-92 | an option given several times keeps the value of its last switch |
| Arguments.ValueAfterSwitchState | src/jp/togashi/resloadergen/ResLoaderGen.java:79-93 | a switch and its value leave nothing pending and set the option to the value |
| Arguments.ParseOutcome | src/jp/togashi/resloadergen/ResLoaderGen.java:97-112 | the constructor succeeds exactly when nothing dangles, all three options are given and there is a file; it then holds the last values and the files; each failure is the first check in source order |
| Arguments.ScanStep | src/jp/togashi/resloadergen/ResLoaderGen.java:73-95 | one more token is one more step of the loop |
| Arguments.ParseExample | src/jp/togashi/resloadergen/ResLoaderGen.java:70-112 | a typical command line gives the expected configuration |
| Arguments.DanglingExample | src/jp/togashi/resloadergen/ResLoaderGen.java:97-99 | a switch at the end of the arguments is rejected |
| Extractor.EqualFrom | src/jp/togashi/resloadergen/ResLoaderGen.java:276-280 | the comparison loop succeeds exactly when the suffixes from `i` agree |
| Extractor.PathMatches | src/jp/togashi/resloadergen/ResLoaderGen.java:270-283 | `pathMatches` holds exactly when the element stack equals the given path |
| Extractor.Step | src/jp/togashi/resloadergen/ResLoaderGen.java:286-306 | definition of one handler callback; its properties are proved in `TextOnlyAtStringPath`, `EndClearsId`, `IdFromStringElement`, `LastChunkWins` and `StepOverrides` |
| Extractor.NestedPrefix | src/jp/togashi/resloadergen/ResLoaderGen.java:295-298 | a prefix of a balanced callback sequence never pops an empty stack |
| Extractor.Run | src/jp/togashi/resloadergen/ResLoaderGen.java:286-306 | after the callbacks, the stack depth is the initial depth plus the opened elements minus the closed ones |
| Extractor.RunAppend | src/jp/togashi/resloadergen/ResLoaderGen.java:286-306 | running one more callback is one more handler step |
| Extractor.ResourceHandler.constructor | src/jp/togashi/resloadergen/ResLoaderGen.java:257-268 | a new handler has an empty stack, no id and the copied accumulator |
| Extractor.ResourceHandler.StartElement | src/jp/togashi/resloadergen/ResLoaderGen.java:286-292 | pushes the element; takes the `name` attribute as id exactly when the stack is `resources/string` |
| Extractor.ResourceHandler.EndElement | src/jp/togashi/resloadergen/ResLoaderGen.java:295-298 | clears the id and pops the element |
| Extractor.ResourceHandler.Characters | src/jp/togashi/resloadergen/ResLoaderGen.java:301-306 | at `resources/string`, records the text under the current id, overwriting; elsewhere changes nothing |
| Extractor.LoadStringResources | src/jp/togashi/resloadergen/ResLoaderGen.java:255-318 | feeding every callback to the handler gives `Load`: the filled map, or an error when the parse threw a `SAXException` |
| Extractor.Load | src/jp/togashi/resloadergen/ResLoaderGen.java:255-318 | definition of a whole `loadStringResources` call as a value; `LoadStringResources` computes it and `LoadOverrides` proves that it overrides the incoming map |
| Extractor.RunOverrides | src/jp/togashi/resloadergen/ResLoaderGen.java:257-260 | starting the handler from `acc + m` ends with `acc` overridden by what the run from `m` ends with |
| Extractor.StepOverrides | src/jp/togashi/resloadergen/ResLoaderGen.java:286-306 | one handler step commutes with overriding a fixed map |
| Extractor.LoadOverrides | src/jp/togashi/resloadergen/ResLoaderGen.java:255-318 | a file that parses yields the accumulator overridden by the file's own entries; no key is lost |
| Extractor.RecordsAtPrefix | src/jp/togashi/resloadergen/ResLoaderGen.java:301-306 | whether callback `j` records key `k` depends only on the callbacks up to `j` |
| Extractor.LastChunkWins | src/jp/togashi/resloadergen/ResLoaderGen.java:304 | a key takes the text of the last callback that records it |
| Extractor.UnrecordedKeyKept | src/jp/togashi/resloadergen/ResLoaderGen.java:257-260 | a key no callback records keeps its accumulated value |
| Extractor.IdFromStringElement | src/jp/togashi/resloadergen/ResLoaderGen.java:289-291 | a non-null id comes from a `string` element opened directly below `resources` |
| Extractor.EndClearsId | src/jp/togashi/resloadergen/ResLoaderGen.java:295-298 | text after a closed child of a `string` element is recorded under the `null` key |
| Extractor.TextOnlyAtStringPath | src/jp/togashi/resloadergen/ResLoaderGen.java:301-306 | character data changes the map only at depth two under `resources/string` |
| Extractor.Extend | src/jp/togashi/resloadergen/ResLoaderGen.java:286-306 | a callback that does not pop an empty stack extends the run by one step |
| Extractor.RunStep | src/jp/togashi/resloadergen/ResLoaderGen.java:286-306 | one more callback moves the handler from the state before it to the state after it |
| Extractor.RunEmpty | src/jp/togashi/resloadergen/ResLoaderGen.java:265-267 | with no callbacks the handler is unchanged |
| Extractor.SingleStringExample | src/jp/togashi/resloadergen/ResLoaderGen.java:286-306 | a one-entry resource file yields that entry |
| Extractor.NestedStringIgnoredExample | src/jp/togashi/resloadergen/ResLoaderGen.java:289 | a `string` element that is not directly below `resources` is ignored |
| Extractor.ChunksAndChildExample | src/jp/togashi/resloadergen/ResLoaderGen.java:295-306 | of two text chunks the last wins, and text after a child element goes to the `null` key |
| Naming.PackageName | src/jp/togashi/resloadergen/ResLoaderGen.java:118-121 | the package is the text before the last dot; there is none exactly when the name has no dot |
| Naming.ClassName | src/jp/togashi/resloadergen/ResLoaderGen.java:123-126 | the class name is a dot-free suffix of the name, and the whole name when it has no dot |
| Naming.SplitAtLastDot | src/jp/togashi/resloadergen/ResLoaderGen.java:118-126 | package, dot and class name put back together give the configured name |
| Naming.NoDotNoPackage | src/jp/togashi/resloadergen/ResLoaderGen.java:118-126 | without a dot there is no package and the class name is the whole name |
| Naming.SplitExample | src/jp/togashi/resloadergen/ResLoaderGen.java:118-126 | `com.example.Strings` splits into `com.example` and `Strings` |
| Naming.NonEmpty | src/jp/togashi/resloadergen/ResLoaderGen.java:164-166 | only non-empty components are added to a path |
| Naming.NonEmptyOfNonEmpty | src/jp/togashi/resloadergen/ResLoaderGen.java:164-166 | components that are all non-empty are all added |
| Naming.Child | src/jp/togashi/resloadergen/ResLoaderGen.java:165 | definition of `new File(parent, child)`: one more component, or the parent itself for an empty child; `ClassDir` and `OutputPathSegments` are proved with it |
| Naming.ClassDir | src/jp/togashi/resloadergen/ResLoaderGen.java:160-169 | `getClassDir` appends the non-empty package segments to the source directory |
| Naming.OutputPath | src/jp/togashi/resloadergen/ResLoaderGen.java:173-174 | the output path is defined exactly when the name has a dot; it lies below the source directory and is named after the class with `.java` |
| Naming.OutputPathSegments | src/jp/togashi/resloadergen/ResLoaderGen.java:160-174 | with no empty package segment, the output lies one directory per segment down, and the segments rejoined are the package |
| Naming.PackageExample | src/jp/togashi/resloadergen/ResLoaderGen.java:162 | `com.x.gen` has the pieces `com`, `x`, `gen` |
| Naming.NameExample | src/jp/togashi/resloadergen/ResLoaderGen.java:118-126 | `com.x.gen.R2` splits into `com.x.gen` and `R2` |
| Naming.PackageDirsExample | src/jp/togashi/resloadergen/ResLoaderGen.java:160-169 | `com.x.gen` gives the directories `com`, `x`, `gen` |
| Naming.ClassFileExample | src/jp/togashi/resloadergen/ResLoaderGen.java:174 | the file of class `R2` is `R2.java` in the package directory |
| Naming.OutputPathExample | src/jp/togashi/resloadergen/ResLoaderGen.java:173-174 | `/out` and `com.x.gen.R2` give `/out/com/x/gen/R2.java` |
| Generator.Parsed | src/jp/togashi/resloadergen/ResLoaderGen.java:313-314 | definition: a missing file parses as an `IOException` with no callbacks; the result is well formed |
| Generator.ModifiedTime | src/jp/togashi/resloadergen/ResLoaderGen.java:133 | definition of `file.lastModified()`: the disk's time, or 0 for a missing file; `NewestIsMax` and `NewestOrderInsensitive` are proved with it |
| Generator.Newest | src/jp/togashi/resloadergen/ResLoaderGen.java:131-135 | definition of the `mLastModified` fold over the input files; `NewestIsMax` and `NewestOrderInsensitive` prove what it computes |
| Generator.Merged | src/jp/togashi/resloadergen/ResLoaderGen.java:131-139 | definition of the `entries` fold over the input files; `MergedIsOverlay`, `SkippedFile` and `MergedKeysGrow` prove what it computes |
| Generator.NewestIsMax | src/jp/togashi/resloadergen/ResLoaderGen.java:131-134 | `mLastModified` ends as the maximum of its start value and the files' times, and is one of them |
| Generator.NewestOrderInsensitive | src/jp/togashi/resloadergen/ResLoaderGen.java:131-134 | the newest time does not depend on the order of the input files |
| Generator.MergedIsOverlay | src/jp/togashi/resloadergen/ResLoaderGen.java:130-139 | the merge equals laying each file's entries over the earlier ones, skipping files that threw a `SAXException` |
| Generator.SkippedFile | src/jp/togashi/resloadergen/ResLoaderGen.java:135-138 | a file that threw a `SAXException`, or that does not exist, leaves the merged map as it was |
| Generator.MergedKeysGrow | src/jp/togashi/resloadergen/ResLoaderGen.java:130-139 | no key is dropped while merging |
| Generator.NoMatchAt | src/jp/togashi/resloadergen/ResLoaderGen.java:145 | one differing character rules out a match there |
| Generator.NoMatchInside | src/jp/togashi/resloadergen/ResLoaderGen.java:145 | no match starts inside a text lacking the token's first character |
| Generator.NoMatchAfterLess | src/jp/togashi/resloadergen/ResLoaderGen.java:145-146 | a `<` not followed by a token's second character starts no match of it |
| Generator.Declaration | src/jp/togashi/resloadergen/ResLoaderGen.java:35 | closed form of `FIELD_TEMPLATE` filled with a key; `DeclarationFromTemplate` proves it equal to the source's `replaceAll` |
| Generator.Assignment | src/jp/togashi/resloadergen/ResLoaderGen.java:36 | closed form of `FIELD_ASSIGNMENT_TEMPLATE` filled with a key; `AssignmentFromTemplate` proves it equal to the source's two `replaceAll` calls |
| Generator.DeclarationFromTemplate | src/jp/togashi/resloadergen/ResLoaderGen.java:145 | filling `FIELD_TEMPLATE` gives `public final String` and the upper-cased key, for every key, even one containing the token |
| Generator.AssignmentTailHasNoField | src/jp/togashi/resloadergen/ResLoaderGen.java:36 | the assignment template has `<field_name>` only once |
| Generator.ReplaceOnce | src/jp/togashi/resloadergen/ResLoaderGen.java:146 | a single occurrence is replaced once |
| Generator.AssignmentFirstPass | src/jp/togashi/resloadergen/ResLoaderGen.java:146 | the first `replaceAll` touches only `<field_name>` |
| Generator.NoStringIdBefore | src/jp/togashi/resloadergen/ResLoaderGen.java:146 | no `<string_id>` starts in the text before the template's own occurrence when the upper-cased key sits there |
| Generator.AssignmentSecondPass | src/jp/togashi/resloadergen/ResLoaderGen.java:146 | an upper-cased key cannot hold `<string_id>`, so the second `replaceAll` touches only the template's own occurrence |
| Generator.AssignmentFromTemplate | src/jp/togashi/resloadergen/ResLoaderGen.java:146 | both replacements give `this.<KEY> = context.getString(R.string.<key>);`, for every key |
| Generator.DeclarationsFromTemplate | src/jp/togashi/resloadergen/ResLoaderGen.java:145 | for every key, the filled `FIELD_TEMPLATE` is the closed-form declaration |
| Generator.AssignmentsFromTemplate | src/jp/togashi/resloadergen/ResLoaderGen.java:146 | for every key, the filled `FIELD_ASSIGNMENT_TEMPLATE` is the closed-form assignment |
| Generator.Names | src/jp/togashi/resloadergen/ResLoaderGen.java:144 | the keys in order, once none is `null` |
| Generator.Concat | src/jp/togashi/resloadergen/ResLoaderGen.java:141-147 | definition of the `StringBuilder.append` chain; `ConcatAppend`, `ConcatAt` and `FragmentAt` prove its properties |
| Generator.DeclarationFragments | src/jp/togashi/resloadergen/ResLoaderGen.java:145 | one fragment per key, in order, each the text `FIELD_TEMPLATE.replaceAll("<field_name>", key.toUpperCase())` |
| Generator.AssignmentFragments | src/jp/togashi/resloadergen/ResLoaderGen.java:146 | one fragment per key, in order, each the text of both `replaceAll` calls: upper-cased key for `<field_name>`, key for `<string_id>` |
| Generator.RenderStep | src/jp/togashi/resloadergen/ResLoaderGen.java:144-147 | rendering one more key appends its declaration and its assignment |
| Generator.FragmentsOfSlice | src/jp/togashi/resloadergen/ResLoaderGen.java:144-147 | the fragments of a prefix or suffix of the keys are that prefix or suffix of the fragments |
| Generator.ConcatAppend | src/jp/togashi/resloadergen/ResLoaderGen.java:141-147 | appending fragments distributes over concatenation |
| Generator.ConcatAt | src/jp/togashi/resloadergen/ResLoaderGen.java:141-147 | each appended fragment sits between the fragments before and after it |
| Generator.FragmentAt | src/jp/togashi/resloadergen/ResLoaderGen.java:144-147 | each key's declaration and assignment lie between those of the keys before and after it |
| Generator.EnumerationLength | src/jp/togashi/resloadergen/ResLoaderGen.java:144 | iterating a map's entry set visits as many entries as the map has keys |
| Generator.OneFieldPerKey | src/jp/togashi/resloadergen/ResLoaderGen.java:144-147 | there are exactly as many declarations and assignments as merged keys, and each key has its own |
| Generator.RenderEntry | src/jp/togashi/resloadergen/ResLoaderGen.java:145-146 | filling the two templates for a key gives exactly its declaration and its assignment |
| Generator.RenderFragments | src/jp/togashi/resloadergen/ResLoaderGen.java:141-147 | the render loop crashes exactly when a key is `null`; otherwise it yields the concatenated declarations and assignments of the keys in order |
| Generator.Params | src/jp/togashi/resloadergen/ResLoaderGen.java:149-154 | the parameter map has exactly the five placeholders as keys |
| Generator.Pairs | src/jp/togashi/resloadergen/ResLoaderGen.java:189 | one pair per placeholder in the iteration order, each a (key, value) entry of the map; when the order lists every key once, every entry of the map is among the pairs |
| Generator.Expand | src/jp/togashi/resloadergen/ResLoaderGen.java:189-191 | definition of the substitution loop: one `replaceAll` per pair, in order; `ExpandWithoutPlaceholders` and `ExpandOrderMatters` prove its properties |
| Generator.ExpandWithoutPlaceholders | src/jp/togashi/resloadergen/ResLoaderGen.java:189-191 | a template with no placeholder passes the substitution loop unchanged |
| Generator.ExpandOrderMatters | src/jp/togashi/resloadergen/ResLoaderGen.java:189-191 | the expanded text depends on the iteration order: a value that spells another placeholder is replaced again only when that placeholder comes later |
| Generator.Fresh | src/jp/togashi/resloadergen/ResLoaderGen.java:175 | definition of the staleness test; `OutputGate` and `RerunIsUpToDate` prove the gate in both directions |
| Generator.OutputResult | src/jp/togashi/resloadergen/ResLoaderGen.java:171-191 | definition of `output` as a value: the package crash, the gate, then the substitution; `OutputGate` and `RerunIsUpToDate` prove its behaviour and `ResLoaderGen.Output` computes it |
| Generator.OutputGate | src/jp/togashi/resloadergen/ResLoaderGen.java:173-178 | the run is UP-TO-DATE exactly when the output exists and is not older than the newest input; otherwise the expanded template is written to the output path |
| Generator.RerunIsUpToDate | src/jp/togashi/resloadergen/ResLoaderGen.java:175-178 | after a write stamped no earlier than the newest input, running again is UP-TO-DATE |
| Generator.ResLoaderGen.constructor | src/jp/togashi/resloadergen/ResLoaderGen.java:42-46 | a new generator holds its configuration and `mLastModified` 0 |
| Generator.ResLoaderGen.LoadInputs | src/jp/togashi/resloadergen/ResLoaderGen.java:130-139 | the merge loop yields `Merged` and raises `mLastModified` to `Newest` |
| Generator.ResLoaderGen.Output | src/jp/togashi/resloadergen/ResLoaderGen.java:171-213 | `output` computes `OutputResult`: crash without a package, the gate, then the substitution loop in parameter order |
| Generator.ResLoaderGen.Exec | src/jp/togashi/resloadergen/ResLoaderGen.java:128-157 | `exec` updates `mLastModified` to the newest input time and its outcome is `ExecResult` |
| Generator.ExecResult | src/jp/togashi/resloadergen/ResLoaderGen.java:128-157 | definition of the outcome of `exec` as a value; `ExecOutcome` and `ExecPlainTemplate` prove its behaviour and `ResLoaderGen.Exec` computes it |
| Generator.ExecOutcome | src/jp/togashi/resloadergen/ResLoaderGen.java:128-178 | `exec` crashes on a `null` key first, on a dot-free class name second; otherwise it is UP-TO-DATE exactly when the output is fresh, and it writes the expanded template when it is not |
| Generator.ExecPlainTemplate | src/jp/togashi/resloadergen/ResLoaderGen.java:189-191 | a template without placeholders is written as it is |

## Left out

- The SAX parser is not modelled. A parse is given as its callback sequence and how it
  ended. `WellFormed` demands what a conforming parser guarantees: it never closes an
  element that was not opened.
- `characters` may deliver one text node in several chunks. As the code is written,
  each chunk overwrites the previous one (`put`), so only the last chunk is kept.
  The model follows the code, not a reading in which the chunks are joined.
- A `ParserConfigurationException` is caught at the same place as an `IOException`. The
  model's `IoError` ending stands for both: the entries recorded so far are returned.
- `loadTemplate` (reading `template.txt` from the class path) is a parameter, so the
  template text is given. Its `UnsupportedEncodingException` path is left out.
- Directory creation, `createNewFile`, `saveToFile` and their caught write failures are
  left out. `Written(path, text)` stands for the file that would be written.
- `printStackTrace`, `mStdOut`, `mStdErr` and `main` are left out: they are console
  output and an entry point.
- `Text.ReplaceAll` is `replaceAll` only for patterns without regular-expression
  metacharacters. The five placeholders and both field tokens have none. A replacement
  value containing `$` or `\` (a key or a template parameter) is treated
  literally. Java would interpret it or throw.
- `Text.UpperChar` upper-cases ASCII letters only. It does not model
  locale-dependent or non-ASCII `toUpperCase`.
- `mLastModified` and `File.lastModified()` are `long` in the source and `int` here.
  Times are non-negative and far below 2^63, so no overflow is modelled.
- Both `HashMap` iteration orders are parameters. The model does not say which order
  the JVM picks.
- `Naming.Child` models `new File(parent, child)` as appending a component, and an empty
  child as the parent itself. Path normalisation and an empty source directory are left
  out.
- Two keys that differ only in case produce two declarations of the same field name,
  which would not compile. The model generates them as the code does and proves nothing
  about the generated Java being valid.
- The `entries != null` test in `loadStringResources` is never false at its only
  call site, where a map is always passed. The model always copies the accumulator.
