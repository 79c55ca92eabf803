# clangd FindTarget test harness: printed declarations and reference annotation

clangd's reference-resolution layer has two engines. `allTargetDecls` maps a
syntax node to the declarations it designates. `findExplicitReferences`
lists the references written in a subtree. Their tests in
`FindTargetTests.cpp` reduce the engines' output to plain strings, using two
small pieces of string logic. This project models those two pieces and
proves what they promise.

- **`PrintedDecl`** (module `PrintedDecls`). A resolved declaration is
  compared by its pretty-printed first line and its relation tags. The
  printed text is cut at the first newline and trimmed of trailing blanks
  and `{` twice. `operator==` compares the `(Name, Relations)` pair.
- **`annotateReferencesInFoo`** (module `AnnotateReferences`). The
  references found in `foo`'s body are sorted by location. A cursor then
  walks the code and rebuilds it with a `$I^` marker before each main-file
  reference. A second loop writes a numbered dump with one line per
  reference. The test driver checks that the annotated text equals the
  annotated input, from which the markers had been stripped.

Supporting modules:

- `StringRef` models `take_until`, `rtrim` and `substr`, including
  `substr`'s clamping of out-of-range arguments.
- `Decimal` models `std::to_string` on counters and its inverse.
- `PointAnnotations` models the `$name^` point syntax of `llvm::Annotations`.
  Its parser is the independent partner the round-trip lemmas are stated
  against.

A reference is abstracted to a record `Reference(loc, inMainFile, offset, text)`:

- `loc` is its place in translation-unit order.
- `inMainFile` and `offset` are the file and offset of its expansion location.
- `text` is its printed form.

The source's `assert(NextCodeChar <= Offset)` becomes a proved assertion
in `SpliceMarkers`. It follows from the sort together with
`ConsistentLocations`: of two main-file references, the one earlier in the
translation unit is not later in the file.

## Model

| member | source | states |
|---|---|---|
| StringRef.TakeUntil | clang-tools-extra/clangd/unittests/FindTargetTests.cpp:42-43 | the result is a prefix of the input, contains no stop character, and ends at the first stop character or at the end |
| StringRef.TakeUntilAbsent | clang-tools-extra/clangd/unittests/FindTargetTests.cpp:42-43 | a string without the stop character is kept whole |
| StringRef.TakeUntilStops | clang-tools-extra/clangd/unittests/FindTargetTests.cpp:42-43 | the cut falls exactly at the first stop character, whatever follows |
| StringRef.RTrim | clang-tools-extra/clangd/unittests/FindTargetTests.cpp:44-45 | the result is a prefix that does not end in a trimmed character, and everything dropped is a trimmed character |
| StringRef.RTrimUnique | clang-tools-extra/clangd/unittests/FindTargetTests.cpp:44-45 | these three facts determine the trimmed result uniquely |
| StringRef.RTrimIdempotent | clang-tools-extra/clangd/unittests/FindTargetTests.cpp:44-45 | trimming twice with the same characters equals trimming once |
| StringRef.Substr | clang-tools-extra/clangd/unittests/FindTargetTests.cpp:546-552 | `substr` returns the in-range slice, the whole suffix when the count runs past the end, and the empty string when the start is past the end |
| Decimal.ToDecimal | clang-tools-extra/clangd/unittests/FindTargetTests.cpp:547 | a counter's spelling is non-empty, all digits and has no leading zero |
| Decimal.ValueOfToDecimal | clang-tools-extra/clangd/unittests/FindTargetTests.cpp:547 | reading a spelled counter back gives the counter |
| Decimal.ToDecimalInjective | clang-tools-extra/clangd/unittests/FindTargetTests.cpp:547 | distinct reference numbers give distinct markers |
| Decimal.DigitPrefix | clang-tools-extra/clangd/unittests/FindTargetTests.cpp:792-794 | the longest digit run at the start of a string: digits only, followed by a non-digit or the end |
| Decimal.DigitPrefixOfRun | clang-tools-extra/clangd/unittests/FindTargetTests.cpp:792-794 | a digit run followed by a non-digit is read as exactly that run |
| PointAnnotations.Marker | clang-tools-extra/clangd/unittests/FindTargetTests.cpp:547 | a marker starts with `$`, ends with `^` and has at least one character between them |
| PointAnnotations.ParseFrom | clang-tools-extra/clangd/unittests/FindTargetTests.cpp:792-794 | parsing only extends the code and the point list, and never puts a `$` into the code |
| PointAnnotations.Parse | clang-tools-extra/clangd/unittests/FindTargetTests.cpp:792-794 | stripped code never contains `$` |
| PointAnnotations.ParsePlain | clang-tools-extra/clangd/unittests/FindTargetTests.cpp:546 | text without `$` is copied to the code unchanged |
| PointAnnotations.ParseMarker | clang-tools-extra/clangd/unittests/FindTargetTests.cpp:547 | the marker for `I` is read back as point `I` at the current code offset |
| PrintedDecls.NormalizedName | clang-tools-extra/clangd/unittests/FindTargetTests.cpp:37-46 | the name is a prefix of the first line, has no newline, does not end in blank or `{`, and only blanks and `{` of the first line are dropped |
| PrintedDecls.SecondTrimRedundant | clang-tools-extra/clangd/unittests/FindTargetTests.cpp:44-45 | the second `rtrim(" {")` leaves the first result unchanged |
| PrintedDecls.NormalizedNameIdempotent | clang-tools-extra/clangd/unittests/FindTargetTests.cpp:42-45 | normalizing a normalized name changes nothing |
| PrintedDecls.FromDecl | clang-tools-extra/clangd/unittests/FindTargetTests.cpp:37-46 | the declaration constructor keeps the relations, and its name is a prefix of the printed text's first line with no newline, not ending in blank or `{`, followed on that line only by blanks and `{` |
| PrintedDecls.Equal | clang-tools-extra/clangd/unittests/FindTargetTests.cpp:51-53 | the tuple comparison holds exactly when the two printed declarations are identical |
| PrintedDecls.EqualIsEquivalence | clang-tools-extra/clangd/unittests/FindTargetTests.cpp:51-53 | `operator==` is reflexive, symmetric and transitive |
| PrintedDecls.MatchesLiteral | clang-tools-extra/clangd/unittests/FindTargetTests.cpp:35-53 | a printed declaration equals a literal `PrintedDecl(name, relations)` (the datatype constructor, which is the literal constructor at lines 35-36) iff its normalized name is the literal and the relations agree |
| PrintedDecls.MatchableLiteral | clang-tools-extra/clangd/unittests/FindTargetTests.cpp:35-53 | only a literal already in normal form can match a printed declaration |
| PrintedDecls.BodyTruncated | clang-tools-extra/clangd/unittests/FindTargetTests.cpp:33-46 | a declaration printed as `signature {` followed by a body on later lines is reduced to its signature |
| AnnotateReferences.SortByLocation | clang-tools-extra/clangd/unittests/FindTargetTests.cpp:524-527 | after the in-place sort the references are in non-decreasing location order and are a permutation of the input |
| AnnotateReferences.Insert | clang-tools-extra/clangd/unittests/FindTargetTests.cpp:525-527 | one insertion step extends the sorted prefix by one, leaves every later element as it was, and only permutes the array |
| AnnotateReferences.SortedIsInFileOrder | clang-tools-extra/clangd/unittests/FindTargetTests.cpp:525-545 | sorted, consistently located references have non-decreasing main-file offsets, so the source's cursor assertion holds |
| AnnotateReferences.PermutationKeepsLocations | clang-tools-extra/clangd/unittests/FindTargetTests.cpp:525-527 | sorting keeps location consistency and the bound of offsets by the code length |
| AnnotateReferences.MainPointsFrom | clang-tools-extra/clangd/unittests/FindTargetTests.cpp:531-550 | each marked point is a main-file reference's index at that reference's offset, and indices strictly increase |
| AnnotateReferences.MainPointsComplete | clang-tools-extra/clangd/unittests/FindTargetTests.cpp:543-548 | every main-file reference gets its marker |
| AnnotateReferences.SpliceStep | clang-tools-extra/clangd/unittests/FindTargetTests.cpp:543-550 | a main-file reference adds the code up to its offset and its marker, and any other reference adds nothing |
| AnnotateReferences.SpliceMarkers | clang-tools-extra/clangd/unittests/FindTargetTests.cpp:529-552 | the loop's output is the code with the main-file markers spliced in; inside the loop it proves the source's assertion at line 545 |
| AnnotateReferences.SplicedHead | clang-tools-extra/clangd/unittests/FindTargetTests.cpp:546-549 | the spliced text is the code before the first marker, the marker, then the rest spliced from that offset |
| AnnotateReferences.ParseTail | clang-tools-extra/clangd/unittests/FindTargetTests.cpp:552 | the text after the last marker reads back as the rest of the code |
| AnnotateReferences.ParseHead | clang-tools-extra/clangd/unittests/FindTargetTests.cpp:546-549 | reading past the first spliced marker records its point at its offset |
| AnnotateReferences.SplicedRoundTrip | clang-tools-extra/clangd/unittests/FindTargetTests.cpp:546-552 | stripping the markers gives back the code, and the recovered points are exactly the spliced ones |
| AnnotateReferences.AnnotatedRoundTrip | clang-tools-extra/clangd/unittests/FindTargetTests.cpp:792-794 | for code without `$` and in-range offsets, the annotated text parses to the code plus one point per main-file reference, in index order |
| AnnotateReferences.DumpReferences | clang-tools-extra/clangd/unittests/FindTargetTests.cpp:554-556 | the dump is the lines `I: <reference>` for every reference in index order, each ended by a newline |
| AnnotateReferences.JoinCons | clang-tools-extra/clangd/unittests/FindTargetTests.cpp:554-556 | joined lines unfold from the front |
| AnnotateReferences.SplitJoin | clang-tools-extra/clangd/unittests/FindTargetTests.cpp:554-556 | splitting newline-joined lines without newlines gives the lines back |
| AnnotateReferences.DumpOneLinePerReference | clang-tools-extra/clangd/unittests/FindTargetTests.cpp:554-556 | the dump has exactly one line per reference, main-file or not, and line `I` is `I: <reference>` |
| AnnotateReferences.AnnotateReferencesInFoo | clang-tools-extra/clangd/unittests/FindTargetTests.cpp:508-558 | the result is built from a sorted permutation of the references; for code without `$` and in-range offsets the annotated text strips back to the code; when no printed reference holds a newline the dump has one line per reference |

## Left out

- `allTargetDecls`, `findExplicitReferences`, `DeclRelation`/`DeclRelationSet` semantics and `ReferenceLoc`: they are defined in `FindTarget.cpp`/`FindTarget.h`, which are not part of this model. The relation tags are carried only as a set of four values.
- Building the translation unit, finding `foo` and casting it to a function (lines 509-517): these are front-end calls. The callback that fills `Refs` (lines 519-522) is the input sequence.
- `SourceManager` work (`isBeforeInTranslationUnit`, `getExpansionLoc`, `getDecomposedLoc`, the main-file check and the `isValid`/`isFileID` assertions at lines 535-543): these become the `loc`, `inMainFile` and `offset` fields of a reference.
- `AnnotateReferencesInFoo`: requires `ConsistentLocations` instead of modelling the release-build behaviour when the assertion at line 545 is off. The unsigned `Offset - NextCodeChar` would wrap, and that is not modelled.
- `Decl::print` and `raw_string_ostream` (lines 39-41): the printed text is an input string.
- `operator<<` for `PrintedDecl` (lines 54-56) and the printing of a `ReferenceLoc` in the dump: both print values defined in `FindTarget.cpp`. A reference's printed form is its `text` field.
- `llvm::Annotations`: only its points with numeric names, `$<digits>^`, are modelled. Ranges `[[...]]` and other point names are not. The round trip therefore assumes code without `$`.
- `Parse`: a bare `^` (an unnamed point), `[[` and `]]` are copied into the code, where `llvm::Annotations` consumes them. The expected texts of the reference tests contain none of these, so the round trip checked at lines 792-794 is unaffected.
- Offsets count characters of a `string`, where the source counts bytes. The two agree on ASCII text such as the test inputs.
- `SortByLocation`: `llvm::sort` is unstable and does not fix an algorithm. It is modelled as an insertion sort. Every contract above that depends on the order holds for any sorted permutation (`sorted` in `AnnotateReferencesInFoo`).
- The 32-bit `unsigned` counters `I`, `Offset` and `NextCodeChar` are unbounded naturals. Reference counts and file offsets stay far below 2^32.
- `llvm::formatv` is modelled only as `I: <text>` with a newline. `std::to_string` is modelled only on non-negative counters.
- The gtest/gmock matchers, `EXPECT_DECLS` and the C++/Objective-C snippets of the test tables: these are test data about the engines.
