/** `FindExplicitReferencesTest::annotateReferencesInFoo`: the references
    found in the body of `foo` are sorted by location, a `$I^` marker is
    spliced into the code before each main-file reference, and a numbered
    dump lists every reference. */
module AnnotateReferences {
  import opened StringRef
  import opened Decimal
  import opened PointAnnotations

  /** One `ReferenceLoc`, reduced to what the annotation reads of it.
      `loc` is the position of its name in translation-unit order (the order
      `isBeforeInTranslationUnit` decides); `inMainFile` and `offset` are the
      file and offset of that location after macro expansion; `text` is how
      the reference prints in the dump. */
  datatype Reference = Reference(loc: nat, inMainFile: bool, offset: nat, text: string)

  datatype AllRefs = AllRefs(annotatedCode: string, dumpedReferences: string)

  predicate SortedByLocation(refs: seq<Reference>) {
    forall k, l :: 0 <= k < l < |refs| ==> refs[k].loc <= refs[l].loc
  }

  /** Locations and offsets agree: of two main-file references, the one that
      comes first in the translation unit does not lie later in the file. */
  predicate ConsistentLocations(refs: seq<Reference>) {
    forall a, b :: a in refs && b in refs && a.inMainFile && b.inMainFile && a.loc <= b.loc ==>
      a.offset <= b.offset
  }

  /** Main-file offsets never decrease along the sequence. */
  predicate MainOffsetsNonDecreasing(refs: seq<Reference>) {
    forall k, l :: 0 <= k < l < |refs| && refs[k].inMainFile && refs[l].inMainFile ==>
      refs[k].offset <= refs[l].offset
  }

  /** Every main-file offset lies within the code. */
  predicate OffsetsWithin(refs: seq<Reference>, length: nat) {
    forall r :: r in refs && r.inMainFile ==> r.offset <= length
  }

  /** Sorting by location puts main-file references in file order. */
  lemma SortedIsInFileOrder(refs: seq<Reference>)
    requires SortedByLocation(refs) && ConsistentLocations(refs)
    ensures MainOffsetsNonDecreasing(refs)
  {
    forall k, l | 0 <= k < l < |refs| && refs[k].inMainFile && refs[l].inMainFile
      ensures refs[k].offset <= refs[l].offset
    {
      assert refs[k] in refs && refs[l] in refs;
    }
  }

  /** `llvm::sort` of `Refs` with `isBeforeInTranslationUnit` on the name
      locations, as an insertion sort. */
  method SortByLocation(a: array<Reference>)
    modifies a
    ensures SortedByLocation(a[..])
    ensures multiset(a[..]) == multiset(old(a[..]))
  {
    var i := 0;
    while i < a.Length
      invariant 0 <= i <= a.Length
      invariant SortedByLocation(a[..i])
      invariant multiset(a[..]) == multiset(old(a[..]))
    {
      Insert(a, i);
      i := i + 1;
    }
    assert a[..a.Length] == a[..];
  }

  /** One insertion step: moves `a[i]` down into the sorted prefix `a[..i]`. */
  method Insert(a: array<Reference>, i: nat)
    requires i < a.Length
    requires SortedByLocation(a[..i])
    modifies a
    ensures SortedByLocation(a[..i + 1])
    ensures forall k :: i < k < a.Length ==> a[k] == old(a[k])
    ensures multiset(a[..]) == multiset(old(a[..]))
  {
    var j := i;
    while 0 < j && a[j].loc < a[j - 1].loc
      invariant 0 <= j <= i
      invariant forall k, l :: 0 <= k < l <= i && k != j && l != j ==> a[k].loc <= a[l].loc
      invariant forall l :: j < l <= i ==> a[j].loc <= a[l].loc
      invariant forall k :: i < k < a.Length ==> a[k] == old(a[k])
      invariant multiset(a[..]) == multiset(old(a[..]))
    {
      SwapDown(a, j);
      j := j - 1;
    }
  }

  /** Exchanges `a[j - 1]` and `a[j]`. */
  method SwapDown(a: array<Reference>, j: nat)
    requires 0 < j < a.Length
    modifies a
    ensures a[j - 1] == old(a[j]) && a[j] == old(a[j - 1])
    ensures forall k :: 0 <= k < a.Length && k != j - 1 && k != j ==> a[k] == old(a[k])
    ensures multiset(a[..]) == multiset(old(a[..]))
  {
    a[j - 1], a[j] := a[j], a[j - 1];
  }

  /** The points the annotation marks, from reference `i` on: one per
      main-file reference, named by its index, at its offset, in index order. */
  function MainPointsFrom(refs: seq<Reference>, i: nat): (points: seq<Point>)
    requires i <= |refs|
    ensures forall k :: 0 <= k < |points| ==>
      i <= points[k].name < |refs| && refs[points[k].name].inMainFile &&
      points[k].offset == refs[points[k].name].offset
    ensures forall k, l :: 0 <= k < l < |points| ==> points[k].name < points[l].name
    decreases |refs| - i
  {
    if i == |refs| then []
    else (if refs[i].inMainFile then [Point(i, refs[i].offset)] else []) + MainPointsFrom(refs, i + 1)
  }

  /** No main-file reference is left unmarked. */
  lemma {:induction false} MainPointsComplete(refs: seq<Reference>, i: nat, j: nat)
    requires i <= j < |refs| && refs[j].inMainFile
    ensures Point(j, refs[j].offset) in MainPointsFrom(refs, i)
    decreases j - i
  {
    var head := if refs[i].inMainFile then [Point(i, refs[i].offset)] else [];
    assert MainPointsFrom(refs, i) == head + MainPointsFrom(refs, i + 1);
    if i < j {
      MainPointsComplete(refs, i + 1, j);
    } else {
      assert MainPointsFrom(refs, i)[0] == Point(j, refs[j].offset);
    }
  }

  function MainPoints(refs: seq<Reference>): seq<Point> {
    MainPointsFrom(refs, 0)
  }

  /** Points whose offsets start at `from` and never decrease. */
  predicate OffsetsFrom(from: nat, points: seq<Point>) {
    && (forall k :: 0 <= k < |points| ==> from <= points[k].offset)
    && (forall k, l :: 0 <= k < l < |points| ==> points[k].offset <= points[l].offset)
  }

  /** The code from `from` on with the markers of `points` spliced in, each
      piece cut with `substr` as the loop cuts it. */
  function Spliced(code: string, from: nat, points: seq<Point>): string
    requires OffsetsFrom(from, points)
    decreases |points|
  {
    if points == [] then Substr(code, from, |code|)
    else
      var p := points[0];
      Substr(code, from, p.offset - from) + Marker(p.name) + Spliced(code, p.offset, points[1..])
  }

  /** The points of a file-ordered reference list are in file order. */
  lemma MainPointsInFileOrder(refs: seq<Reference>, i: nat, from: nat)
    requires i <= |refs|
    requires MainOffsetsNonDecreasing(refs)
    requires forall k :: i <= k < |refs| && refs[k].inMainFile ==> from <= refs[k].offset
    ensures OffsetsFrom(from, MainPointsFrom(refs, i))
  {
  }

  /** One step of the splice: reference `i` contributes a marker exactly
      when it is in the main file. */
  lemma SpliceStep(code: string, refs: seq<Reference>, i: nat, from: nat)
    requires i < |refs|
    requires MainOffsetsNonDecreasing(refs)
    requires forall k :: i <= k < |refs| && refs[k].inMainFile ==> from <= refs[k].offset
    ensures OffsetsFrom(from, MainPointsFrom(refs, i))
    ensures refs[i].inMainFile ==>
      && from <= refs[i].offset
      && OffsetsFrom(refs[i].offset, MainPointsFrom(refs, i + 1))
      && Spliced(code, from, MainPointsFrom(refs, i))
         == Substr(code, from, refs[i].offset - from) + Marker(i) + Spliced(code, refs[i].offset, MainPointsFrom(refs, i + 1))
    ensures !refs[i].inMainFile ==> MainPointsFrom(refs, i) == MainPointsFrom(refs, i + 1)
  {
    MainPointsInFileOrder(refs, i, from);
    if refs[i].inMainFile {
      MainPointsInFileOrder(refs, i + 1, refs[i].offset);
      assert MainPointsFrom(refs, i) == [Point(i, refs[i].offset)] + MainPointsFrom(refs, i + 1);
    }
  }

  /** The splice loop of `annotateReferencesInFoo` over already sorted
      references; the source's `assert(NextCodeChar <= Offset)` is proved. */
  method SpliceMarkers(code: string, refs: seq<Reference>) returns (annotated: string)
    requires MainOffsetsNonDecreasing(refs)
    ensures OffsetsFrom(0, MainPoints(refs))
    ensures annotated == Spliced(code, 0, MainPoints(refs))
  {
    MainPointsInFileOrder(refs, 0, 0);
    ghost var goal := Spliced(code, 0, MainPoints(refs));
    annotated := "";
    var next: nat := 0;
    for i := 0 to |refs|
      invariant forall k :: i <= k < |refs| && refs[k].inMainFile ==> next <= refs[k].offset
      invariant OffsetsFrom(next, MainPointsFrom(refs, i))
      invariant annotated + Spliced(code, next, MainPointsFrom(refs, i)) == goal
    {
      var r := refs[i];
      SpliceStep(code, refs, i, next);
      if r.inMainFile {
        assert next <= r.offset;
        ghost var rest := Spliced(code, r.offset, MainPointsFrom(refs, i + 1));
        var piece := Substr(code, next, r.offset - next) + Marker(i);
        assert annotated + (piece + rest) == goal;
        Reassociate(annotated, piece, rest);
        annotated := annotated + piece;
        next := r.offset;
      }
    }
    annotated := annotated + Substr(code, next, |code|);
  }

  // Reassociate and AppendHead restate sequence algebra Dafny knows; calling
  // them keeps the concatenation steps out of larger, costlier contexts.
  lemma Reassociate(a: string, b: string, c: string)
    ensures a + (b + c) == a + b + c
  {
  }

  lemma AppendHead(acc: seq<Point>, points: seq<Point>)
    requires points != []
    ensures acc + [points[0]] + points[1..] == acc + points
  {
    assert points == [points[0]] + points[1..];
  }

  /** The text after the last marker is read back as the rest of the code. */
  lemma ParseTail(code: string, from: nat, acc: seq<Point>)
    requires '$' !in code
    requires from <= |code|
    ensures ParseFrom(Substr(code, from, |code|), code[..from], acc) == Some(Annotations(code, acc))
  {
    ParsePlain(code[from..], [], code[..from], acc);
    assert code[from..] + [] == code[from..];
    assert code[..from] + code[from..] == code;
  }

  /** The first marker splits the spliced text into the code before it,
      the marker and the rest. */
  lemma SplicedHead(code: string, from: nat, points: seq<Point>)
    requires points != [] && OffsetsFrom(from, points)
    requires points[0].offset <= |code|
    ensures OffsetsFrom(points[0].offset, points[1..])
    ensures Spliced(code, from, points)
         == code[from..points[0].offset] + (Marker(points[0].name) + Spliced(code, points[0].offset, points[1..]))
  {
    var p := points[0];
    assert Substr(code, from, p.offset - from) == code[from..p.offset];
  }

  /** Reading past the first spliced marker records its point. */
  lemma ParseHead(code: string, from: nat, points: seq<Point>, acc: seq<Point>)
    requires '$' !in code
    requires points != [] && OffsetsFrom(from, points)
    requires points[0].offset <= |code|
    ensures OffsetsFrom(points[0].offset, points[1..])
    ensures ParseFrom(Spliced(code, from, points), code[..from], acc)
         == ParseFrom(Spliced(code, points[0].offset, points[1..]), code[..points[0].offset], acc + [points[0]])
  {
    SplicedHead(code, from, points);
    var p := points[0];
    var piece := code[from..p.offset];
    var rest := Spliced(code, p.offset, points[1..]);
    assert '$' !in piece by {
      assert forall c :: c in piece ==> c in code;
    }
    assert code[..from] + piece == code[..p.offset];
    ParsePlain(piece, Marker(p.name) + rest, code[..from], acc);
    ParseMarker(p.name, rest, code[..p.offset], acc);
  }

  /** Stripping the markers from the spliced text gives back the code, and
      the markers are exactly `points`, at their offsets. */
  lemma {:induction false} SplicedRoundTrip(code: string, from: nat, points: seq<Point>, acc: seq<Point>)
    requires '$' !in code
    requires from <= |code|
    requires OffsetsFrom(from, points)
    requires forall k :: 0 <= k < |points| ==> points[k].offset <= |code|
    ensures ParseFrom(Spliced(code, from, points), code[..from], acc) == Some(Annotations(code, acc + points))
    decreases |points|
  {
    if points == [] {
      ParseTail(code, from, acc);
      assert acc + points == acc;
    } else {
      ParseHead(code, from, points, acc);
      SplicedRoundTrip(code, points[0].offset, points[1..], acc + [points[0]]);
      AppendHead(acc, points);
    }
  }

  /** The line written for reference `i`: `formatv("{0}: {1}\n", I, Refs[I])`
      without its newline. */
  function DumpLine(i: nat, r: Reference): string {
    ToDecimal(i) + ": " + r.text
  }

  function DumpLines(refs: seq<Reference>): (lines: seq<string>)
    ensures |lines| == |refs|
  {
    seq(|refs|, i requires 0 <= i < |refs| => DumpLine(i, refs[i]))
  }

  /** `lines`, each followed by a newline. */
  function Join(lines: seq<string>): string {
    if lines == [] then "" else Join(lines[..|lines| - 1]) + lines[|lines| - 1] + "\n"
  }

  /** Splits text into its newline-terminated lines; an unterminated tail is
      a last line of its own. */
  function SplitLines(s: string): (lines: seq<string>)
    ensures forall k :: 0 <= k < |lines| ==> '\n' !in lines[k]
    decreases |s|
  {
    if s == [] then []
    else
      var line := TakeUntil(s, '\n');
      if |line| == |s| then [line] else [line] + SplitLines(s[|line| + 1..])
  }

  lemma {:induction false} JoinCons(line: string, lines: seq<string>)
    ensures Join([line] + lines) == line + "\n" + Join(lines)
    decreases |lines|
  {
    if lines != [] {
      var init := lines[..|lines| - 1];
      assert ([line] + lines)[..|lines|] == [line] + init;
      JoinCons(line, init);
    }
  }

  /** Splitting joined lines gives the lines back. */
  lemma {:induction false} SplitJoin(lines: seq<string>)
    requires forall k :: 0 <= k < |lines| ==> '\n' !in lines[k]
    ensures SplitLines(Join(lines)) == lines
    decreases |lines|
  {
    if lines != [] {
      var tail := lines[1..];
      assert lines == [lines[0]] + tail;
      JoinCons(lines[0], tail);
      TakeUntilStops(lines[0], '\n', Join(tail));
      var s := Join(lines);
      assert s == lines[0] + ['\n'] + Join(tail);
      assert s[|lines[0]| + 1..] == Join(tail);
      SplitJoin(tail);
    }
  }

  /** The dump loop of `annotateReferencesInFoo`. */
  method DumpReferences(refs: seq<Reference>) returns (dumped: string)
    ensures dumped == Join(DumpLines(refs))
  {
    dumped := "";
    for i := 0 to |refs|
      invariant dumped == Join(DumpLines(refs)[..i])
    {
      dumped := dumped + ToDecimal(i) + ": " + refs[i].text + "\n";
      assert DumpLines(refs)[..i + 1][..i] == DumpLines(refs)[..i];
    }
    assert DumpLines(refs)[..|refs|] == DumpLines(refs);
  }

  /** The dump has one line per reference, main-file or not, in index order,
      each starting with the reference's number. */
  lemma DumpOneLinePerReference(refs: seq<Reference>)
    requires forall r :: r in refs ==> '\n' !in r.text
    ensures |SplitLines(Join(DumpLines(refs)))| == |refs|
    ensures forall i :: 0 <= i < |refs| ==>
      SplitLines(Join(DumpLines(refs)))[i] == ToDecimal(i) + ": " + refs[i].text
  {
    var lines := DumpLines(refs);
    forall k | 0 <= k < |lines| ensures '\n' !in lines[k] {
      assert refs[k] in refs;
      assert forall c :: c in ToDecimal(k) ==> IsDigit(c);
    }
    SplitJoin(lines);
  }

  /** Reordering the references keeps the facts the splice relies on. */
  lemma PermutationKeepsLocations(refs: seq<Reference>, sorted: seq<Reference>, length: nat)
    requires multiset(sorted) == multiset(refs)
    ensures forall r :: r in sorted <==> r in refs
    ensures ConsistentLocations(refs) ==> ConsistentLocations(sorted)
    ensures OffsetsWithin(refs, length) ==> OffsetsWithin(sorted, length)
  {
    forall r ensures r in sorted <==> r in refs {
      assert r in sorted <==> r in multiset(sorted);
      assert r in refs <==> r in multiset(refs);
    }
  }

  /** The round trip of the test driver: the annotated text parses back to
      the code, with a point `$I^` at the offset of each main-file reference
      `I`, in index order, and no other point. */
  lemma AnnotatedRoundTrip(code: string, refs: seq<Reference>)
    requires '$' !in code
    requires MainOffsetsNonDecreasing(refs)
    requires OffsetsWithin(refs, |code|)
    ensures OffsetsFrom(0, MainPoints(refs))
    ensures Parse(Spliced(code, 0, MainPoints(refs))) == Some(Annotations(code, MainPoints(refs)))
  {
    MainPointsInFileOrder(refs, 0, 0);
    var points := MainPoints(refs);
    forall k | 0 <= k < |points| ensures points[k].offset <= |code| {
      assert refs[points[k].name] in refs;
    }
    SplicedRoundTrip(code, 0, points, []);
    assert code[..0] == [] && [] + points == points;
  }

  /** `annotateReferencesInFoo` from the collected references on: sort them,
      splice the markers, dump the list. `sorted` is the order the sort chose. */
  method AnnotateReferencesInFoo(code: string, refs: seq<Reference>) returns (all: AllRefs, ghost sorted: seq<Reference>)
    requires ConsistentLocations(refs)
    ensures SortedByLocation(sorted) && multiset(sorted) == multiset(refs)
    ensures OffsetsFrom(0, MainPoints(sorted))
    ensures all.annotatedCode == Spliced(code, 0, MainPoints(sorted))
    ensures all.dumpedReferences == Join(DumpLines(sorted))
    ensures '$' !in code && OffsetsWithin(refs, |code|) ==>
      Parse(all.annotatedCode) == Some(Annotations(code, MainPoints(sorted)))
    ensures '$' !in code && OffsetsWithin(refs, |code|) ==>
      Parse(all.annotatedCode).Some? && Parse(all.annotatedCode).value.code == code
    ensures (forall r :: r in refs ==> '\n' !in r.text) ==>
      |SplitLines(all.dumpedReferences)| == |refs|
  {
    var a := new Reference[|refs|](i requires 0 <= i < |refs| => refs[i]);
    assert a[..] == refs;
    SortByLocation(a);
    sorted := a[..];
    PermutationKeepsLocations(refs, sorted, |code|);
    SortedIsInFileOrder(sorted);
    var annotated := SpliceMarkers(code, a[..]);
    var dumped := DumpReferences(a[..]);
    all := AllRefs(annotated, dumped);
    if '$' !in code && OffsetsWithin(refs, |code|) {
      AnnotatedRoundTrip(code, sorted);
    }
    if forall r :: r in refs ==> '\n' !in r.text {
      DumpOneLinePerReference(sorted);
      assert |sorted| == |multiset(sorted)| == |multiset(refs)| == |refs|;
    }
  }
}
