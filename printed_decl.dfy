/** `PrintedDecl`: a declaration as the target-resolution tests compare it,
    its pretty-printed first line with any `{body}` cut off, paired with the
    relation tags the resolver attached to it. */
module PrintedDecls {
  import opened StringRef

  /** How a resolved declaration relates to the queried node. */
  datatype DeclRelation = Alias | Underlying | TemplateInstantiation | TemplatePattern

  /** `DeclRelationSet`, a set of flags over the four relations. */
  type DeclRelationSet = set<DeclRelation>

  datatype PrintedDecl = PrintedDecl(name: string, relations: DeclRelationSet)

  /** The characters given to both `rtrim(" {")` calls. */
  const TrimmedChars: set<char> := {' ', '{'}

  /** The name kept for a declaration whose pretty-printed text is `printed`:
      the text before the first newline, trimmed of trailing blanks and
      opening braces twice. */
  function NormalizedName(printed: string): (name: string)
    ensures name <= TakeUntil(printed, '\n') <= printed
    ensures '\n' !in name
    ensures name == [] || name[|name| - 1] !in TrimmedChars
    ensures forall i :: |name| <= i < |TakeUntil(printed, '\n')| ==> printed[i] in TrimmedChars
  {
    var firstLine := TakeUntil(printed, '\n');
    var firstLine' := RTrim(firstLine, TrimmedChars);
    RTrim(firstLine', TrimmedChars)
  }

  /** The second `rtrim(" {")` is redundant: one trim already gives the name. */
  lemma SecondTrimRedundant(printed: string)
    ensures RTrim(TakeUntil(printed, '\n'), TrimmedChars) == NormalizedName(printed)
  {
    RTrimIdempotent(TakeUntil(printed, '\n'), TrimmedChars);
  }

  /** A normalized name is its own normal form. */
  lemma NormalizedNameIdempotent(printed: string)
    ensures NormalizedName(NormalizedName(printed)) == NormalizedName(printed)
  {
    var name := NormalizedName(printed);
    TakeUntilAbsent(name, '\n');
  }

  // `PrintedDecl(const char *Name, DeclRelationSet)`, the expected side of a
  // test, is the datatype constructor `PrintedDecl(name, relations)` itself.

  /** `PrintedDecl(const Decl *, DeclRelationSet)`, given the text `Decl::print`
      produced for the declaration. */
  function FromDecl(printed: string, relations: DeclRelationSet): (d: PrintedDecl)
    ensures d.relations == relations
    ensures d.name <= TakeUntil(printed, '\n') <= printed
    ensures '\n' !in d.name
    ensures d.name == [] || d.name[|d.name| - 1] !in TrimmedChars
    ensures forall i :: |d.name| <= i < |TakeUntil(printed, '\n')| ==> printed[i] in TrimmedChars
  {
    PrintedDecl(NormalizedName(printed), relations)
  }

  /** `operator==`: comparison of the `(Name, Relations)` tuples. */
  function Equal(l: PrintedDecl, r: PrintedDecl): (b: bool)
    ensures b <==> l == r
  {
    l.name == r.name && l.relations == r.relations
  }

  /** `operator==` is an equivalence. */
  lemma EqualIsEquivalence(a: PrintedDecl, b: PrintedDecl, c: PrintedDecl)
    ensures Equal(a, a)
    ensures Equal(a, b) ==> Equal(b, a)
    ensures Equal(a, b) && Equal(b, c) ==> Equal(a, c)
  {
  }

  /** A resolved declaration matches an expected literal exactly when the
      relations agree and the literal is the printed text's normalized name. */
  lemma MatchesLiteral(printed: string, expected: string, actual: DeclRelationSet, wanted: DeclRelationSet)
    ensures Equal(FromDecl(printed, actual), PrintedDecl(expected, wanted))
        <==> NormalizedName(printed) == expected && actual == wanted
  {
  }

  /** Only a literal already in normal form can ever match a printed
      declaration: no newline, no trailing blank or brace. */
  lemma MatchableLiteral(printed: string, expected: string, relations: DeclRelationSet)
    requires Equal(FromDecl(printed, relations), PrintedDecl(expected, relations))
    ensures NormalizedName(expected) == expected
  {
    NormalizedNameIdempotent(printed);
  }

  /** A declaration printed as `signature {` and a body on the next lines
      keeps only its signature. */
  lemma {:induction false} BodyTruncated(signature: string, body: string)
    requires '\n' !in signature
    requires signature == [] || signature[|signature| - 1] !in TrimmedChars
    ensures NormalizedName(signature + " {\n" + body) == signature
  {
    var firstLine := signature + " {";
    assert '\n' !in firstLine;
    assert signature + " {\n" + body == firstLine + ['\n'] + body;
    TakeUntilStops(firstLine, '\n', body);
    RTrimUnique(firstLine, TrimmedChars, signature);
    SecondTrimRedundant(signature + " {\n" + body);
  }
}
