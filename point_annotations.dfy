/** The point markers of an annotated test text, `$name^`, and the parser that
    strips them: the part of `llvm::Annotations` the reference tests use, with
    point names restricted to decimal counters. */
module PointAnnotations {
  import opened Decimal

  datatype Option<T> = None | Some(value: T)

  /** A named point; `offset` counts characters of the text with every
      marker removed. */
  datatype Point = Point(name: nat, offset: nat)

  /** A parsed annotated text: the plain code and its points in text order. */
  datatype Annotations = Annotations(code: string, points: seq<Point>)

  /** The marker `"$" + std::to_string(I) + "^"` written for the reference
      numbered `name`. */
  function Marker(name: nat): (m: string)
    ensures |m| >= 3 && m[0] == '$' && m[|m| - 1] == '^'
  {
    "$" + ToDecimal(name) + "^"
  }

  /** Parses `s`, appending plain characters to `code` and found markers to
      `points`; `None` when a `$` does not open a well-formed marker. */
  function ParseFrom(s: string, code: string, points: seq<Point>): (r: Option<Annotations>)
    ensures r.Some? ==> code <= r.value.code && points <= r.value.points
    ensures r.Some? && '$' !in code ==> '$' !in r.value.code
    decreases |s|
  {
    if s == [] then Some(Annotations(code, points))
    else if s[0] != '$' then ParseFrom(s[1..], code + [s[0]], points)
    else
      var name := DigitPrefix(s[1..]);
      if name == [] || 1 + |name| == |s| || s[1 + |name|] != '^' then None
      else ParseFrom(s[2 + |name|..], code, points + [Point(ValueOf(name), |code|)])
  }

  function Parse(annotated: string): (r: Option<Annotations>)
    ensures r.Some? ==> '$' !in r.value.code
  {
    ParseFrom(annotated, [], [])
  }

  /** Text without `$` is copied to the code unchanged. */
  lemma {:induction false} ParsePlain(t: string, s: string, code: string, points: seq<Point>)
    requires '$' !in t
    ensures ParseFrom(t + s, code, points) == ParseFrom(s, code + t, points)
    decreases |t|
  {
    if t != [] {
      assert (t + s)[0] == t[0] != '$';
      assert (t + s)[1..] == t[1..] + s;
      assert code + [t[0]] + t[1..] == code + t;
      ParsePlain(t[1..], s, code + [t[0]], points);
    } else {
      assert t + s == s && code + t == code;
    }
  }

  /** A marker is read back as its point, at the current offset of the code. */
  lemma ParseMarker(name: nat, s: string, code: string, points: seq<Point>)
    ensures ParseFrom(Marker(name) + s, code, points)
         == ParseFrom(s, code, points + [Point(name, |code|)])
  {
    var digits := ToDecimal(name);
    var t := Marker(name) + s;
    assert t[1..] == digits + ("^" + s);
    DigitPrefixOfRun(digits, "^" + s);
    ValueOfToDecimal(name);
    assert t[2 + |digits|..] == s;
  }
}
