/** The three `llvm::StringRef` operations the test harness relies on, over
    strings as sequences of characters: `take_until`, `rtrim` and `substr`. */
module StringRef {

  /** `take_until` with the predicate "is `stop`": the prefix of `s` before
      the first occurrence of `stop`, or all of `s` when there is none. */
  function TakeUntil(s: string, stop: char): (r: string)
    ensures r <= s
    ensures stop !in r
    ensures |r| == |s| || s[|r|] == stop
  {
    if s == [] || s[0] == stop then [] else [s[0]] + TakeUntil(s[1..], stop)
  }

  /** A string without `stop` is kept whole. */
  lemma {:induction false} TakeUntilAbsent(s: string, stop: char)
    requires stop !in s
    ensures TakeUntil(s, stop) == s
  {
    if s != [] {
      TakeUntilAbsent(s[1..], stop);
    }
  }

  /** The cut falls exactly at the first `stop`, whatever follows it. */
  lemma {:induction false} TakeUntilStops(line: string, stop: char, rest: string)
    requires stop !in line
    ensures TakeUntil(line + [stop] + rest, stop) == line
  {
    if line != [] {
      assert (line + [stop] + rest)[1..] == line[1..] + [stop] + rest;
      TakeUntilStops(line[1..], stop, rest);
    }
  }

  /** `rtrim(Chars)`: drops every trailing character that is in `chars`. */
  function RTrim(s: string, chars: set<char>): (r: string)
    ensures r <= s
    ensures r == [] || r[|r| - 1] !in chars
    ensures forall i :: |r| <= i < |s| ==> s[i] in chars
  {
    if s != [] && s[|s| - 1] in chars then RTrim(s[..|s| - 1], chars) else s
  }

  /** The contract of `RTrim` determines its result: any prefix that ends
      outside `chars` and is followed only by characters of `chars` is it. */
  lemma RTrimUnique(s: string, chars: set<char>, t: string)
    requires t <= s
    requires t == [] || t[|t| - 1] !in chars
    requires forall i :: |t| <= i < |s| ==> s[i] in chars
    ensures t == RTrim(s, chars)
  {
  }

  /** Trimming a second time with the same characters changes nothing. */
  lemma RTrimIdempotent(s: string, chars: set<char>)
    ensures RTrim(RTrim(s, chars), chars) == RTrim(s, chars)
  {
  }

  /** `substr(Start, N)`: `Start` is clamped to the length and at most `N`
      characters are taken, so it never fails. `substr(Start)` is the case
      `N == |s|` (`npos`). */
  function Substr(s: string, start: nat, n: nat): (r: string)
    ensures |r| <= n
    ensures start + n <= |s| ==> r == s[start..start + n]
    ensures start <= |s| <= start + n ==> r == s[start..]
    ensures |s| <= start ==> r == []
  {
    var b := if start <= |s| then start else |s|;
    var e := if n <= |s| - b then b + n else |s|;
    s[b..e]
  }
}
