/** The few string operations the printers and scanners rely on. */
module Strings {

  predicate Free(s: string, c: char) {
    c !in s
  }

  /** `sep.join(parts)`. */
  function Join(parts: seq<string>, sep: char): string {
    if parts == [] then ""
    else if |parts| == 1 then parts[0]
    else parts[0] + [sep] + Join(parts[1..], sep)
  }

  /** `s.removeprefix(prefix)`. */
  function RemovePrefix(s: string, prefix: string): string {
    if prefix <= s then s[|prefix|..] else s
  }

  function UpperChar(c: char): char {
    if 'a' <= c <= 'z' then c - ' ' else c
  }

  /** `s.upper()`. */
  function Upper(s: string): (r: string)
    ensures |r| == |s|
  {
    if s == "" then "" else [UpperChar(s[0])] + Upper(s[1..])
  }

  lemma {:induction false} UpperTwice(s: string)
    ensures Upper(Upper(s)) == Upper(s)
  {
    if s != "" {
      UpperTwice(s[1..]);
      assert Upper(s)[1..] == Upper(s[1..]);
    }
  }

  lemma {:induction false} UpperOfUpper(s: string)
    requires forall i | 0 <= i < |s| :: UpperChar(s[i]) == s[i]
    ensures Upper(s) == s
  {
    if s != "" {
      UpperOfUpper(s[1..]);
    }
  }

  function LowerChar(c: char): char {
    if 'A' <= c <= 'Z' then c + ' ' else c
  }

  /** `s.lower()`. */
  function Lower(s: string): string {
    if s == "" then "" else [LowerChar(s[0])] + Lower(s[1..])
  }

  lemma {:induction false} LowerTwice(s: string)
    ensures Lower(Lower(s)) == Lower(s)
  {
    if s != "" {
      LowerTwice(s[1..]);
      assert Lower(s)[1..] == Lower(s[1..]);
    }
  }

  lemma {:induction false} LowerOfLower(s: string)
    requires forall i | 0 <= i < |s| :: LowerChar(s[i]) == s[i]
    ensures Lower(s) == s
  {
    if s != "" {
      LowerOfLower(s[1..]);
    }
  }

  const SMALL := "abcdefghijklmnopqrstuvwxyz"
  const CAPITAL := "ABCDEFGHIJKLMNOPQRSTUVWXYZ"

  /** Letters have a case, and other characters stay as they are. */
  lemma CasesOfLetters(c: char)
    ensures forall k | 0 <= k < 26 :: UpperChar(SMALL[k]) == CAPITAL[k] && LowerChar(CAPITAL[k]) == SMALL[k]
    ensures (c !in SMALL ==> UpperChar(c) == c) && (c !in CAPITAL ==> LowerChar(c) == c)
  {
    assert forall k | 0 <= k < 26 :: SMALL[k] == 'a' + k as char && CAPITAL[k] == 'A' + k as char;
    if 'a' <= c <= 'z' {
      assert SMALL[(c - 'a') as int] == c;
    }
    if 'A' <= c <= 'Z' {
      assert CAPITAL[(c - 'A') as int] == c;
    }
  }

  /** White space, as far as ASCII goes. */
  predicate Space(c: char) {
    c == ' ' || '\t' <= c <= '\r'
  }

  /** Blank, tabs, line feed, form feed and carriage return. */
  lemma SpacesAre(c: char)
    ensures Space(c) <==> c in [' ', '\t', '\n', 11 as char, 12 as char, '\r']
  {
  }

  function SkipSpaces(s: string): (r: string)
    ensures |r| <= |s|
  {
    if s != "" && Space(s[0]) then SkipSpaces(s[1..]) else s
  }

  /** `s.strip()`. */
  function Strip(s: string): string {
    StripEnd(SkipSpaces(s))
  }

  function StripEnd(s: string): string {
    if s != "" && Space(s[|s| - 1]) then StripEnd(s[..|s| - 1]) else s
  }

  lemma {:induction false} StartStripped(s: string) returns (a: string)
    ensures s == a + SkipSpaces(s) && forall c | c in a :: Space(c)
    ensures SkipSpaces(s) != "" ==> !Space(SkipSpaces(s)[0])
  {
    a := "";
    if s != "" && Space(s[0]) {
      a := StartStripped(s[1..]);
      a := [s[0]] + a;
    }
  }

  lemma {:induction false} EndStripped(s: string) returns (b: string)
    ensures s == StripEnd(s) + b && forall c | c in b :: Space(c)
    ensures StripEnd(s) != "" ==> !Space(StripEnd(s)[|StripEnd(s)| - 1])
    decreases |s|
  {
    b := "";
    if s != "" && Space(s[|s| - 1]) {
      b := EndStripped(s[..|s| - 1]);
      b := b + [s[|s| - 1]];
    }
  }

  /** White space is taken off at both ends, and nothing else is. */
  lemma StripExactly(s: string) returns (a: string, b: string)
    ensures s == a + Strip(s) + b && forall c | c in a + b :: Space(c)
    ensures Strip(s) != "" ==> !Space(Strip(s)[0]) && !Space(Strip(s)[|Strip(s)| - 1])
  {
    a := StartStripped(s);
    b := EndStripped(SkipSpaces(s));
    assert a + (Strip(s) + b) == a + Strip(s) + b;
  }

  /** The part of `s` before the first `c`: `s.partition(c)[0]`. */
  function Before(s: string, c: char): (r: string)
    ensures r <= s && Free(r, c) && (|r| < |s| ==> s[|r|] == c)
  {
    if s == "" || s[0] == c then "" else [s[0]] + Before(s[1..], c)
  }

  /** `s.split(sep)`. */
  function Split(s: string, sep: char): (parts: seq<string>)
    ensures |parts| > 0 && forall p | p in parts :: Free(p, sep)
    decreases |s|
  {
    var head := Before(s, sep);
    if head == s then [s] else [head] + Split(s[|head| + 1..], sep)
  }

  lemma {:induction false} BeforeConcat(a: string, b: string, c: char)
    requires Free(a, c)
    ensures Before(a + b, c) == a + Before(b, c)
  {
    if a == "" {
      assert a + b == b;
    } else {
      assert (a + b)[1..] == a[1..] + b;
      BeforeConcat(a[1..], b, c);
    }
  }

  lemma {:induction false} JoinFree(parts: seq<string>, sep: char, c: char)
    requires sep != c && forall p | p in parts :: Free(p, c)
    ensures Free(Join(parts, sep), c)
  {
    if |parts| > 0 {
      assert Free(parts[0], c);
    }
    if |parts| > 1 {
      JoinFree(parts[1..], sep, c);
    }
  }

  lemma JoinStarts(parts: seq<string>, sep: char)
    requires parts != []
    ensures parts[0] <= Join(parts, sep)
    ensures |parts[0]| < |Join(parts, sep)| ==> Join(parts, sep)[|parts[0]|] == sep
  {
    if |parts| > 1 {
      assert Join(parts, sep) == parts[0] + ([sep] + Join(parts[1..], sep));
    }
  }

  /** Splitting a join gives the parts back, so joining is injective on parts without separators. */
  lemma {:induction false} SplitJoin(parts: seq<string>, sep: char)
    requires |parts| > 0 && forall p | p in parts :: Free(p, sep)
    ensures Split(Join(parts, sep), sep) == parts
  {
    var s := Join(parts, sep);
    if |parts| == 1 {
      BeforeConcat(s, "", sep);
      assert s + "" == s;
    } else {
      var rest := [sep] + Join(parts[1..], sep);
      assert s == parts[0] + rest;
      assert Free(parts[0], sep);
      BeforeConcat(parts[0], rest, sep);
      assert Before(rest, sep) == "";
      assert parts[0] + "" == parts[0];
      assert parts == [parts[0]] + parts[1..];
      assert s[|parts[0]| + 1..] == Join(parts[1..], sep);
      SplitJoin(parts[1..], sep);
    }
  }
}
