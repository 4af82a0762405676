/** Literals, identifiers and LIKE patterns printed by `SnowDDLFormatter`, and read back by SQL. */
module Formatter {
  import opened Basics

  // ---------------------------------------------------------------------------------------------
  // Printing
  // ---------------------------------------------------------------------------------------------

  /** `s.replace(c, text)` for a single character. */
  function Replace(s: string, c: char, text: string): string {
    if s == "" then "" else (if s[0] == c then text else [s[0]]) + Replace(s[1..], c, text)
  }

  lemma {:induction false} ReplaceConcat(a: string, b: string, c: char, text: string)
    ensures Replace(a + b, c, text) == Replace(a, c, text) + Replace(b, c, text)
  {
    if a == "" {
      assert a + b == b;
    } else {
      assert (a + b)[1..] == a[1..] + b;
      ReplaceConcat(a[1..], b, c, text);
    }
  }

  function Escape(s: string): string {
    Replace(Replace(s, '\'', "''"), '\\', "\\\\")
  }

  function Quote(val: Option<string>): string {
    if val.None? then "NULL" else "'" + Escape(val.value) + "'"
  }

  /** Raises an error for the empty string. */
  function EscapeIdent(s: string): Option<string> {
    if s == "" then None else Some(Replace(s, '"', "\"\""))
  }

  /** The core parts of an identifier, quoted and dotted. */
  function QuoteParts(parts: seq<string>): Option<string> {
    if parts == [] then Some("")
    else
      var head := EscapeIdent(parts[0]);
      var rest := QuoteParts(parts[1..]);
      if head.None? || rest.None? then None
      else Some("\"" + head.value + "\"" + (if |parts| == 1 then "" else ".") + rest.value)
  }

  function EscapeLike(s: string): string {
    Replace(Replace(s, '_', "\\_"), '%', "\\%")
  }

  function QuoteLikeFullMatch(v: string): string {
    Quote(Some(EscapeLike(v)))
  }

  function QuoteLikeStartsWith(v: string): string {
    Quote(Some(EscapeLike(v) + "%"))
  }

  function QuoteLikeEndsWith(v: string): string {
    Quote(Some("%" + EscapeLike(v)))
  }

  function QuoteLikeStartsEndsWith(a: string, b: string): string {
    Quote(Some(EscapeLike(a) + "%" + EscapeLike(b)))
  }

  // ---------------------------------------------------------------------------------------------
  // Reading: string literals
  // ---------------------------------------------------------------------------------------------

  function Unescape(c: char): char {
    match c
    case 'n' => '\n'
    case 't' => '\t'
    case 'r' => '\r'
    case '0' => '\0'
    case _ => c
  }

  /** The value of a single-quoted literal and the text after it; `s` starts after the opening quote. */
  function LexLiteral(s: string): Option<(string, string)> {
    if s == "" then None
    else if s[0] == '\'' && |s| > 1 && s[1] == '\'' then Prepend('\'', LexLiteral(s[2..]))
    else if s[0] == '\'' then Some(("", s[1..]))
    else if s[0] == '\\' then (if |s| == 1 then None else Prepend(Unescape(s[1]), LexLiteral(s[2..])))
    else Prepend(s[0], LexLiteral(s[1..]))
  }

  function Prepend(c: char, r: Option<(string, string)>): Option<(string, string)> {
    if r.None? then None else Some(([c] + r.value.0, r.value.1))
  }

  function LexQuoted(s: string): Option<(string, string)> {
    if s == "" || s[0] != '\'' then None else LexLiteral(s[1..])
  }

  predicate StartsWith(s: string, c: char) {
    s != "" && s[0] == c
  }

  /** Escaping works character by character. */
  lemma {:induction false} EscapeHead(s: string)
    requires s != ""
    ensures Escape(s) == (if s[0] == '\'' then "''" else if s[0] == '\\' then "\\\\" else [s[0]]) + Escape(s[1..])
  {
    var rest := Replace(s[1..], '\'', "''");
    var head := if s[0] == '\'' then "''" else [s[0]];
    assert Replace(s, '\'', "''") == head + rest;
    ReplaceConcat(head, rest, '\\', "\\\\");
    if s[0] == '\'' {
      assert head[1..] == "'" && head[1..][1..] == "";
    } else {
      assert head[1..] == "";
    }
  }

  lemma {:induction false} LexEscaped(s: string, rest: string)
    requires !StartsWith(rest, '\'')
    ensures LexLiteral(Escape(s) + "'" + rest) == Some((s, rest))
  {
    var text := Escape(s) + "'" + rest;
    if s == "" {
      assert text == "'" + rest;
      assert text[1..] == rest;
    } else {
      EscapeHead(s);
      LexEscaped(s[1..], rest);
      var tail := Escape(s[1..]) + "'" + rest;
      assert s == [s[0]] + s[1..];
      if s[0] == '\'' || s[0] == '\\' {
        assert text[2..] == tail;
      } else {
        assert text[1..] == tail;
      }
    }
  }

  /** A printed string, read back from any text that goes on with something else than a quote, is the
      same string, and nothing more is consumed. */
  lemma QuoteRoundTrip(s: string, rest: string)
    requires !StartsWith(rest, '\'')
    ensures LexQuoted(Quote(Some(s)) + rest) == Some((s, rest)) && Quote(None) == "NULL"
  {
    LexEscaped(s, rest);
    assert (Quote(Some(s)) + rest)[1..] == Escape(s) + "'" + rest;
  }

  // ---------------------------------------------------------------------------------------------
  // Reading: identifiers
  // ---------------------------------------------------------------------------------------------

  /** The value of a double-quoted identifier and the text after it; `s` starts after the quote. */
  function LexIdent(s: string): Option<(string, string)> {
    if s == "" then None
    else if s[0] == '"' && |s| > 1 && s[1] == '"' then Prepend('"', LexIdent(s[2..]))
    else if s[0] == '"' then Some(("", s[1..]))
    else Prepend(s[0], LexIdent(s[1..]))
  }

  lemma {:induction false} LexIdentShrinks(s: string)
    ensures LexIdent(s).Some? ==> |LexIdent(s).value.1| < |s|
  {
    if s != "" && s[0] == '"' && |s| > 1 && s[1] == '"' {
      LexIdentShrinks(s[2..]);
    } else if s != "" {
      LexIdentShrinks(s[1..]);
    }
  }

  /** Dotted double-quoted identifiers, and the text after them. */
  function LexDotted(s: string): Option<(seq<string>, string)>
    decreases |s|
  {
    if !StartsWith(s, '"') then None
    else
      var first := LexIdent(s[1..]);
      LexIdentShrinks(s[1..]);
      if first.None? then None
      else if StartsWith(first.value.1, '.') then
        var others := LexDotted(first.value.1[1..]);
        if others.None? then None else Some(([first.value.0] + others.value.0, others.value.1))
      else Some(([first.value.0], first.value.1))
  }

  lemma {:induction false} LexEscapedIdent(s: string, rest: string)
    requires !StartsWith(rest, '"')
    ensures LexIdent(Replace(s, '"', "\"\"") + "\"" + rest) == Some((s, rest))
  {
    var text := Replace(s, '"', "\"\"") + "\"" + rest;
    if s == "" {
      assert text == "\"" + rest;
      assert text[1..] == rest;
    } else {
      LexEscapedIdent(s[1..], rest);
      var tail := Replace(s[1..], '"', "\"\"") + "\"" + rest;
      assert s == [s[0]] + s[1..];
      if s[0] == '"' {
        assert text[2..] == tail;
      } else {
        assert text[1..] == tail;
      }
    }
  }

  lemma {:induction false} QuotedWhenNamed(parts: seq<string>)
    ensures "" in parts <==> QuoteParts(parts).None?
  {
    if parts != [] {
      assert parts == [parts[0]] + parts[1..];
      QuotedWhenNamed(parts[1..]);
    }
  }

  /** Reading one quoted part and what comes after it. */
  lemma LexDottedHead(part: string, after: string)
    requires !StartsWith(after, '"')
    ensures var text := "\"" + Replace(part, '"', "\"\"") + "\"" + after;
      LexDotted(text) ==
        if !StartsWith(after, '.') then Some(([part], after))
        else if LexDotted(after[1..]).None? then None
        else Some(([part] + LexDotted(after[1..]).value.0, LexDotted(after[1..]).value.1))
  {
    var text := "\"" + Replace(part, '"', "\"\"") + "\"" + after;
    assert text[1..] == Replace(part, '"', "\"\"") + "\"" + after;
    LexEscapedIdent(part, after);
  }

  /** Printed identifiers read back as their parts, and no identifier has an empty part. */
  lemma {:induction false} IdentRoundTrip(parts: seq<string>, rest: string)
    requires parts != [] && !StartsWith(rest, '"') && !StartsWith(rest, '.')
    ensures "" in parts <==> QuoteParts(parts).None?
    ensures "" !in parts ==> LexDotted(QuoteParts(parts).value + rest) == Some((parts, rest))
  {
    QuotedWhenNamed(parts);
    QuotedWhenNamed(parts[1..]);
    if "" !in parts {
      var text := QuoteParts(parts).value + rest;
      var head := "\"" + Replace(parts[0], '"', "\"\"") + "\"";
      if |parts| == 1 {
        assert QuoteParts(parts).value == head && parts == [parts[0]];
        LexDottedHead(parts[0], rest);
      } else {
        IdentRoundTrip(parts[1..], rest);
        var after := "." + QuoteParts(parts[1..]).value + rest;
        assert QuoteParts(parts).value == head + "." + QuoteParts(parts[1..]).value;
        assert text == head + after && after[1..] == QuoteParts(parts[1..]).value + rest;
        LexDottedHead(parts[0], after);
        assert parts == [parts[0]] + parts[1..];
      }
    }
  }

  // ---------------------------------------------------------------------------------------------
  // Reading: LIKE
  // ---------------------------------------------------------------------------------------------

  /** LIKE with the backslash as escape character.  A pattern that ends in an escape matches nothing. */
  predicate Like(p: string, s: string)
    decreases |p| + |s|
  {
    if p == "" then s == ""
    else if p[0] == '%' then Like(p[1..], s) || (s != "" && Like(p, s[1..]))
    else if s == "" then false
    else if p[0] == '_' then Like(p[1..], s[1..])
    else if p[0] == '\\' then |p| > 1 && s[0] == p[1] && Like(p[2..], s[1..])
    else s[0] == p[0] && Like(p[1..], s[1..])
  }

  function LikeChar(c: char): string {
    if c == '_' then "\\_" else if c == '%' then "\\%" else [c]
  }

  lemma EscapeLikeHead(s: string)
    requires s != ""
    ensures EscapeLike(s) == LikeChar(s[0]) + EscapeLike(s[1..])
  {
    var rest := Replace(s[1..], '_', "\\_");
    var head := if s[0] == '_' then "\\_" else [s[0]];
    assert Replace(s, '_', "\\_") == head + rest;
    ReplaceConcat(head, rest, '%', "\\%");
    if s[0] == '_' {
      assert head[1..] == "_" && head[1..][1..] == "";
    } else {
      assert head[1..] == "";
    }
  }

  /** An escaped character matches itself, unless it is a backslash. */
  lemma LikeHead(c: char, p: string, s: string)
    requires c != '\\'
    ensures Like(LikeChar(c) + p, s) <==> s != "" && s[0] == c && Like(p, s[1..])
  {
    var q := LikeChar(c) + p;
    if c == '_' || c == '%' {
      assert q[2..] == p;
    } else {
      assert q[1..] == p;
    }
  }

  lemma {:induction false} LikePercent(p: string, x: string, y: string)
    requires Like(p, y)
    ensures Like("%" + p, x + y)
  {
    assert ("%" + p)[1..] == p;
    if x == "" {
      assert x + y == y;
    } else {
      assert (x + y)[1..] == x[1..] + y;
      LikePercent(p, x[1..], y);
    }
  }

  lemma {:induction false} LikeAfterPercent(p: string, s: string) returns (k: nat)
    requires Like("%" + p, s)
    ensures k <= |s| && Like(p, s[k..])
  {
    assert ("%" + p)[1..] == p;
    if Like(p, s) {
      k := 0;
      assert s[0..] == s;
    } else {
      k := LikeAfterPercent(p, s[1..]);
      k := k + 1;
      assert s[1..][k - 1..] == s[k..];
    }
  }

  lemma PrefixHead(v: string, s: string)
    requires v != "" && s != ""
    ensures v <= s <==> v[0] == s[0] && v[1..] <= s[1..]
    ensures v <= s ==> s[1..][|v| - 1..] == s[|v|..]
  {
    assert v == [v[0]] + v[1..] && s == [s[0]] + s[1..];
  }

  /** A value without backslashes, followed by more of a pattern. */
  lemma {:induction false} LikeEscaped(v: string, p: string, s: string)
    requires '\\' !in v
    ensures Like(EscapeLike(v) + p, s) <==> v <= s && Like(p, s[|v|..])
  {
    if v == "" {
      assert EscapeLike(v) + p == p && s[0..] == s;
    } else {
      EscapeLikeHead(v);
      Associate(LikeChar(v[0]), EscapeLike(v[1..]), p);
      LikeHead(v[0], EscapeLike(v[1..]) + p, s);
      if s != "" {
        LikeEscaped(v[1..], p, s[1..]);
        PrefixHead(v, s);
      }
    }
  }

  // ---------------------------------------------------------------------------------------------
  // What the four forms select
  // ---------------------------------------------------------------------------------------------

  predicate EndsWith(s: string, v: string) {
    |v| <= |s| && s[|s| - |v|..] == v
  }

  /** Starts with `a`, ends with `b`, and the two do not overlap. */
  predicate Brackets(a: string, b: string, s: string) {
    a <= s && |a| + |b| <= |s| && EndsWith(s, b)
  }

  /** The pattern that SQL reads from the printed literal. */
  function PatternOf(literal: string): string {
    var r := LexQuoted(literal);
    if r.None? then "" else r.value.0
  }

  ghost predicate Selects(literal: string, wanted: string -> bool) {
    forall s :: Like(PatternOf(literal), s) <==> wanted(s)
  }

  lemma PatternIs(p: string)
    ensures PatternOf(Quote(Some(p))) == p
  {
    QuoteRoundTrip(p, "");
    assert Quote(Some(p)) + "" == Quote(Some(p));
  }

  lemma LikePlain(v: string, s: string)
    requires '\\' !in v
    ensures Like(EscapeLike(v), s) <==> s == v
  {
    assert EscapeLike(v) + "" == EscapeLike(v);
    LikeEscaped(v, "", s);
    assert v <= s && s[|v|..] == "" ==> s == v + s[|v|..];
    assert s == v ==> s[|v|..] == "";
  }

  lemma {:induction false} LikeAnything(s: string)
    ensures Like("%", s)
  {
    assert "%"[1..] == "";
    if s != "" {
      LikeAnything(s[1..]);
    }
  }

  lemma LikeSuffix(v: string, s: string)
    requires '\\' !in v
    ensures Like("%" + EscapeLike(v), s) <==> EndsWith(s, v)
  {
    if Like("%" + EscapeLike(v), s) {
      var k := LikeAfterPercent(EscapeLike(v), s);
      LikePlain(v, s[k..]);
      assert |s| - |v| == k;
    }
    if EndsWith(s, v) {
      LikePlain(v, v);
      LikePercent(EscapeLike(v), s[..|s| - |v|], v);
      assert s == s[..|s| - |v|] + v;
    }
  }

  lemma LikeBrackets(a: string, b: string, s: string)
    requires '\\' !in a && '\\' !in b
    ensures Like(EscapeLike(a) + "%" + EscapeLike(b), s) <==> Brackets(a, b, s)
  {
    assert EscapeLike(a) + "%" + EscapeLike(b) == EscapeLike(a) + ("%" + EscapeLike(b));
    LikeEscaped(a, "%" + EscapeLike(b), s);
    if a <= s {
      LikeSuffix(b, s[|a|..]);
      assert |a| + |b| <= |s| ==> s[|a|..][|s| - |a| - |b|..] == s[|s| - |b|..];
    }
  }

  // ---------------------------------------------------------------------------------------------
  // With a backslash in the value no form selects what it should
  // ---------------------------------------------------------------------------------------------

  /** Some string no longer than `v`, and other than `v` if that has a backslash, matches its escaped
      form, if any string does. */
  lemma {:induction false} ShortMatch(v: string, w: string) returns (x: string)
    requires Like(EscapeLike(v), w)
    ensures Like(EscapeLike(v), x) && |x| <= |v|
    ensures '\\' in v ==> x != v
    decreases |v|
  {
    if v == "" {
      x := "";
    } else {
      var c, rest := v[0], v[1..];
      var p := EscapeLike(v);
      EscapeLikeHead(v);
      assert v == [c] + rest;
      if c != '\\' {
        LikeHead(c, EscapeLike(rest), w);
        var y := ShortMatch(rest, w[1..]);
        x := [c] + y;
        assert x[1..] == y;
        LikeHead(c, EscapeLike(rest), x);
      } else if rest != "" {
        x := ShortMatchEscape(v, w);
      }
    }
  }

  lemma EscapeLikeTwo(v: string)
    requires |v| > 1 && v[0] == '\\'
    ensures EscapeLike(v) == "\\" + LikeChar(v[1]) + EscapeLike(v[2..])
  {
    var rest := v[1..];
    assert EscapeLike(v) == "\\" + EscapeLike(rest) by {
      EscapeLikeHead(v);
    }
    assert EscapeLike(rest) == LikeChar(v[1]) + EscapeLike(v[2..]) by {
      EscapeLikeHead(rest);
      assert rest[1..] == v[2..];
    }
    Associate("\\", LikeChar(v[1]), EscapeLike(v[2..]));
  }

  lemma Associate(a: string, b: string, c: string)
    ensures a + (b + c) == a + b + c
  {
  }

  /** A backslash in a value escapes what stands for the next character `d`: a match of the rest, `y`,
      becomes one of the whole. */
  lemma LikeBackslash(d: char, p: string, y: string) returns (x: string)
    requires Like(p, y)
    ensures Like("\\" + LikeChar(d) + p, x + y) && |x| <= 2 && (|x| == 2 ==> x == "\\a" && d == '_')
  {
    var q := "\\" + LikeChar(d) + p;
    if d == '_' {
      x := "\\a";
      assert q[2..] == "_" + p && q[2..][1..] == p;
      assert (x + y)[1..] == "a" + y && (x + y)[1..][1..] == y;
    } else if d == '%' {
      x := "\\";
      assert q[2..] == "%" + p && (x + y)[1..] == y && "" + y == y;
      LikePercent(p, "", y);
    } else {
      x := [d];
      assert q[2..] == p && (x + y)[1..] == y;
    }
  }

  lemma LikeBackslashRest(d: char, p: string, s: string) returns (k: nat)
    requires Like("\\" + LikeChar(d) + p, s)
    ensures k <= |s| && Like(p, s[k..])
  {
    var q := "\\" + LikeChar(d) + p;
    if d == '_' {
      assert q[2..] == "_" + p && q[2..][1..] == p;
      assert s[1..][1..] == s[2..];
      k := 2;
    } else if d == '%' {
      assert q[2..] == "%" + p;
      k := LikeAfterPercent(p, s[1..]);
      assert s[1..][k..] == s[k + 1..];
      k := k + 1;
    } else {
      assert q[2..] == p;
      k := 1;
    }
  }

  lemma {:induction false} ShortMatchEscape(v: string, w: string) returns (x: string)
    requires |v| > 1 && v[0] == '\\' && Like(EscapeLike(v), w)
    ensures Like(EscapeLike(v), x) && |x| <= |v| && x != v
    decreases |v|, 0
  {
    EscapeLikeTwo(v);
    var k := LikeBackslashRest(v[1], EscapeLike(v[2..]), w);
    var y := ShortMatch(v[2..], w[k..]);
    var head := LikeBackslash(v[1], EscapeLike(v[2..]), y);
    x := head + y;
    assert |head| == 2 ==> x[1] == 'a';
  }

  /** The same before a percent sign, whatever follows it: here there always is a match. */
  lemma {:induction false} ShortPrefix(v: string, q: string, y: string) returns (x: string)
    requires Like(q, y)
    ensures Like(EscapeLike(v) + "%" + q, x + y) && |x| <= |v|
    ensures '\\' in v ==> x != v
    decreases |v|
  {
    var p := EscapeLike(v) + "%" + q;
    if v == "" {
      x := "";
      assert p == "%" + q && x + y == y;
      LikePercent(q, "", y);
    } else {
      var c, rest := v[0], v[1..];
      EscapeLikeHead(v);
      assert v == [c] + rest;
      var after := EscapeLike(rest) + "%" + q;
      assert p == LikeChar(c) + after;
      if c != '\\' {
        var z := ShortPrefix(rest, q, y);
        x := [c] + z;
        assert (x + y)[1..] == z + y;
        LikeHead(c, after, x + y);
      } else if rest == "" {
        x := "%";
        assert p == "\\%" + q && p[2..] == q && (x + y)[1..] == y;
      } else {
        x := ShortPrefixEscape(v, q, y);
      }
    }
  }

  lemma {:induction false} ShortPrefixEscape(v: string, q: string, y: string) returns (x: string)
    requires |v| > 1 && v[0] == '\\' && Like(q, y)
    ensures Like(EscapeLike(v) + "%" + q, x + y) && |x| <= |v| && x != v
    decreases |v|, 0
  {
    EscapeLikeTwo(v);
    var z := ShortPrefix(v[2..], q, y);
    var after := EscapeLike(v[2..]) + "%" + q;
    var head := LikeBackslash(v[1], after, z + y);
    assert EscapeLike(v) + "%" + q == "\\" + LikeChar(v[1]) + after;
    x := head + z;
    assert x + y == head + (z + y);
    assert |head| == 2 ==> x[1] == 'a';
  }

  // ---------------------------------------------------------------------------------------------
  // The forms select what they are for, exactly when the values have no backslash
  // ---------------------------------------------------------------------------------------------

  lemma FullMatchSelects(v: string)
    ensures Selects(QuoteLikeFullMatch(v), s => s == v) <==> '\\' !in v
  {
    PatternIs(EscapeLike(v));
    if '\\' !in v {
      forall s
        ensures Like(EscapeLike(v), s) <==> s == v
      {
        LikePlain(v, s);
      }
    } else if Like(EscapeLike(v), v) {
      var x := ShortMatch(v, v);
    }
  }

  lemma StartsWithSelects(v: string)
    ensures Selects(QuoteLikeStartsWith(v), s => v <= s) <==> '\\' !in v
  {
    PatternIs(EscapeLike(v) + "%");
    if '\\' !in v {
      forall s
        ensures Like(EscapeLike(v) + "%", s) <==> v <= s
      {
        LikeEscaped(v, "%", s);
        if v <= s {
          LikeAnything(s[|v|..]);
        }
      }
    } else {
      var x := ShortPrefix(v, "", "");
      assert EscapeLike(v) + "%" + "" == EscapeLike(v) + "%" && x + "" == x;
      assert v <= x ==> v == x;
    }
  }

  lemma EndsWithSelects(v: string)
    ensures Selects(QuoteLikeEndsWith(v), s => EndsWith(s, v)) <==> '\\' !in v
  {
    PatternIs("%" + EscapeLike(v));
    if '\\' !in v {
      forall s
        ensures Like("%" + EscapeLike(v), s) <==> EndsWith(s, v)
      {
        LikeSuffix(v, s);
      }
    } else if Like("%" + EscapeLike(v), v) {
      var k := LikeAfterPercent(EscapeLike(v), v);
      var x := ShortMatch(v, v[k..]);
      LikePercent(EscapeLike(v), "", x);
      assert "" + x == x;
      assert EndsWith(x, v) ==> x == v;
    } else {
      assert EndsWith(v, v);
    }
  }

  lemma ShortBrackets(a: string, b: string, x: string, y: string)
    requires |x| <= |a| && |y| <= |b|
    ensures Brackets(a, b, x + y) ==> x == a && y == b
  {
    if Brackets(a, b, x + y) {
      assert |x| == |a| && |y| == |b|;
      assert x == (x + y)[..|a|] && y == (x + y)[|x + y| - |b|..];
    }
  }

  lemma StartsEndsWithSelects(a: string, b: string)
    ensures Selects(QuoteLikeStartsEndsWith(a, b), s => Brackets(a, b, s)) <==> '\\' !in a && '\\' !in b
  {
    var p := EscapeLike(a) + "%" + EscapeLike(b);
    PatternIs(p);
    if '\\' !in a && '\\' !in b {
      forall s
        ensures Like(p, s) <==> Brackets(a, b, s)
      {
        LikeBrackets(a, b, s);
      }
    } else {
      assert (a + b)[|a + b| - |b|..] == b;
      assert Brackets(a, b, a + b);
      if Like(p, a + b) {
        var w := LastMatch(EscapeLike(a), EscapeLike(b), a + b);
        var y := ShortMatch(b, w);
        var x := ShortPrefix(a, EscapeLike(b), y);
        ShortBrackets(a, b, x, y);
      }
    }
  }

  /** What matches a pattern with a percent sign ends in a match of the part after it, unless that
      sign is escaped. */
  lemma {:induction false} LastMatch(p: string, q: string, s: string) returns (w: string)
    requires Like(p + "%" + q, s)
    ensures Like(q, w)
    decreases |p| + |s|
  {
    var r := p + "%" + q;
    if p == "" {
      assert r == "%" + q;
      var k := LikeAfterPercent(q, s);
      w := s[k..];
    } else if p[0] == '%' {
      assert r[1..] == p[1..] + "%" + q;
      if Like(r[1..], s) {
        w := LastMatch(p[1..], q, s);
      } else {
        w := LastMatch(p, q, s[1..]);
      }
    } else if p[0] == '\\' {
      if |p| == 1 {
        assert r[2..] == q;
        w := s[1..];
      } else {
        assert r[2..] == p[2..] + "%" + q;
        w := LastMatch(p[2..], q, s[1..]);
      }
    } else {
      assert r[1..] == p[1..] + "%" + q;
      w := LastMatch(p[1..], q, s[1..]);
    }
  }
}
