/** CHECK constraints read back from the DDL text of a table: `parse_check_constraints`. */
module CheckConstraints {
  import opened Basics
  import opened Formatter
  import opened Strings

  predicate WordStart(c: char) {
    'a' <= LowerChar(c) <= 'z' || c == '_'
  }

  predicate WordChar(c: char) {
    WordStart(c) || '0' <= c <= '9' || c == '$'
  }

  // ---------------------------------------------------------------------------------------------
  // The clause pattern
  // ---------------------------------------------------------------------------------------------

  /** What follows the word `w`, in whatever case. */
  function AfterWord(s: string, w: string): (r: Option<string>)
    ensures r.Some? ==> |r.value| + |w| == |s|
    decreases |w|
  {
    if w == "" then Some(s)
    else if s != "" && LowerChar(s[0]) == w[0] then AfterWord(s[1..], w[1..])
    else None
  }

  /** A name as it stands in the text, and what follows it. */
  datatype Split = Split(name: string, rest: string)

  function Prefixed(name: string, r: Option<Split>): Option<Split> {
    if r.None? then None else Some(Split(name + r.value.name, r.value.rest))
  }

  /** The longest run of word characters. */
  function SplitWord(s: string): (r: Split)
    ensures |r.name| + |r.rest| == |s|
  {
    if s != "" && WordChar(s[0]) then
      var r := SplitWord(s[1..]);
      Split([s[0]] + r.name, r.rest)
    else Split("", s)
  }

  /** Up to and with the first quote that is not one of a pair. */
  function SplitQuoted(s: string): (r: Option<Split>)
    ensures r.Some? ==> |r.value.name| + |r.value.rest| == |s|
  {
    if s == "" then None
    else if s[0] == '"' then
      if |s| > 1 && s[1] == '"' then Prefixed("\"\"", SplitQuoted(s[2..])) else Some(Split("\"", s[1..]))
    else Prefixed([s[0]], SplitQuoted(s[1..]))
  }

  /** The name group of the pattern: something quoted, or a word. */
  function SplitName(s: string): (r: Option<Split>)
    ensures r.Some? ==> |r.value.name| + |r.value.rest| == |s|
  {
    if s == "" then None
    else if s[0] == '"' then
      var r := Prefixed("\"", SplitQuoted(s[1..]));
      if r.None? || r.value.name == "\"\"" then None else r
    else if WordStart(s[0]) then Some(SplitWord(s))
    else None
  }

  function AfterGap(s: string): (r: Option<string>)
    ensures r.Some? ==> |r.value| < |s|
  {
    if s != "" && Space(s[0]) then Some(SkipSpaces(s[1..])) else None
  }

  function AfterParenthesis(s: string): (r: Option<string>)
    ensures r.Some? ==> |r.value| < |s|
  {
    if s != "" && s[0] == '(' then Some(s[1..]) else None
  }

  function AfterCheck(s: string): (r: Option<string>)
    ensures r.Some? ==> |r.value| < |s|
  {
    var s1 := AfterGap(s);
    var s2 := if s1.None? then None else AfterWord(s1.value, "check");
    if s2.None? then None else AfterParenthesis(SkipSpaces(s2.value))
  }

  /** The pattern at the start of `s`: the name group, and what follows the opening parenthesis. */
  function Head(s: string): (r: Option<Split>)
    ensures r.Some? ==> |r.value.rest| < |s|
  {
    var s1 := AfterWord(s, "constraint");
    var s2 := if s1.None? then None else AfterGap(s1.value);
    var named := if s2.None? then None else SplitName(s2.value);
    var rest := if named.None? then None else AfterCheck(named.value.rest);
    if rest.None? then None else Some(Split(named.value.name, rest.value))
  }

  predicate Suffix(t: string, s: string) {
    |t| <= |s| && s[|s| - |t|..] == t
  }

  lemma SuffixTrans(r: string, t: string, s: string)
    requires Suffix(r, t) && Suffix(t, s)
    ensures Suffix(r, s)
  {
    assert t[|t| - |r|..] == s[|s| - |t|..][|t| - |r|..];
  }

  lemma SuffixTail(t: string, s: string, n: nat)
    requires n <= |s| && Suffix(t, s[n..])
    ensures Suffix(t, s)
  {
    assert s[n..][|s[n..]| - |t|..] == s[|s| - |t|..];
  }

  lemma {:induction false} AfterWordSuffix(s: string, w: string)
    ensures AfterWord(s, w).Some? ==> Suffix(AfterWord(s, w).value, s)
    decreases |w|
  {
    if w != "" && s != "" && AfterWord(s, w).Some? {
      AfterWordSuffix(s[1..], w[1..]);
      SuffixTail(AfterWord(s, w).value, s, 1);
    }
  }

  lemma {:induction false} SkipSpacesSuffix(s: string)
    ensures Suffix(SkipSpaces(s), s)
  {
    if s != "" && Space(s[0]) {
      SkipSpacesSuffix(s[1..]);
      SuffixTail(SkipSpaces(s), s, 1);
    }
  }

  lemma {:induction false} SplitWordSuffix(s: string)
    ensures Suffix(SplitWord(s).rest, s)
  {
    if s != "" && WordChar(s[0]) {
      SplitWordSuffix(s[1..]);
      SuffixTail(SplitWord(s).rest, s, 1);
    }
  }

  lemma {:induction false} SplitQuotedSuffix(s: string)
    ensures SplitQuoted(s).Some? ==> Suffix(SplitQuoted(s).value.rest, s)
  {
    if SplitQuoted(s).Some? {
      if s[0] == '"' && |s| > 1 && s[1] == '"' {
        SplitQuotedSuffix(s[2..]);
        SuffixTail(SplitQuoted(s).value.rest, s, 2);
      } else if s[0] != '"' {
        SplitQuotedSuffix(s[1..]);
        SuffixTail(SplitQuoted(s).value.rest, s, 1);
      }
    }
  }

  lemma SplitNameSuffix(s: string)
    ensures SplitName(s).Some? ==> Suffix(SplitName(s).value.rest, s)
  {
    if SplitName(s).Some? {
      if s[0] == '"' {
        SplitQuotedSuffix(s[1..]);
        SuffixTail(SplitName(s).value.rest, s, 1);
      } else {
        SplitWordSuffix(s);
      }
    }
  }

  lemma AfterGapSuffix(s: string)
    ensures AfterGap(s).Some? ==> Suffix(AfterGap(s).value, s)
  {
    if AfterGap(s).Some? {
      SkipSpacesSuffix(s[1..]);
      SuffixTail(AfterGap(s).value, s, 1);
    }
  }

  lemma AfterParenthesisSuffix(s: string)
    ensures AfterParenthesis(s).Some? ==> Suffix("(" + AfterParenthesis(s).value, s)
  {
  }

  lemma AfterCheckSuffix(s: string)
    ensures AfterCheck(s).Some? ==> Suffix("(" + AfterCheck(s).value, s)
  {
    if AfterCheck(s).Some? {
      var s1 := AfterGap(s).value;
      var s2 := AfterWord(s1, "check").value;
      AfterGapSuffix(s);
      AfterWordSuffix(s1, "check");
      SkipSpacesSuffix(s2);
      AfterParenthesisSuffix(SkipSpaces(s2));
      SuffixTrans("(" + AfterCheck(s).value, SkipSpaces(s2), s2);
      SuffixTrans("(" + AfterCheck(s).value, s2, s1);
      SuffixTrans("(" + AfterCheck(s).value, s1, s);
    }
  }

  lemma HeadSuffix(s: string)
    ensures Head(s).Some? ==> Suffix("(" + Head(s).value.rest, s)
  {
    if Head(s).Some? {
      var s1 := AfterWord(s, "constraint").value;
      var s2 := AfterGap(s1).value;
      var s3 := SplitName(s2).value.rest;
      var rest := "(" + Head(s).value.rest;
      AfterWordSuffix(s, "constraint");
      AfterGapSuffix(s1);
      SplitNameSuffix(s2);
      AfterCheckSuffix(s3);
      SuffixTrans(rest, s3, s2);
      SuffixTrans(rest, s2, s1);
      SuffixTrans(rest, s1, s);
    }
  }

  /** `name[1:-1].replace('""', '"')` for a quoted name. */
  function Unquote(name: string): string {
    if |name| > 1 && name[0] == '"' then Undouble(name[1..|name| - 1]) else name
  }

  function Undouble(s: string): string {
    if |s| > 1 && s[0] == '"' && s[1] == '"' then "\"" + Undouble(s[2..])
    else if s == "" then ""
    else [s[0]] + Undouble(s[1..])
  }

  // ---------------------------------------------------------------------------------------------
  // The scan
  // ---------------------------------------------------------------------------------------------

  /** How far the scan gets before the parenthesis that brings the depth back to zero. */
  function Scan(s: string, depth: int, inString: bool): (n: nat)
    ensures n <= |s|
  {
    if s == "" then 0
    else if inString then
      if s[0] == '\'' && |s| > 1 && s[1] == '\'' then 2 + Scan(s[2..], depth, true)
      else 1 + Scan(s[1..], depth, s[0] != '\'')
    else if s[0] == '\'' then 1 + Scan(s[1..], depth, true)
    else if s[0] == '(' then 1 + Scan(s[1..], depth + 1, false)
    else if s[0] == ')' then (if depth == 1 then 0 else 1 + Scan(s[1..], depth - 1, false))
    else 1 + Scan(s[1..], depth, false)
  }

  /** Any clause pattern whose matches end with the opening parenthesis. */
  type Pattern = string -> Option<Split>

  ghost predicate Opens(pattern: Pattern) {
    forall s :: pattern(s).Some? ==> Suffix("(" + pattern(s).value.rest, s)
  }

  /** The constraints of the text, added to those found before. */
  function Parse(pattern: Pattern, s: string, found: map<string, string>): map<string, string>
    requires Opens(pattern)
    decreases |s|
  {
    if s == "" then found
    else
      var m := pattern(s);
      if m.None? then Parse(pattern, s[1..], found)
      else
        assert Suffix("(" + m.value.rest, s);
        Parse(pattern, m.value.rest, found[Unquote(m.value.name) := Expression(m.value.rest)])
  }

  /** The expression that starts after its opening parenthesis. */
  function Expression(s: string): string {
    Strip(s[..Scan(s, 1, false)])
  }

  method ScanExpression(ddl: string, open: nat) returns (i: nat)
    requires open < |ddl| && ddl[open] == '('
    ensures open < i <= |ddl| && i == open + 1 + Scan(ddl[open + 1..], 1, false)
  {
    var depth := 0;
    var inString := false;
    i := open;
    assert ddl[open..][1..] == ddl[open + 1..];
    while i < |ddl|
      invariant open <= i <= |ddl|
      invariant open + Scan(ddl[open..], 0, false) == i + Scan(ddl[i..], depth, inString)
    {
      var ch := ddl[i];
      assert ddl[i..][0] == ch && ddl[i..][1..] == ddl[i + 1..];
      if inString {
        if ch == '\'' {
          if i + 1 < |ddl| && ddl[i + 1] == '\'' {
            assert ddl[i..][2..] == ddl[i + 2..];
            i := i + 2;
            continue;
          }
          inString := false;
        }
      } else {
        if ch == '\'' {
          inString := true;
        } else if ch == '(' {
          depth := depth + 1;
        } else if ch == ')' {
          depth := depth - 1;
          if depth == 0 {
            break;
          }
        }
      }
      i := i + 1;
    }
  }

  method ParseCheckConstraints(ddl: string) returns (constraints: map<string, string>)
    ensures Opens(Head) && constraints == Parse(Head, ddl, map[])
  {
    HeadOpens();
    constraints := map[];
    var pos := 0;
    assert ddl[0..] == ddl;
    while pos < |ddl|
      invariant pos <= |ddl|
      invariant Parse(Head, ddl[pos..], constraints) == Parse(Head, ddl, map[])
    {
      pos, constraints := ParseOne(Head, ddl, pos, constraints);
    }
  }

  lemma HeadOpens()
    ensures Opens(Head)
  {
    forall s
      ensures Head(s).Some? ==> Suffix("(" + Head(s).value.rest, s)
    {
      HeadSuffix(s);
    }
  }

  /** The next match of the pattern, if it is at this place. */
  method ParseOne(pattern: Pattern, ddl: string, pos: nat, found: map<string, string>)
    returns (next: nat, constraints: map<string, string>)
    requires Opens(pattern) && pos < |ddl|
    ensures pos < next <= |ddl| && Parse(pattern, ddl[next..], constraints) == Parse(pattern, ddl[pos..], found)
  {
    var s := ddl[pos..];
    var m := pattern(s);
    if m.None? {
      assert s[1..] == ddl[pos + 1..];
      next, constraints := pos + 1, found;
    } else {
      var expression;
      next, expression := ExtractExpression(ddl, pos, m.value.rest);
      constraints := found[Unquote(m.value.name) := expression];
    }
  }

  method ExtractExpression(ddl: string, pos: nat, rest: string) returns (next: nat, expression: string)
    requires pos < |ddl| && Suffix("(" + rest, ddl[pos..])
    ensures pos < next <= |ddl| && ddl[next..] == rest && expression == Expression(rest)
  {
    RestIs(ddl, pos, rest);
    next := |ddl| - |rest|;
    var i := ScanExpression(ddl, next - 1);
    assert ddl[next..i] == rest[..i - next];
    expression := Strip(ddl[next..i]);
  }

  lemma RestIs(ddl: string, pos: nat, rest: string)
    requires pos < |ddl| && Suffix("(" + rest, ddl[pos..])
    ensures pos < |ddl| - |rest| && ddl[|ddl| - |rest| - 1] == '(' && ddl[|ddl| - |rest|..] == rest
  {
    var t := "(" + rest;
    SuffixTail(t, ddl, pos);
    assert ddl[|ddl| - |t|..][0] == '(' && ddl[|ddl| - |t|..][1..] == rest;
    assert ddl[|ddl| - |t|..][1..] == ddl[|ddl| - |rest|..];
  }

  // ---------------------------------------------------------------------------------------------
  // The text that the scanner is for
  // ---------------------------------------------------------------------------------------------

  /** Expressions: parentheses are balanced outside of literals, whose quotes are doubled. */
  datatype Piece = Char(c: char) | Literal(text: string) | Group(inner: seq<Piece>)

  function Render(p: Piece): string
    decreases p
  {
    match p
    case Char(c) => [c]
    case Literal(text) => "'" + Replace(text, '\'', "''") + "'"
    case Group(inner) => "(" + RenderAll(inner) + ")"
  }

  function RenderAll(ps: seq<Piece>): string
    decreases ps
  {
    if ps == [] then "" else Render(ps[0]) + RenderAll(ps[1..])
  }

  /** Two literals in a row would read as one. */
  predicate ValidPieces(ps: seq<Piece>)
    decreases ps
  {
    ps != [] ==>
      && ValidPiece(ps[0])
      && ValidPieces(ps[1..])
      && (ps[0].Literal? && |ps| > 1 ==> !ps[1].Literal?)
  }

  predicate ValidPiece(p: Piece)
    decreases p
  {
    match p
    case Char(c) => c != '\'' && c != '(' && c != ')'
    case Literal(_) => true
    case Group(inner) => ValidPieces(inner)
  }

  datatype Name = Plain(text: string) | Quoted(text: string)

  function RawName(n: Name): string {
    match n
    case Plain(text) => text
    case Quoted(text) => "\"" + Replace(text, '"', "\"\"") + "\""
  }

  predicate ValidName(n: Name) {
    && n.text != ""
    && (n.Plain? ==>
          && !('0' <= n.text[0] <= '9') && n.text[0] != '$'
          && forall c | c in n.text :: 'a' <= c <= 'z' || 'A' <= c <= 'Z' || '0' <= c <= '9' || c == '_' || c == '$')
  }

  /** One clause, with its keywords in any case and any white space between the parts of its head. */
  datatype Clause = Clause(
    constraint: string, gap1: string, name: Name, gap2: string, check: string, gap3: string, expression: seq<Piece>)

  predicate AllSpace(s: string) {
    forall c | c in s :: Space(c)
  }

  predicate ValidHead(c: Clause) {
    && Lower(c.constraint) == "constraint" && Lower(c.check) == "check"
    && c.gap1 != "" && AllSpace(c.gap1) && c.gap2 != "" && AllSpace(c.gap2) && AllSpace(c.gap3)
    && ValidName(c.name)
  }

  function HeadText(c: Clause): string {
    c.constraint + (c.gap1 + (RawName(c.name) + (c.gap2 + (c.check + (c.gap3 + "(")))))
  }

  function BodyText(c: Clause): string {
    RenderAll(c.expression) + ")"
  }

  // ---------------------------------------------------------------------------------------------
  // The scan finds the end of the expression
  // ---------------------------------------------------------------------------------------------

  lemma QuotesDoubled(first: char, text: string, rest: string)
    ensures var unit := if first == '\'' then "''" else [first];
      Replace([first] + text, '\'', "''") + "'" + rest == unit + (Replace(text, '\'', "''") + "'" + rest)
  {
    var unit := if first == '\'' then "''" else [first];
    assert ([first] + text)[1..] == text;
    Associate(unit, Replace(text, '\'', "''"), "'");
    Associate(unit, Replace(text, '\'', "''") + "'", rest);
  }

  lemma {:induction false} ScanLiteral(text: string, t: string, depth: int)
    requires !StartsWith(t, '\'')
    ensures Scan(Replace(text, '\'', "''") + "'" + t, depth, true)
         == |Replace(text, '\'', "''")| + 1 + Scan(t, depth, false)
  {
    var s := Replace(text, '\'', "''") + "'" + t;
    if text == "" {
      assert s == "'" + t && s[1..] == t;
    } else {
      var rest := Replace(text[1..], '\'', "''") + "'" + t;
      ScanLiteral(text[1..], t, depth);
      assert text == [text[0]] + text[1..];
      QuotesDoubled(text[0], text[1..], t);
      if text[0] == '\'' {
        assert s[2..] == rest;
      } else {
        assert s[1..] == rest;
      }
    }
  }

  lemma FirstOfPieces(ps: seq<Piece>, t: string)
    requires ValidPieces(ps) && !StartsWith(t, '\'')
    requires ps != [] ==> !ps[0].Literal?
    ensures !StartsWith(RenderAll(ps) + t, '\'')
  {
    if ps == [] {
      assert RenderAll(ps) + t == t;
    }
  }

  lemma {:induction false} ScanPieces(ps: seq<Piece>, t: string, depth: int)
    requires depth >= 1 && ValidPieces(ps) && !StartsWith(t, '\'')
    ensures Scan(RenderAll(ps) + t, depth, false) == |RenderAll(ps)| + Scan(t, depth, false)
    decreases ps
  {
    if ps == [] {
      assert RenderAll(ps) + t == t;
    } else {
      var after := RenderAll(ps[1..]) + t;
      Associate(Render(ps[0]), RenderAll(ps[1..]), t);
      ScanPieces(ps[1..], t, depth);
      if ps[0].Literal? {
        FirstOfPieces(ps[1..], t);
      }
      ScanPiece(ps[0], after, depth);
    }
  }

  lemma {:induction false} ScanPiece(p: Piece, t: string, depth: int)
    requires depth >= 1 && ValidPiece(p) && (p.Literal? ==> !StartsWith(t, '\''))
    ensures Scan(Render(p) + t, depth, false) == |Render(p)| + Scan(t, depth, false)
    decreases p
  {
    var s := Render(p) + t;
    match p
    case Char(c) => assert s[1..] == t;
    case Literal(text) =>
      assert s[1..] == Replace(text, '\'', "''") + "'" + t;
      ScanLiteral(text, t, depth);
    case Group(inner) =>
      var close := ")" + t;
      assert s[1..] == RenderAll(inner) + close;
      ScanPieces(inner, close, depth + 1);
      assert close[1..] == t;
  }

  // ---------------------------------------------------------------------------------------------
  // The scan stops after balanced expressions only
  // ---------------------------------------------------------------------------------------------

  /** Expressions with a closing parenthesis after each but the last. */
  function Closed(levels: seq<seq<Piece>>): string {
    if levels == [] then ""
    else if |levels| == 1 then RenderAll(levels[0])
    else RenderAll(levels[0]) + (")" + Closed(levels[1..]))
  }

  predicate ValidLevels(levels: seq<seq<Piece>>) {
    forall ps | ps in levels :: ValidPieces(ps)
  }

  predicate StartsWithLiteral(ps: seq<Piece>) {
    ps != [] && ps[0].Literal?
  }

  lemma {:induction false} ScanLiteralReads(s: string, depth: int) returns (text: string, rest: string)
    requires Scan(s, depth, true) < |s|
    ensures s == Replace(text, '\'', "''") + "'" + rest && !StartsWith(rest, '\'')
    ensures Scan(s, depth, true) == |s| - |rest| + Scan(rest, depth, false)
  {
    if s[0] == '\'' && |s| > 1 && s[1] == '\'' {
      text, rest := ScanLiteralReads(s[2..], depth);
      assert s == "''" + s[2..];
      QuotesDoubled('\'', text, rest);
      text := ['\''] + text;
    } else if s[0] == '\'' {
      text, rest := "", s[1..];
    } else {
      text, rest := ScanLiteralReads(s[1..], depth);
      assert s == [s[0]] + s[1..];
      QuotesDoubled(s[0], text, rest);
      text := [s[0]] + text;
    }
  }

  /** A piece in front of the innermost expression. */
  function Front(p: Piece, levels: seq<seq<Piece>>): seq<seq<Piece>>
    requires levels != []
  {
    [[p] + levels[0]] + levels[1..]
  }

  lemma PieceInFront(p: Piece, levels: seq<seq<Piece>>)
    requires levels != [] && ValidLevels(levels) && ValidPiece(p)
    requires p.Literal? ==> !StartsWithLiteral(levels[0])
    ensures |Front(p, levels)| == |levels| && ValidLevels(Front(p, levels))
    ensures Closed(Front(p, levels)) == Render(p) + Closed(levels)
  {
    var ps := [p] + levels[0];
    assert ps[1..] == levels[0] && levels[0] in levels;
    assert Front(p, levels)[1..] == levels[1..];
    if |levels| > 1 {
      Associate(Render(p), RenderAll(levels[0]), ")" + Closed(levels[1..]));
    }
  }

  lemma InParentheses(s: string, t: string)
    ensures ("(" + s + ")") + t == "(" + (s + (")" + t))
  {
  }

  /** An opening parenthesis makes a group of the innermost expression. */
  lemma GroupInFront(levels: seq<seq<Piece>>)
    requires |levels| > 1 && ValidLevels(levels)
    ensures |Front(Group(levels[0]), levels[1..])| == |levels| - 1
    ensures ValidLevels(Front(Group(levels[0]), levels[1..]))
    ensures Closed(Front(Group(levels[0]), levels[1..])) == "(" + Closed(levels)
  {
    assert levels[0] in levels;
    PieceInFront(Group(levels[0]), levels[1..]);
    InParentheses(RenderAll(levels[0]), Closed(levels[1..]));
  }

  lemma Passed(first: string, rest: string, n: nat)
    requires n <= |rest|
    ensures (first + rest)[..|first| + n] == first + rest[..n]
  {
  }

  /** The scan of `s` stops where these expressions end. */
  predicate Stops(s: string, depth: nat, levels: seq<seq<Piece>>) {
    && |levels| == depth >= 1 && ValidLevels(levels)
    && (StartsWithLiteral(levels[0]) ==> StartsWith(s, '\''))
    && s[..Scan(s, depth, false)] == Closed(levels)
  }

  /** Up to where the scan stops, if it does, the text consists of as many balanced expressions as there were
      open parentheses. */
  lemma {:induction false} ScanReads(s: string, depth: nat) returns (levels: seq<seq<Piece>>)
    requires depth >= 1 && Scan(s, depth, false) < |s|
    ensures Stops(s, depth, levels) && s[Scan(s, depth, false)] == ')'
    decreases |s|, 1
  {
    if s[0] == '\'' {
      levels := LiteralReads(s, depth);
    } else if s[0] == ')' && depth == 1 {
      levels := [[]];
    } else {
      assert s == [s[0]] + s[1..];
      if s[0] == '(' {
        var inner := ScanReads(s[1..], depth + 1);
        Passed("(", s[1..], Scan(s[1..], depth + 1, false));
        GroupInFront(inner);
        levels := Front(Group(inner[0]), inner[1..]);
      } else if s[0] == ')' {
        var outer := ScanReads(s[1..], depth - 1);
        Passed(")", s[1..], Scan(s[1..], depth - 1, false));
        levels := [[]] + outer;
        assert levels[1..] == outer;
      } else {
        var rest := ScanReads(s[1..], depth);
        Passed([s[0]], s[1..], Scan(s[1..], depth, false));
        PieceInFront(Char(s[0]), rest);
        levels := Front(Char(s[0]), rest);
      }
    }
  }

  lemma {:induction false} LiteralReads(s: string, depth: nat) returns (levels: seq<seq<Piece>>)
    requires depth >= 1 && Scan(s, depth, false) < |s| && s[0] == '\''
    ensures Stops(s, depth, levels) && s[Scan(s, depth, false)] == ')'
    decreases |s|, 0
  {
    var text, rest := ScanLiteralReads(s[1..], depth);
    var front := Render(Literal(text));
    assert s == front + rest;
    levels := ScanReads(rest, depth);
    Passed(front, rest, Scan(rest, depth, false));
    PieceInFront(Literal(text), levels);
    levels := Front(Literal(text), levels);
  }

  /** What the scan passes over before it stops is a balanced expression, and a parenthesis closes it. */
  lemma StopsAfterBalanced(s: string) returns (ps: seq<Piece>)
    requires Scan(s, 1, false) < |s|
    ensures ValidPieces(ps) && s[..Scan(s, 1, false)] == RenderAll(ps) && s[Scan(s, 1, false)] == ')'
  {
    var levels := ScanReads(s, 1);
    ps := levels[0];
    assert ps in levels;
  }

  /** The scan stops at the parenthesis that closes the clause. */
  lemma ExpressionOf(ps: seq<Piece>, t: string)
    requires ValidPieces(ps)
    ensures Expression(RenderAll(ps) + (")" + t)) == Strip(RenderAll(ps))
  {
    ScanPieces(ps, ")" + t, 1);
    Drop(RenderAll(ps), ")" + t);
  }

  // ---------------------------------------------------------------------------------------------
  // The pattern matches every clause head
  // ---------------------------------------------------------------------------------------------

  lemma Drop(a: string, b: string)
    ensures (a + b)[|a|..] == b && (a + b)[..|a|] == a
  {
  }

  lemma {:induction false} WordIs(w: string, word: string)
    ensures AfterWord(w, word) == Some("") <==> Lower(w) == word
    decreases |word|
  {
    if w != "" && word != "" {
      WordIs(w[1..], word[1..]);
      assert Lower(w)[1..] == Lower(w[1..]);
      assert word == [word[0]] + word[1..];
    }
  }

  lemma {:induction false} AfterWordOf(w: string, word: string, t: string)
    requires AfterWord(w, word) == Some("")
    ensures AfterWord(w + t, word) == Some(t)
    decreases |word|
  {
    if word == "" {
      assert w + t == t;
    } else {
      assert (w + t)[1..] == w[1..] + t;
      AfterWordOf(w[1..], word[1..], t);
    }
  }

  lemma {:induction false} SkipSpacesOf(gap: string, t: string)
    requires AllSpace(gap) && (t != "" ==> !Space(t[0]))
    ensures SkipSpaces(gap + t) == t
  {
    if gap == "" {
      assert gap + t == t;
    } else {
      assert (gap + t)[1..] == gap[1..] + t;
      SkipSpacesOf(gap[1..], t);
    }
  }

  lemma AfterGapOf(gap: string, t: string)
    requires gap != "" && AllSpace(gap) && t != "" && !Space(t[0])
    ensures AfterGap(gap + t) == Some(t)
  {
    assert (gap + t)[1..] == gap[1..] + t;
    SkipSpacesOf(gap[1..], t);
  }

  lemma {:induction false} SplitWordOf(w: string, t: string)
    requires (forall c | c in w :: WordChar(c)) && (t != "" ==> !WordChar(t[0]))
    ensures SplitWord(w + t) == Split(w, t)
  {
    if w == "" {
      assert w + t == t;
    } else {
      assert (w + t)[1..] == w[1..] + t;
      assert w == [w[0]] + w[1..];
      SplitWordOf(w[1..], t);
    }
  }

  /** One more unit, a pair of quotes or a single other character, in front. */
  lemma SplitQuotedUnit(unit: string, u: string, r: Split)
    requires unit == "\"\"" || (|unit| == 1 && unit[0] != '"')
    requires SplitQuoted(u) == Some(r)
    ensures SplitQuoted(unit + u) == Some(Split(unit + r.name, r.rest))
  {
    var s := unit + u;
    assert s[|unit|..] == u;
    if |unit| == 1 {
      assert unit == [s[0]];
    }
  }

  lemma {:induction false} SplitQuotedOf(text: string, t: string)
    requires !StartsWith(t, '"')
    ensures var quoted := Replace(text, '"', "\"\"") + "\"";
      SplitQuoted(quoted + t) == Some(Split(quoted, t))
  {
    if text == "" {
      assert "\"" + t == Replace(text, '"', "\"\"") + "\"" + t && ("\"" + t)[1..] == t;
    } else {
      var unit := if text[0] == '"' then "\"\"" else [text[0]];
      var rest := Replace(text[1..], '"', "\"\"") + "\"";
      SplitQuotedOf(text[1..], t);
      SplitQuotedUnit(unit, rest + t, Split(rest, t));
      Associate(unit, Replace(text[1..], '"', "\"\""), "\"");
      Associate(unit, rest, t);
    }
  }

  lemma {:induction false} ReplaceGrows(s: string, c: char, text: string)
    requires text != ""
    ensures |Replace(s, c, text)| >= |s|
  {
    if s != "" {
      ReplaceGrows(s[1..], c, text);
    }
  }

  lemma NameStarts(n: Name)
    requires ValidName(n)
    ensures RawName(n) != "" && !Space(RawName(n)[0])
    ensures n.Plain? ==> n.text[0] != '"' && WordStart(n.text[0]) && forall c | c in n.text :: WordChar(c)
  {
    assert n.text[0] in n.text;
  }

  lemma AfterQuote(quoted: string, t: string)
    requires |quoted| > 1 && SplitQuoted(quoted + t) == Some(Split(quoted, t))
    ensures SplitName("\"" + quoted + t) == Some(Split("\"" + quoted, t))
  {
    assert ("\"" + quoted + t)[1..] == quoted + t;
  }

  lemma QuotedNameOf(text: string, t: string)
    requires text != "" && !StartsWith(t, '"')
    ensures SplitName(RawName(Quoted(text)) + t) == Some(Split(RawName(Quoted(text)), t))
  {
    SplitQuotedOf(text, t);
    ReplaceGrows(text, '"', "\"\"");
    AfterQuote(Replace(text, '"', "\"\"") + "\"", t);
    Associate("\"", Replace(text, '"', "\"\""), "\"");
  }

  lemma SplitNameOf(n: Name, t: string)
    requires ValidName(n) && t != "" && Space(t[0])
    ensures SplitName(RawName(n) + t) == Some(Split(RawName(n), t))
  {
    var s := RawName(n) + t;
    NameStarts(n);
    match n
    case Plain(text) => SplitWordOf(text, t);
    case Quoted(text) => QuotedNameOf(text, t);
  }

  lemma AfterCheckOf(gap2: string, check: string, gap3: string, t: string)
    requires gap2 != "" && AllSpace(gap2) && AllSpace(gap3) && AfterWord(check, "check") == Some("")
    ensures AfterCheck(gap2 + (check + (gap3 + ("(" + t)))) == Some(t)
  {
    var s2 := gap3 + ("(" + t);
    assert LowerChar(check[0]) == 'c';
    AfterGapOf(gap2, check + s2);
    AfterWordOf(check, "check", s2);
    SkipSpacesOf(gap3, "(" + t);
    assert ("(" + t)[1..] == t;
  }

  lemma HeadParts(constraint: string, gap1: string, n: Name, s: string, t: string)
    requires AfterWord(constraint, "constraint") == Some("")
    requires gap1 != "" && AllSpace(gap1) && ValidName(n)
    requires s != "" && Space(s[0]) && AfterCheck(s) == Some(t)
    ensures Head(constraint + (gap1 + (RawName(n) + s))) == Some(Split(RawName(n), t))
  {
    NameStarts(n);
    AfterWordOf(constraint, "constraint", gap1 + (RawName(n) + s));
    AfterGapOf(gap1, RawName(n) + s);
    SplitNameOf(n, s);
  }

  lemma HeadTextParts(c: Clause, t: string)
    ensures HeadText(c) + t
         == c.constraint + (c.gap1 + (RawName(c.name) + (c.gap2 + (c.check + (c.gap3 + ("(" + t))))))
  {
    var s1 := c.gap3 + "(";
    var s2 := c.check + s1;
    var s3 := c.gap2 + s2;
    var s4 := RawName(c.name) + s3;
    Associate(c.gap3, "(", t);
    Associate(c.check, s1, t);
    Associate(c.gap2, s2, t);
    Associate(RawName(c.name), s3, t);
    Associate(c.gap1, s4, t);
    Associate(c.constraint, c.gap1 + s4, t);
  }

  lemma HeadOf(c: Clause, t: string)
    requires ValidHead(c)
    ensures Head(HeadText(c) + t) == Some(Split(RawName(c.name), t))
  {
    var s := c.gap2 + (c.check + (c.gap3 + ("(" + t)));
    WordIs(c.constraint, "constraint");
    WordIs(c.check, "check");
    assert AfterCheck(s) == Some(t) by {
      AfterCheckOf(c.gap2, c.check, c.gap3, t);
    }
    HeadTextParts(c, t);
    HeadParts(c.constraint, c.gap1, c.name, s, t);
  }

  // ---------------------------------------------------------------------------------------------
  // The pattern matches nothing but clause heads
  // ---------------------------------------------------------------------------------------------

  lemma {:induction false} AfterWordReads(s: string, w: string) returns (word: string)
    requires AfterWord(s, w).Some?
    ensures s == word + AfterWord(s, w).value && Lower(word) == w
    decreases |w|
  {
    word := "";
    if w != "" {
      var rest := AfterWordReads(s[1..], w[1..]);
      word := [s[0]] + rest;
      assert word[1..] == rest;
    }
  }

  lemma AfterGapReads(s: string) returns (gap: string)
    requires AfterGap(s).Some?
    ensures s == gap + AfterGap(s).value && gap != "" && AllSpace(gap)
  {
    gap := StartStripped(s[1..]);
    gap := [s[0]] + gap;
  }

  lemma {:induction false} SplitWordReads(s: string)
    ensures s == SplitWord(s).name + SplitWord(s).rest && forall c | c in SplitWord(s).name :: WordChar(c)
  {
    if s != "" && WordChar(s[0]) {
      SplitWordReads(s[1..]);
      assert s == [s[0]] + s[1..];
    }
  }

  lemma {:induction false} SplitQuotedReads(s: string) returns (text: string)
    requires SplitQuoted(s).Some?
    ensures SplitQuoted(s).value.name == Replace(text, '"', "\"\"") + "\""
    ensures s == SplitQuoted(s).value.name + SplitQuoted(s).value.rest
  {
    text := "";
    if s[0] == '"' && |s| > 1 && s[1] == '"' {
      var rest := SplitQuotedReads(s[2..]);
      text := "\"" + rest;
      assert text[1..] == rest && s == "\"\"" + s[2..];
      Associate("\"\"", Replace(rest, '"', "\"\""), "\"");
    } else if s[0] != '"' {
      var rest := SplitQuotedReads(s[1..]);
      text := [s[0]] + rest;
      assert text[1..] == rest && s == [s[0]] + s[1..];
      Associate([s[0]], Replace(rest, '"', "\"\""), "\"");
    }
  }

  lemma SplitNameReads(s: string) returns (n: Name)
    requires SplitName(s).Some?
    ensures ValidName(n) && SplitName(s).value.name == RawName(n) && s == RawName(n) + SplitName(s).value.rest
  {
    if s[0] == '"' {
      var text := SplitQuotedReads(s[1..]);
      n := Quoted(text);
      Associate("\"", Replace(text, '"', "\"\""), "\"");
    } else {
      SplitWordReads(s);
      n := Plain(SplitWord(s).name);
    }
  }

  lemma ParenthesisReads(s: string)
    requires AfterParenthesis(s).Some?
    ensures s == "(" + AfterParenthesis(s).value
  {
  }

  lemma AfterCheckReads(s: string) returns (gap2: string, check: string, gap3: string)
    requires AfterCheck(s).Some?
    ensures gap2 != "" && AllSpace(gap2) && AllSpace(gap3) && Lower(check) == "check"
    ensures s == gap2 + (check + (gap3 + ("(" + AfterCheck(s).value)))
  {
    var s1 := AfterGap(s).value;
    var s2 := AfterWord(s1, "check").value;
    gap2 := AfterGapReads(s);
    check := AfterWordReads(s1, "check");
    gap3 := StartStripped(s2);
    ParenthesisReads(SkipSpaces(s2));
  }

  /** Wherever the pattern matches, there is a clause head with the name that it finds. */
  lemma HeadReads(s: string) returns (c: Clause)
    requires Head(s).Some?
    ensures ValidHead(c) && s == HeadText(c) + Head(s).value.rest && Head(s).value.name == RawName(c.name)
  {
    var constraint := AfterWordReads(s, "constraint");
    var s1 := AfterWord(s, "constraint").value;
    var gap1 := AfterGapReads(s1);
    var s2 := AfterGap(s1).value;
    var name := SplitNameReads(s2);
    var gap2, check, gap3 := AfterCheckReads(SplitName(s2).value.rest);
    c := Clause(constraint, gap1, name, gap2, check, gap3, []);
    HeadTextParts(c, Head(s).value.rest);
  }

  lemma {:induction false} UndoubleOf(text: string)
    ensures Undouble(Replace(text, '"', "\"\"")) == text
  {
    if text != "" {
      var s := Replace(text, '"', "\"\"");
      UndoubleOf(text[1..]);
      assert text == [text[0]] + text[1..];
      if text[0] == '"' {
        assert s[2..] == Replace(text[1..], '"', "\"\"");
      } else {
        assert s[1..] == Replace(text[1..], '"', "\"\"");
      }
    }
  }

  lemma UnquoteOf(n: Name)
    requires ValidName(n)
    ensures Unquote(RawName(n)) == n.text
  {
    NameStarts(n);
    if n.Quoted? {
      var raw := RawName(n);
      assert raw[1..|raw| - 1] == Replace(n.text, '"', "\"\"");
      UndoubleOf(n.text);
    }
  }

  // ---------------------------------------------------------------------------------------------
  // The whole text
  // ---------------------------------------------------------------------------------------------

  datatype Part = Part(before: string, clause: Clause)

  function Text(parts: seq<Part>, tail: string): string {
    if parts == [] then tail
    else parts[0].before + (HeadText(parts[0].clause) + (BodyText(parts[0].clause) + Text(parts[1..], tail)))
  }

  /** The pattern matches at none of the first `n` places. */
  predicate NoHead(pattern: Pattern, s: string, n: nat)
    requires n <= |s|
  {
    forall i: nat | i < n :: pattern(s[i..]).None?
  }

  /** The pattern matches at the clauses and nowhere else. */
  predicate NoOther(pattern: Pattern, parts: seq<Part>, tail: string) {
    if parts == [] then NoHead(pattern, tail, |tail|)
    else
      var c := parts[0].clause;
      && NoHead(pattern, Text(parts, tail), |parts[0].before|)
      && NoHead(pattern, BodyText(c) + Text(parts[1..], tail), |BodyText(c)|)
      && NoOther(pattern, parts[1..], tail)
  }

  ghost predicate Finds(pattern: Pattern, c: Clause, t: string) {
    pattern(HeadText(c) + t) == Some(Split(RawName(c.name), t))
  }

  /** Every part has a clause that the pattern finds. */
  ghost predicate Clauses(pattern: Pattern, parts: seq<Part>) {
    forall p | p in parts ::
      && ValidName(p.clause.name) && ValidPieces(p.clause.expression)
      && forall t :: Finds(pattern, p.clause, t)
  }

  function Constraints(parts: seq<Part>, found: map<string, string>): map<string, string> {
    if parts == [] then found
    else
      var c := parts[0].clause;
      Constraints(parts[1..], found[c.name.text := Strip(RenderAll(c.expression))])
  }

  lemma {:induction false} Skip(pattern: Pattern, s: string, n: nat, found: map<string, string>)
    requires Opens(pattern) && n <= |s| && NoHead(pattern, s, n)
    ensures Parse(pattern, s, found) == Parse(pattern, s[n..], found)
  {
    assert s[0..] == s;
    if n > 0 {
      forall i: nat | i < n - 1
        ensures pattern(s[1..][i..]).None?
      {
        assert s[1..][i..] == s[i + 1..];
      }
      Skip(pattern, s[1..], n - 1, found);
      assert s[1..][n - 1..] == s[n..];
    }
  }

  lemma ParsesClause(pattern: Pattern, c: Clause, rest: string, found: map<string, string>)
    requires Opens(pattern) && Finds(pattern, c, BodyText(c) + rest)
    requires ValidName(c.name) && ValidPieces(c.expression)
    ensures Parse(pattern, HeadText(c) + (BodyText(c) + rest), found)
         == Parse(pattern, BodyText(c) + rest, found[c.name.text := Strip(RenderAll(c.expression))])
  {
    UnquoteOf(c.name);
    Associate(RenderAll(c.expression), ")", rest);
    ExpressionOf(c.expression, rest);
    assert HeadText(c) + (BodyText(c) + rest) != "";
  }

  lemma {:induction false} ParsesText(pattern: Pattern, parts: seq<Part>, tail: string, found: map<string, string>)
    requires Opens(pattern) && Clauses(pattern, parts) && NoOther(pattern, parts, tail)
    ensures Parse(pattern, Text(parts, tail), found) == Constraints(parts, found)
  {
    var text := Text(parts, tail);
    if parts == [] {
      Skip(pattern, text, |text|, found);
    } else {
      var c := parts[0].clause;
      var rest := Text(parts[1..], tail);
      var found' := found[c.name.text := Strip(RenderAll(c.expression))];
      Skip(pattern, text, |parts[0].before|, found);
      Drop(parts[0].before, HeadText(c) + (BodyText(c) + rest));
      assert Finds(pattern, c, BodyText(c) + rest);
      ParsesClause(pattern, c, rest, found);
      Skip(pattern, BodyText(c) + rest, |BodyText(c)|, found');
      Drop(BodyText(c), rest);
      ParsesText(pattern, parts[1..], tail, found');
    }
  }

  predicate DistinctNames(parts: seq<Part>) {
    forall i: nat, j: nat | i < j < |parts| :: parts[i].clause.name.text != parts[j].clause.name.text
  }

  lemma {:induction false} ConstraintsAre(parts: seq<Part>, found: map<string, string>, name: string)
    requires DistinctNames(parts)
    ensures name in Constraints(parts, found) <==>
      name in found || exists p | p in parts :: p.clause.name.text == name
    ensures (forall p | p in parts :: p.clause.name.text != name) && name in found ==>
      Constraints(parts, found)[name] == found[name]
    ensures forall p | p in parts && p.clause.name.text == name ::
      Constraints(parts, found)[name] == Strip(RenderAll(p.clause.expression))
  {
    if parts != [] {
      var c := parts[0].clause;
      assert parts == [parts[0]] + parts[1..];
      ConstraintsAre(parts[1..], found[c.name.text := Strip(RenderAll(c.expression))], name);
      forall p | p in parts[1..]
        ensures p.clause.name.text != c.name.text
      {
        var i: nat :| i < |parts[1..]| && parts[1..][i] == p;
        assert parts[i + 1] == p;
      }
    }
  }

  /** From a text whose only matches of the pattern are its clauses the scanner reads exactly the map
      from unquoted names to stripped expressions. */
  lemma ReadsExactlyTheClauses(parts: seq<Part>, tail: string)
    requires forall p | p in parts :: ValidHead(p.clause) && ValidPieces(p.clause.expression)
    requires NoOther(Head, parts, tail) && DistinctNames(parts)
    ensures Opens(Head)
    ensures var r := Parse(Head, Text(parts, tail), map[]);
      && (forall name :: name in r <==> exists p | p in parts :: p.clause.name.text == name)
      && forall p | p in parts :: r[p.clause.name.text] == Strip(RenderAll(p.clause.expression))
  {
    CheckHeadFinds(parts);
    ParsesText(Head, parts, tail, map[]);
    ConstraintsAreExactly(parts);
  }

  lemma CheckHeadFinds(parts: seq<Part>)
    requires forall p | p in parts :: ValidHead(p.clause) && ValidPieces(p.clause.expression)
    ensures Opens(Head) && Clauses(Head, parts)
  {
    HeadOpens();
    forall p, t | p in parts
      ensures Finds(Head, p.clause, t)
    {
      HeadOf(p.clause, t);
    }
  }

  lemma ConstraintsAreExactly(parts: seq<Part>)
    requires DistinctNames(parts)
    ensures var r := Constraints(parts, map[]);
      && (forall name :: name in r <==> exists p | p in parts :: p.clause.name.text == name)
      && forall p | p in parts :: r[p.clause.name.text] == Strip(RenderAll(p.clause.expression))
  {
    forall name: string
      ensures name in Constraints(parts, map[]) <==> exists p | p in parts :: p.clause.name.text == name
    {
      ConstraintsAre(parts, map[], name);
    }
    forall p | p in parts
      ensures Constraints(parts, map[])[p.clause.name.text] == Strip(RenderAll(p.clause.expression))
    {
      ConstraintsAre(parts, map[], p.clause.name.text);
    }
  }
}
