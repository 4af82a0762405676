/** Patterns over identifiers, and identifiers rebuilt from the names in grant listings:
    `IdentPattern` and `build_grant_name_ident`. */
module IdentPatterns {
  import opened Basics
  import opened Idents
  import opened ObjectTypes
  import opened Strings

  // ---------------------------------------------------------------------------------------------
  // Patterns
  // ---------------------------------------------------------------------------------------------

  /** Unix-style matching of a whole text, with `*` and `?`. */
  predicate Glob(p: string, s: string)
    decreases |p| + |s|
  {
    if p == "" then s == ""
    else if p[0] == '*' then Glob(p[1..], s) || (s != "" && Glob(p, s[1..]))
    else s != "" && (p[0] == '?' || p[0] == s[0]) && Glob(p[1..], s[1..])
  }

  /** A star stands for any text, the empty one included. */
  lemma {:induction false} StarIsAnything(p: string, s: string)
    requires p != "" && p[0] == '*'
    ensures Glob(p, s) <==> exists k :: 0 <= k <= |s| && Glob(p[1..], s[k..])
    decreases |s|
  {
    assert s[0..] == s;
    if s != "" {
      var rest := s[1..];
      StarIsAnything(p, rest);
      if Glob(p, rest) {
        var k :| 0 <= k <= |rest| && Glob(p[1..], rest[k..]);
        assert rest[k..] == s[k + 1..];
      }
      forall k | 0 < k <= |s| && Glob(p[1..], s[k..])
        ensures Glob(p, rest)
      {
        assert rest[k - 1..] == s[k..];
      }
    }
  }

  predicate Special(c: char) {
    c == '|' || c == '!' || c == '*' || c == '?' || c == '[' || c == ']'
  }

  predicate Complex(pattern: string) {
    exists c | c in pattern :: Special(c)
  }

  /** Sub-patterns are excluded if they start with an exclamation mark; empty ones do not count. */
  function Included(parts: seq<string>): seq<string> {
    if parts == [] then []
    else
      var p := parts[|parts| - 1];
      Included(parts[..|parts| - 1]) + if p == "" || p[0] == '!' then [] else [p]
  }

  function Excluded(parts: seq<string>): seq<string> {
    if parts == [] then []
    else
      var p := parts[|parts| - 1];
      Excluded(parts[..|parts| - 1]) + if |p| > 1 && p[0] == '!' then [p[1..]] else []
  }

  /** Every identifier prints with its prefix in front: `_get_str_ident_without_prefix`. */
  function WithoutPrefix(i: Ident): string {
    RemovePrefix(i.Print(), i.env)
  }

  predicate MatchText(pattern: string, s: string) {
    if Complex(pattern) then
      var parts := Split(pattern, '|');
      && (exists p | p in Included(parts) :: Glob(p, s))
      && !(exists p | p in Excluded(parts) :: Glob(p, s))
    else s == pattern
  }

  predicate Matches(pattern: string, i: Ident) {
    MatchText(pattern, WithoutPrefix(i))
  }

  predicate AllowedInPattern(c: char) {
    AllowedChar(UpperChar(c)) || c == '(' || c == ')' || c == '.' || Special(c)
  }

  /** What the constructor accepts: no foreign characters, and in a complex pattern something to include. */
  predicate Buildable(text: string) {
    && text != "" && (forall c | c in text :: AllowedInPattern(c))
    && (Complex(text) ==> Included(Split(Upper(text), '|')) != [])
  }

  lemma {:induction false} InParts(parts: seq<string>, p: string)
    ensures p in Included(parts) <==> p in parts && p != "" && p[0] != '!'
    ensures p in Excluded(parts) <==> p != "" && "!" + p in parts
  {
    if parts != [] {
      var q := parts[|parts| - 1];
      InParts(parts[..|parts| - 1], p);
      assert parts == parts[..|parts| - 1] + [q];
      assert q == "!" + p <==> |q| > 0 && q[0] == '!' && q[1..] == p;
    }
  }

  lemma SomeIncluded(parts: seq<string>, s: string)
    ensures (exists p | p in Included(parts) :: Glob(p, s)) <==>
      exists p | p in parts :: p != "" && p[0] != '!' && Glob(p, s)
  {
    forall p
      ensures p in Included(parts) <==> p in parts && p != "" && p[0] != '!'
    {
      InParts(parts, p);
    }
  }

  lemma SomeExcluded(parts: seq<string>, s: string)
    ensures (exists p | p in Excluded(parts) :: Glob(p, s)) <==>
      exists p | p in parts :: |p| > 1 && p[0] == '!' && Glob(p[1..], s)
  {
    if p :| p in Excluded(parts) && Glob(p, s) {
      InParts(parts, p);
      assert ("!" + p)[1..] == p;
    }
    if p :| p in parts && |p| > 1 && p[0] == '!' && Glob(p[1..], s) {
      InParts(parts, p[1..]);
      assert p == "!" + p[1..];
    }
  }

  /** A pattern with special characters matches what one of its sub-patterns matches and none that starts with an
      exclamation mark does; one without them is the name itself. */
  lemma MatchesExactly(pattern: string, i: Ident)
    ensures (exists c | c in pattern :: c in "|!*?[]") ==>
      (Matches(pattern, i) <==>
        && (exists p | p in Split(pattern, '|') :: p != "" && p[0] != '!' && Glob(p, WithoutPrefix(i)))
        && !(exists p | p in Split(pattern, '|') :: |p| > 1 && p[0] == '!' && Glob(p[1..], WithoutPrefix(i))))
    ensures (forall c | c in pattern :: c !in "|!*?[]") ==> (Matches(pattern, i) <==> WithoutPrefix(i) == pattern)
  {
    SpecialExactly(pattern);
    SomeIncluded(Split(pattern, '|'), WithoutPrefix(i));
    SomeExcluded(Split(pattern, '|'), WithoutPrefix(i));
  }

  lemma SpecialExactly(pattern: string)
    ensures Complex(pattern) <==> exists c | c in pattern :: c in "|!*?[]"
  {
    forall c
      ensures Special(c) <==> c in "|!*?[]"
    {
    }
  }

  class IdentPattern {
    const pattern: string
    const isComplex: bool
    var includes: seq<string>
    var excludes: seq<string>

    /** The sub-patterns are those of the pattern. */
    ghost predicate Valid()
      reads this
    {
      && isComplex == Complex(pattern)
      && (isComplex ==> includes == Included(Split(pattern, '|')) && excludes == Excluded(Split(pattern, '|')))
    }

    constructor (pattern: string)
      ensures this.pattern == pattern && Valid()
    {
      this.pattern := pattern;
      this.isComplex := Complex(pattern);
      includes, excludes := [], [];
      new;
      if isComplex {
        var parts := Split(pattern, '|');
        for i := 0 to |parts|
          invariant includes == Included(parts[..i]) && excludes == Excluded(parts[..i])
        {
          var sub := parts[i];
          var isExclude := false;
          assert parts[..i + 1][..i] == parts[..i];
          if sub != "" && sub[0] == '!' {
            isExclude := true;
            sub := sub[1..];
          }
          if sub != "" {
            if isExclude {
              excludes := excludes + [sub];
            } else {
              includes := includes + [sub];
            }
          }
        }
        assert parts[..|parts|] == parts;
      }
    }

    method IsMatchIdent(i: Ident) returns (r: bool)
      requires Valid()
      ensures r == Matches(pattern, i)
    {
      var s := WithoutPrefix(i);
      if isComplex {
        var isMatchInclude := exists p | p in includes :: Glob(p, s);
        var isMatchExclude := exists p | p in excludes :: Glob(p, s);
        return isMatchInclude && !isMatchExclude;
      }
      return s == pattern;
    }
  }

  lemma {:induction false} UpperKeepsSpecial(s: string)
    ensures Complex(Upper(s)) <==> Complex(s)
  {
    if s != "" {
      UpperKeepsSpecial(s[1..]);
      assert s == [s[0]] + s[1..] && Upper(s) == [UpperChar(s[0])] + Upper(s[1..]);
      assert Special(UpperChar(s[0])) <==> Special(s[0]);
    }
  }

  /** Letters, digits, and the characters of names and patterns. */
  predicate IsAccepted(c: char) {
    'A' <= c <= 'Z' || 'a' <= c <= 'z' || '0' <= c <= '9' || c in "_$()." || c in "|!*?[]"
  }

  lemma BuildableExactly(text: string)
    ensures Buildable(text) <==>
      && text != "" && (forall c | c in text :: IsAccepted(c))
      && ((exists c | c in text :: c in "|!*?[]") ==>
            exists p | p in Split(Upper(text), '|') :: p != "" && p[0] != '!')
  {
    SpecialExactly(text);
    forall c
      ensures AllowedInPattern(c) <==> IsAccepted(c)
    {
    }
    var parts := Split(Upper(text), '|');
    forall p
      ensures p in Included(parts) <==> p in parts && p != "" && p[0] != '!'
    {
      InParts(parts, p);
    }
    if Included(parts) != [] {
      assert Included(parts)[0] in Included(parts);
    }
  }

  /** `IdentPattern(text)`, with its errors as `null`. */
  method BuildPattern(text: string) returns (r: IdentPattern?)
    ensures r != null <==>
      && text != "" && (forall c | c in text :: IsAccepted(c))
      && ((exists c | c in text :: c in "|!*?[]") ==>
            exists p | p in Split(Upper(text), '|') :: p != "" && p[0] != '!')
    ensures r != null ==> fresh(r) && r.pattern == Upper(text) && r.Valid()
  {
    BuildableExactly(text);
    if text == "" || exists c | c in text :: !AllowedInPattern(c) {
      return null;
    }
    UpperKeepsSpecial(text);
    r := new IdentPattern(Upper(text));
    if r.isComplex && r.includes == [] {
      r := null;
    }
  }

  // ---------------------------------------------------------------------------------------------
  // All schemas of a database
  // ---------------------------------------------------------------------------------------------

  lemma {:induction false} GlobLiteral(literal: string, p: string, s: string)
    requires Free(literal, '*') && Free(literal, '?')
    ensures Glob(literal + p, s) <==> literal <= s && Glob(p, s[|literal|..])
  {
    if literal == "" {
      assert literal + p == p && s[0..] == s;
    } else {
      assert (literal + p)[1..] == literal[1..] + p;
      if s != "" {
        GlobLiteral(literal[1..], p, s[1..]);
        assert literal == [literal[0]] + literal[1..] && s == [s[0]] + s[1..];
        assert literal <= s <==> literal[0] == s[0] && literal[1..] <= s[1..];
        assert literal <= s ==> s[1..][|literal| - 1..] == s[|literal|..];
      }
    }
  }

  lemma {:induction false} GlobAnything(s: string)
    ensures Glob("*", s)
  {
    assert "*"[1..] == "";
    if s != "" {
      GlobAnything(s[1..]);
    }
  }

  /** The text that a schema is matched by. */
  lemma SchemaText(i: Ident)
    requires i.Schema?
    ensures WithoutPrefix(i) == i.database + "." + i.schema
  {
    var text := i.env + i.database + "." + i.schema;
    assert i.Path() == [i.env + i.database, i.schema];
    assert Join(i.Path()[1..], '.') == i.schema;
    assert i.Print() == text;
    assert text == i.env + (i.database + "." + i.schema);
    assert text[|i.env|..] == i.database + "." + i.schema;
  }

  lemma SplitFree(s: string, sep: char)
    requires Free(s, sep)
    ensures Split(s, sep) == [s]
  {
    BeforeConcat(s, "", sep);
    assert s + "" == s;
  }

  lemma IncludedAlone(p: string)
    requires p != "" && p[0] != '!'
    ensures Included([p]) == [p] && Excluded([p]) == []
  {
    var parts := [p];
    assert parts[..0] == [];
  }

  /** A pattern with one part that has nothing to exclude. */
  lemma OnePart(pattern: string, s: string)
    requires Complex(pattern) && Free(pattern, '|') && pattern[0] != '!'
    ensures MatchText(pattern, s) <==> Glob(pattern, s)
  {
    SplitFree(pattern, '|');
    IncludedAlone(pattern);
  }

  /** The pattern `DB.*` matches the schemas of that database, and no others. */
  lemma DatabasePatternMatchesItsSchemas(database: string, i: Ident)
    requires ValidPart(database) && i.Schema? && i.Valid()
    ensures Matches(database + ".*", i) <==> i.database == database
  {
    var literal, s := database + ".", WithoutPrefix(i);
    PlainIsFree(database, '|');
    PlainIsFree(database, '*');
    PlainIsFree(database, '?');
    assert database[0] in database;
    assert database + ".*" == literal + "*";
    assert (literal + "*")[|literal|] == '*';
    assert Special('*') && '*' in literal + "*";
    OnePart(literal + "*", s);
    SchemaText(i);
    GlobLiteral(literal, "*", s);
    if literal <= s {
      GlobAnything(s[|literal|..]);
    }
    FirstPart(database, i);
  }

  lemma FirstPart(database: string, i: Ident)
    requires ValidPart(database) && i.Schema? && i.Valid()
    ensures database + "." <= i.database + "." + i.schema <==> i.database == database
  {
    var s := i.database + "." + i.schema;
    PlainIsFree(database, '.');
    PlainIsFree(i.database, '.');
    assert s == i.database + ("." + i.schema);
    BeforeConcat(i.database, "." + i.schema, '.');
    assert Before("." + i.schema, '.') == "" && i.database + "" == i.database;
    if database + "." <= s {
      var rest := s[|database|..];
      assert rest[0] == (database + ".")[|database|];
      assert s == database + rest by {
        assert s[..|database|] == database;
      }
      BeforeConcat(database, rest, '.');
      assert database + "" == database;
    }
  }

  // ---------------------------------------------------------------------------------------------
  // Names in grant listings
  // ---------------------------------------------------------------------------------------------

  /** `p.strip('"')`. */
  function Unquoted(s: string): string {
    UnquotedEnd(UnquotedStart(s))
  }

  function UnquotedStart(s: string): string {
    if s != "" && s[0] == '"' then UnquotedStart(s[1..]) else s
  }

  function UnquotedEnd(s: string): string {
    if s != "" && s[|s| - 1] == '"' then UnquotedEnd(s[..|s| - 1]) else s
  }

  function UnquotedParts(parts: seq<string>): (r: seq<string>)
    ensures |r| == |parts| && forall i: nat | i < |parts| :: r[i] == Unquoted(parts[i])
  {
    seq(|parts|, i requires 0 <= i < |parts| => Unquoted(parts[i]))
  }

  /** `_validate_part`: an empty part or a foreign character is an error, the rest is put in upper case. */
  function Part(s: string): Option<string> {
    if ValidPart(Upper(s)) then Some(Upper(s)) else None
  }

  /** The last word of an argument. */
  function LastWord(s: string): string {
    if Free(s, ' ') then s else LastWord(s[|Before(s, ' ')| + 1..])
  }

  /** `s.strip(" ")`, at the start. */
  function SkipBlanks(s: string): string {
    if s != "" && s[0] == ' ' then SkipBlanks(s[1..]) else s
  }

  function SkipBlanksEnd(s: string): string {
    if s != "" && s[|s| - 1] == ' ' then SkipBlanksEnd(s[..|s| - 1]) else s
  }

  /** Blanks are taken off at both ends, and nothing else is. */
  lemma {:induction false} BlanksSkipped(s: string) returns (a: string, b: string)
    ensures var r := SkipBlanksEnd(SkipBlanks(s));
      && s == a + r + b && (forall c | c in a + b :: c == ' ')
      && (r != "" ==> r[0] != ' ' && r[|r| - 1] != ' ')
  {
    a := StartSkipped(s);
    b := EndSkipped(SkipBlanks(s));
    Unassociate(a, SkipBlanksEnd(SkipBlanks(s)), b);
  }

  lemma Unassociate(a: string, b: string, c: string)
    ensures a + (b + c) == a + b + c
  {
  }

  lemma {:induction false} StartSkipped(s: string) returns (a: string)
    ensures s == a + SkipBlanks(s) && (forall c | c in a :: c == ' ')
    ensures SkipBlanks(s) != "" ==> SkipBlanks(s)[0] != ' '
  {
    a := "";
    if s != "" && s[0] == ' ' {
      a := StartSkipped(s[1..]);
      a := " " + a;
    }
  }

  lemma {:induction false} EndSkipped(s: string) returns (b: string)
    ensures s == SkipBlanksEnd(s) + b && (forall c | c in b :: c == ' ')
    ensures SkipBlanksEnd(s) != "" ==> SkipBlanksEnd(s)[|SkipBlanksEnd(s)| - 1] != ' '
    decreases |s|
  {
    b := "";
    if s != "" && s[|s| - 1] == ' ' {
      b := EndSkipped(s[..|s| - 1]);
      b := b + " ";
    }
  }

  /** Unknown data types are an error. */
  function DataTypes(arguments: seq<string>, known: set<string>): Option<seq<string>> {
    if arguments == [] then Some([])
    else
      var t := LastWord(SkipBlanksEnd(SkipBlanks(arguments[0])));
      var rest := DataTypes(arguments[1..], known);
      if t !in known || rest.None? then None else Some([t] + rest.value)
  }

  /** Name and argument types of the last part of a function name. */
  function Signature(last: string, known: set<string>): Option<(string, seq<string>)> {
    var start, finish := |Before(last, '(')|, |Before(last, ')')|;
    if start == |last| || finish == |last| then None
    else
      var list := if finish < start + 1 then "" else last[start + 1..finish];
      var types := if list == "" then Some([]) else DataTypes(Split(list, ','), known);
      if types.None? then None else Some((last[..start], types.value))
  }

  /** A name without its parentheses is an error. */
  lemma SignatureNeedsParentheses(last: string, known: set<string>)
    requires '(' !in last || ')' !in last
    ensures Signature(last, known).None?
  {
  }

  /** `build_grant_name_ident`; errors of all kinds are `None`. */
  function BuildGrantNameIdent(env: string, text: string, on: ObjectType, known: set<string>): Option<Ident> {
    var e := if env <= text then env else "";
    FromParts(e, UnquotedParts(Split(RemovePrefix(text, env), '.')), on, known)
  }

  function FromParts(e: string, parts: seq<string>, on: ObjectType, known: set<string>): Option<Ident> {
    if |parts| == 3 then
      var first, second := Part(parts[0]), Part(parts[1]);
      var signature := if on.Overloaded() then Signature(parts[2], known) else Some((parts[2], []));
      if first.None? || second.None? || signature.None? || Part(signature.value.0).None? then None
      else
        var arguments := if on.Overloaded() then Some(signature.value.1) else None;
        Some(SchemaObject(e, first.value, second.value, Part(signature.value.0).value, arguments))
    else if |parts| == 2 then
      var first, second := Part(parts[0]), Part(parts[1]);
      if first.None? || second.None? then None
      else if on.DATABASE_ROLE? then Some(DatabaseRole(e, first.value, second.value))
      else Some(Schema(e, first.value, second.value))
    else if |parts| == 1 then
      var first := Part(parts[0]);
      if first.None? then None
      else if on.DATABASE? then Some(Database(e, first.value))
      else Some(AccountObject(e, first.value))
    else None
  }

  /** Which prefix a name is taken to have: the configured one if it starts with it. */
  predicate Canonical(env: string, own: string, text: string) {
    own == if env <= text then env else ""
  }

  lemma FirstOfPrint(i: Ident)
    ensures i.Path()[0] <= i.Print()
    ensures |i.Path()[0]| < |i.Print()| ==> !AllowedChar(i.Print()[|i.Path()[0]|])
  {
    JoinStarts(i.Path(), '.');
    assert Join(i.Path(), '.') <= i.Print();
  }

  lemma PlainPrefixEnds(env: string, s: string, n: nat)
    requires Plain(env) && env <= s && (n < |s| ==> !AllowedChar(s[n]))
    ensures |env| <= n
  {
    forall k | 0 <= k < |env|
      ensures AllowedChar(s[k])
    {
      assert env[k] in env && env[k] == s[k];
    }
  }

  /** A prefix, which has no dots and no parentheses, is looked for in the first part only. */
  lemma PrefixInFirstPart(env: string, i: Ident)
    requires Plain(env)
    ensures env <= i.Print() <==> env <= i.Path()[0]
  {
    FirstOfPrint(i);
    if env <= i.Print() {
      PlainPrefixEnds(env, i.Print(), |i.Path()[0]|);
    }
  }

  lemma FirstPartBuilt(e: string, parts: seq<string>, on: ObjectType, known: set<string>)
    requires FromParts(e, parts, on, known).Some?
    ensures parts != [] && ValidPart(Upper(parts[0]))
    ensures var i := FromParts(e, parts, on, known).value; i.env == e && i.Path()[0] == e + Upper(parts[0])
  {
  }

  /** What the first part of a listed name becomes when the name does not have the prefix. */
  function FirstPartText(text: string): string {
    Upper(Unquoted(Before(text, '.')))
  }

  /** A rebuilt identifier is taken to have the prefix exactly when what it prints starts with it, if and
      only if quotes and lower-case letters do not hide the prefix in the listing. */
  lemma RebuiltIsCanonicalExactly(env: string, text: string, on: ObjectType, known: set<string>)
    requires Plain(env) && BuildGrantNameIdent(env, text, on, known).Some?
    ensures var i := BuildGrantNameIdent(env, text, on, known).value;
            Canonical(env, i.env, i.Print()) <==> env == "" || env <= text || !(env <= FirstPartText(text))
  {
    var e := if env <= text then env else "";
    var parts := Split(RemovePrefix(text, env), '.');
    var i := BuildGrantNameIdent(env, text, on, known).value;
    FirstPartBuilt(e, UnquotedParts(parts), on, known);
    PrefixInFirstPart(env, i);
    if !(env <= text) {
      assert parts[0] == Before(text, '.');
      assert i.Path()[0] == FirstPartText(text);
    }
  }

  /** The listing writes the first part of a name as it is: no quotes, upper case. */
  predicate PlainStart(text: string) {
    ValidPart(Before(text, '.'))
  }

  lemma RebuiltIsCanonical(env: string, text: string, on: ObjectType, known: set<string>)
    requires Plain(env) && BuildGrantNameIdent(env, text, on, known).Some? && PlainStart(text)
    ensures var i := BuildGrantNameIdent(env, text, on, known).value; Canonical(env, i.env, i.Print())
    ensures !Hides(env, text)
  {
    PlainPart(Before(text, '.'));
    RebuiltIsCanonicalExactly(env, text, on, known);
  }

  /** Quotes or lower-case letters hide the prefix of a longer name from `startswith`. */
  predicate Hides(env: string, text: string) {
    !(env <= text) && env < FirstPartText(text)
  }

  /** The identifier has the prefix exactly when its first part goes on after it. */
  predicate OwnsPrefix(env: string, i: Ident) {
    Plain(i.Path()[0]) && i.env == if env < i.Path()[0] then env else ""
  }

  lemma RebuiltOwnsPrefixExactly(env: string, text: string, on: ObjectType, known: set<string>)
    requires Plain(env) && BuildGrantNameIdent(env, text, on, known).Some?
    ensures OwnsPrefix(env, BuildGrantNameIdent(env, text, on, known).value) <==> !Hides(env, text)
  {
    var e := if env <= text then env else "";
    var parts := Split(RemovePrefix(text, env), '.');
    var i := BuildGrantNameIdent(env, text, on, known).value;
    FirstPartBuilt(e, UnquotedParts(parts), on, known);
    assert Plain(i.Path()[0]);
    if !(env <= text) {
      assert parts[0] == Before(text, '.');
      assert i.Path()[0] == FirstPartText(text);
    }
  }

  /** Identifiers with plain first parts that print alike have the same first part. */
  lemma SameFirstPart(i: Ident, j: Ident)
    requires Plain(i.Path()[0]) && Plain(j.Path()[0]) && i.Print() == j.Print()
    ensures i.Path()[0] == j.Path()[0]
  {
    FirstOfPrint(i);
    FirstOfPrint(j);
    PlainPrefixEnds(i.Path()[0], j.Print(), |j.Path()[0]|);
    PlainPrefixEnds(j.Path()[0], i.Print(), |i.Path()[0]|);
  }

  /** ... so they agree about the prefix. */
  lemma SamePrefixOwned(env: string, i: Ident, j: Ident)
    requires OwnsPrefix(env, i) && OwnsPrefix(env, j) && i.Print() == j.Print()
    ensures i.env == j.env
  {
    SameFirstPart(i, j);
  }

  /** A declared name owns its prefix. */
  lemma ValidOwnsPrefix(i: Ident)
    requires ValidParts(i)
    ensures OwnsPrefix(i.env, i)
  {
  }

  /** The classes of identifiers that grants on a type have. */
  predicate Fits(i: Ident, on: ObjectType) {
    match i
    case AccountObject(_, _) => !on.DATABASE?
    case Database(_, _) => on.DATABASE?
    case DatabaseRole(_, _, _) => on.DATABASE_ROLE?
    case Schema(_, _, _) => !on.DATABASE_ROLE?
    case SchemaObject(_, _, _, _, arguments) => arguments.Some? <==> on.Overloaded()
  }

  /** How a listing may write a name: the parts of a plain name, the last one of a function name with
      its arguments, their names in front of their types, and the result after it. */
  datatype Style = Style(quoted: bool, argumentNames: seq<string>, result: string)

  function QuoteMark(style: Style): string {
    if style.quoted then "\"" else ""
  }

  function ArgumentTexts(names: seq<string>, types: seq<string>): (r: seq<string>)
    requires |names| == |types|
    ensures |r| == |types|
  {
    seq(|types|, i requires 0 <= i < |types| =>
      (if i == 0 then "" else " ") + ArgumentText(names[i], types[i]))
  }

  function LastPart(i: Ident, style: Style): string
    requires i.SchemaObject? && (i.arguments.Some? ==> |style.argumentNames| == |i.arguments.value|)
  {
    if i.arguments.None? then i.name else SignatureText(i.name, i.arguments.value, style)
  }

  function SignatureText(name: string, types: seq<string>, style: Style): string
    requires |style.argumentNames| == |types|
  {
    QuoteMark(style)
    + (name + ("(" + (Join(ArgumentTexts(style.argumentNames, types), ',') + (")" + style.result))))
    + QuoteMark(style)
  }

  predicate ValidStyle(i: Ident, style: Style) {
    i.SchemaObject? && i.arguments.Some? ==>
      && |style.argumentNames| == |i.arguments.value|
      && (forall n | n in style.argumentNames :: Plain(n))
      && Free(style.result, '.') && Free(style.result, '"')
  }

  /** The parts of the name, without the prefix, as the listing writes them. */
  function Written(i: Ident, style: Style): (parts: seq<string>)
    requires ValidStyle(i, style)
    ensures 1 <= |parts| <= 3
  {
    match i
    case AccountObject(_, name) => [name]
    case Database(_, database) => [database]
    case DatabaseRole(_, database, name) => [database, name]
    case Schema(_, database, schema) => [database, schema]
    case SchemaObject(_, database, schema, _, _) => [database, schema, LastPart(i, style)]
  }

  /** How the listing names `i`. */
  function NameText(i: Ident, style: Style): string
    requires ValidStyle(i, style)
  {
    i.env + Join(Written(i, style), '.')
  }

  // ---------------------------------------------------------------------------------------------
  // Rebuilding gives the identifier back
  // ---------------------------------------------------------------------------------------------

  lemma {:induction false} UnquotedStartOf(s: string)
    requires s != "" ==> s[0] != '"'
    ensures UnquotedStart(s) == s
  {
  }

  lemma {:induction false} UnquotedEndOf(s: string)
    requires s != "" ==> s[|s| - 1] != '"'
    ensures UnquotedEnd(s) == s
  {
  }

  lemma PlainPart(p: string)
    requires ValidPart(p)
    ensures Part(p) == Some(p) && Unquoted(p) == p && Free(p, '.')
  {
    PlainIsFree(p, '.');
    assert p[0] in p && p[|p| - 1] in p;
    UnquotedStartOf(p);
    UnquotedEndOf(p);
    forall i | 0 <= i < |p|
      ensures UpperChar(p[i]) == p[i]
    {
      assert p[i] in p;
    }
    UpperOfUpper(p);
  }

  lemma UnquotedBody(body: string, quote: string)
    requires quote == "" || quote == "\""
    requires body != "" && body[0] != '"' && body[|body| - 1] != '"'
    ensures Unquoted(quote + body + quote) == body
  {
    var s := quote + body + quote;
    if quote == "" {
      assert s == body;
    } else {
      assert s[1..] == body + quote;
      assert UnquotedStart(s) == UnquotedStart(body + quote);
      UnquotedStartOf(body + quote);
      assert (body + quote)[..|body|] == body;
    }
    UnquotedStartOf(body);
    UnquotedEndOf(body);
  }

  lemma {:induction false} LastWordOf(name: string, t: string)
    requires ValidPart(t) && Plain(name)
    ensures LastWord(ArgumentText(name, t)) == t
  {
    PlainIsFree(t, ' ');
    if name != "" {
      PlainIsFree(name, ' ');
      var s := name + " " + t;
      assert s == name + (" " + t);
      BeforeConcat(name, " " + t, ' ');
      assert Before(" " + t, ' ') == "" && name + "" == name;
      assert s[|name|] == ' ' && ' ' in s;
      assert s[|name| + 1..] == t;
    }
  }

  lemma {:induction false} SkipBlanksEndOf(s: string)
    requires s != "" ==> s[|s| - 1] != ' '
    ensures SkipBlanksEnd(s) == s
  {
  }

  function ArgumentText(name: string, t: string): string {
    if name == "" then t else name + " " + t
  }

  /** Words and blanks only. */
  predicate Blank(s: string) {
    forall c | c in s :: c == ' ' || AllowedChar(c)
  }

  lemma BlankIsFree(s: string, c: char)
    requires Blank(s) && c != ' ' && !AllowedChar(c)
    ensures Free(s, c)
  {
  }

  lemma BlanksOf(lead: string, body: string)
    requires (lead == "" || lead == " ") && body != "" && body[0] != ' ' && body[|body| - 1] != ' '
    ensures SkipBlanksEnd(SkipBlanks(lead + body)) == body
  {
    assert SkipBlanks(body) == body;
    if lead == " " {
      assert (lead + body)[1..] == body;
    } else {
      assert lead + body == body;
    }
    SkipBlanksEndOf(body);
  }

  lemma ArgumentTextIsPlain(lead: string, name: string, t: string)
    requires (lead == "" || lead == " ") && ValidPart(t) && Plain(name)
    ensures Blank(lead + ArgumentText(name, t))
    ensures var body := ArgumentText(name, t);
      body != "" && body[0] != ' ' && body[|body| - 1] != ' '
  {
    var body := ArgumentText(name, t);
    assert t[|t| - 1] in t && t[0] in t;
    assert name != "" ==> name[0] in name;
    assert body[|body| - 1] == t[|t| - 1];
  }

  lemma ArgumentTypeOf(lead: string, name: string, t: string)
    requires (lead == "" || lead == " ") && ValidPart(t) && Plain(name)
    ensures var s := lead + ArgumentText(name, t);
      && LastWord(SkipBlanksEnd(SkipBlanks(s))) == t
      && Free(s, ',') && Free(s, ')') && Free(s, '.') && Free(s, '"') && s != ""
  {
    var body := ArgumentText(name, t);
    assert SkipBlanksEnd(SkipBlanks(lead + body)) == body && body != "" by {
      ArgumentTextIsPlain(lead, name, t);
      BlanksOf(lead, body);
    }
    LastWordOf(name, t);
    assert Blank(lead + body) by {
      ArgumentTextIsPlain(lead, name, t);
    }
    BlankIsFree(lead + body, ',');
    BlankIsFree(lead + body, ')');
    BlankIsFree(lead + body, '.');
    BlankIsFree(lead + body, '"');
  }

  lemma {:induction false} DataTypesOf(texts: seq<string>, types: seq<string>, known: set<string>)
    requires |texts| == |types| && forall t | t in types :: t in known
    requires forall i: nat | i < |types| :: LastWord(SkipBlanksEnd(SkipBlanks(texts[i]))) == types[i]
    ensures DataTypes(texts, known) == Some(types)
  {
    if texts != [] {
      assert types[0] in types;
      DataTypesOf(texts[1..], types[1..], known);
      assert types == [types[0]] + types[1..];
    }
  }

  lemma ArgumentsRead(names: seq<string>, types: seq<string>, known: set<string>)
    requires |names| == |types| && (forall n | n in names :: Plain(n))
    requires forall t | t in types :: ValidPart(t) && t in known
    ensures var list := Join(ArgumentTexts(names, types), ',');
      && (if list == "" then types == [] else DataTypes(Split(list, ','), known) == Some(types))
      && Free(list, ')') && Free(list, '.') && Free(list, '"')
  {
    var texts := ArgumentTexts(names, types);
    forall i: nat | i < |types|
      ensures LastWord(SkipBlanksEnd(SkipBlanks(texts[i]))) == types[i] && texts[i] != ""
      ensures Free(texts[i], ',') && Free(texts[i], ')') && Free(texts[i], '.') && Free(texts[i], '"')
    {
      assert types[i] in types && names[i] in names;
      ArgumentTypeOf(if i == 0 then "" else " ", names[i], types[i]);
    }
    JoinFree(texts, ',', ')');
    JoinFree(texts, ',', '.');
    JoinFree(texts, ',', '"');
    if types != [] {
      SplitJoin(texts, ',');
      DataTypesOf(texts, types, known);
      assert texts[0] != "";
    }
  }

  lemma SignatureOf(name: string, list: string, tail: string, known: set<string>)
    requires ValidPart(name) && Free(list, ')')
    ensures Signature(name + ("(" + (list + (")" + tail))), known) ==
      var types := if list == "" then Some([]) else DataTypes(Split(list, ','), known);
      if types.None? then None else Some((name, types.value))
  {
    var rest := list + (")" + tail);
    var last := name + ("(" + rest);
    PlainIsFree(name, '(');
    PlainIsFree(name, ')');
    assert Before(last, '(') == name by {
      BeforeConcat(name, "(" + rest, '(');
      assert Before("(" + rest, '(') == "" && name + "" == name;
    }
    var open := name + "(" + list;
    assert last == open + (")" + tail);
    assert Before(last, ')') == open by {
      BeforeConcat(open, ")" + tail, ')');
      assert Before(")" + tail, ')') == "" && open + "" == open;
    }
    assert last[|name| + 1..|open|] == list;
    assert last[..|name|] == name;
  }

  lemma SignatureRead(name: string, types: seq<string>, style: Style, known: set<string>)
    requires ValidPart(name) && |style.argumentNames| == |types| && (forall n | n in style.argumentNames :: Plain(n))
    requires Free(style.result, '.') && Free(style.result, '"')
    requires forall t | t in types :: ValidPart(t) && t in known
    ensures Free(SignatureText(name, types, style), '.')
    ensures Signature(Unquoted(SignatureText(name, types, style)), known) == Some((name, types))
  {
    var list := Join(ArgumentTexts(style.argumentNames, types), ',');
    ArgumentsRead(style.argumentNames, types, known);
    SignatureOf(name, list, style.result, known);
    BodyIsFree(name, list, style.result);
    UnquotedBody(name + ("(" + (list + (")" + style.result))), QuoteMark(style));
  }

  lemma LastPartRead(i: Ident, style: Style, known: set<string>)
    requires i.Valid() && ValidStyle(i, style) && i.SchemaObject? && i.arguments.Some?
    requires forall t | t in i.arguments.value :: t in known
    requires ValidPart(i.name)
    ensures Free(LastPart(i, style), '.')
    ensures Signature(Unquoted(LastPart(i, style)), known) == Some((i.name, i.arguments.value))
  {
    SignatureRead(i.name, i.arguments.value, style, known);
  }

  lemma BodyIsFree(name: string, list: string, tail: string)
    requires ValidPart(name) && Free(list, '.') && Free(list, '"') && Free(tail, '.') && Free(tail, '"')
    ensures var body := name + ("(" + (list + (")" + tail)));
      && body != "" && body[0] != '"' && body[|body| - 1] != '"'
      && Free("\"" + body + "\"", '.') && Free("" + body + "", '.')
  {
    var body := name + ("(" + (list + (")" + tail)));
    PlainIsFree(name, '.');
    PlainIsFree(name, '"');
    assert Free(body, '.') && Free(body, '"');
    assert body[0] in body && body[|body| - 1] in body;
  }

  /** Parts are not empty and use only the allowed characters. */
  predicate ValidParts(i: Ident) {
    && i.Valid()
    && (i.DatabaseRole? ==> ValidPart(i.name))
    && (i.Schema? ==> ValidPart(i.schema))
    && (i.SchemaObject? ==> ValidPart(i.schema) && ValidPart(i.name))
  }

  lemma SplitText(env: string, own: string, parts: seq<string>)
    requires parts != [] && forall p | p in parts :: Free(p, '.')
    requires Canonical(env, own, own + Join(parts, '.'))
    ensures Split(RemovePrefix(own + Join(parts, '.'), env), '.') == parts
  {
    var text := own + Join(parts, '.');
    if env <= text {
      assert text[|env|..] == Join(parts, '.');
    } else {
      assert text == Join(parts, '.');
    }
    SplitJoin(parts, '.');
  }

  lemma ShortFromParts(i: Ident, on: ObjectType, style: Style, known: set<string>)
    requires ValidParts(i) && ValidStyle(i, style) && Fits(i, on) && !i.SchemaObject?
    ensures (forall p | p in Written(i, style) :: Free(p, '.'))
    ensures FromParts(i.env, UnquotedParts(Written(i, style)), on, known) == Some(i)
  {
    match i
    case AccountObject(_, name) => PlainPart(name);
    case Database(_, database) => PlainPart(database);
    case DatabaseRole(_, database, name) =>
      PlainPart(database);
      PlainPart(name);
    case Schema(_, database, schema) =>
      PlainPart(database);
      PlainPart(schema);
  }

  lemma LongFromParts(i: Ident, on: ObjectType, style: Style, known: set<string>)
    requires ValidParts(i) && ValidStyle(i, style) && Fits(i, on) && i.SchemaObject?
    requires i.arguments.Some? ==> forall t | t in i.arguments.value :: t in known
    ensures (forall p | p in Written(i, style) :: Free(p, '.'))
    ensures FromParts(i.env, UnquotedParts(Written(i, style)), on, known) == Some(i)
  {
    PlainPart(i.database);
    PlainPart(i.schema);
    PlainPart(i.name);
    if i.arguments.Some? {
      LastPartRead(i, style, known);
    }
    assert Written(i, style) == [i.database, i.schema, LastPart(i, style)];
  }

  /** From the name in a listing the identifier is built again, prefix and all. */
  lemma RebuildsIdent(env: string, i: Ident, on: ObjectType, style: Style, known: set<string>)
    requires ValidParts(i) && ValidStyle(i, style) && Fits(i, on) && Canonical(env, i.env, NameText(i, style))
    requires i.SchemaObject? && i.arguments.Some? ==> forall t | t in i.arguments.value :: t in known
    ensures BuildGrantNameIdent(env, NameText(i, style), on, known) == Some(i)
  {
    if i.SchemaObject? {
      LongFromParts(i, on, style, known);
    } else {
      ShortFromParts(i, on, style, known);
    }
    SplitText(env, i.env, Written(i, style));
  }
}
