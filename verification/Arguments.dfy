/** Data types of function arguments, read from SHOW output: `split_by_comma_outside_parentheses`
    and `dtypes_from_arguments`. */
module Arguments {
  import opened Basics
  import opened Idents
  import opened Strings

  // ---------------------------------------------------------------------------------------------
  // Splitting
  // ---------------------------------------------------------------------------------------------

  function Deeper(c: char, depth: int): int {
    if c == '(' then depth + 1 else if c == ')' then depth - 1 else depth
  }

  /** The parts of what is left, where `current` was collected before. */
  function SplitFrom(s: string, current: string, depth: int): seq<string>
    decreases |s|
  {
    if s == "" then (if current == "" then [] else [Strip(current)])
    else if s[0] == ',' && depth == 0 then [Strip(current)] + SplitFrom(s[1..], "", 0)
    else SplitFrom(s[1..], current + [s[0]], Deeper(s[0], depth))
  }

  method SplitByCommaOutsideParentheses(s: string) returns (parts: seq<string>)
    ensures parts == SplitFrom(s, "", 0)
  {
    parts := [];
    var current, depth := "", 0;
    assert s[0..] == s;
    for i := 0 to |s|
      invariant SplitFrom(s, "", 0) == parts + SplitFrom(s[i..], current, depth)
    {
      var c := s[i];
      assert s[i..][0] == c && s[i..][1..] == s[i + 1..];
      if c == ',' && depth == 0 {
        parts := parts + [Strip(current)];
        current := "";
      } else {
        if c == '(' {
          depth := depth + 1;
        } else if c == ')' {
          depth := depth - 1;
        }
        current := current + [c];
      }
    }
    if current != "" {
      parts := parts + [Strip(current)];
    }
  }

  /** No comma of `p` is outside of parentheses, starting at some depth. */
  predicate Sealed(p: string, depth: int) {
    p == "" || (!(p[0] == ',' && depth == 0) && Sealed(p[1..], Deeper(p[0], depth)))
  }

  function DepthAfter(p: string, depth: int): int {
    if p == "" then depth else DepthAfter(p[1..], Deeper(p[0], depth))
  }

  predicate Balanced(p: string) {
    Sealed(p, 0) && DepthAfter(p, 0) == 0
  }

  function Stripped(parts: seq<string>): (r: seq<string>)
    ensures |r| == |parts|
  {
    seq(|parts|, i requires 0 <= i < |parts| => Strip(parts[i]))
  }

  lemma {:induction false} SplitTakesSealed(p: string, t: string, current: string, depth: int)
    requires Sealed(p, depth)
    ensures SplitFrom(p + t, current, depth) == SplitFrom(t, current + p, DepthAfter(p, depth))
  {
    if p == "" {
      assert p + t == t && current + p == current;
    } else {
      assert (p + t)[1..] == p[1..] + t;
      SplitTakesSealed(p[1..], t, current + [p[0]], Deeper(p[0], depth));
      assert current + [p[0]] + p[1..] == current + p;
    }
  }

  /** Splitting a comma-join of balanced parts gives the trimmed parts, if the last one is not empty. */
  lemma {:induction false} SplitOfJoin(parts: seq<string>)
    requires parts != [] && parts[|parts| - 1] != "" && forall p | p in parts :: Balanced(p)
    ensures SplitFrom(Join(parts, ','), "", 0) == Stripped(parts)
  {
    if |parts| == 1 {
      SplitLast(parts[0]);
    } else {
      SplitOfJoin(parts[1..]);
      SplitFirst(parts[0], Join(parts[1..], ','));
      JoinFirst(parts);
      assert Stripped(parts) == [Strip(parts[0])] + Stripped(parts[1..]);
    }
  }

  lemma JoinFirst(parts: seq<string>)
    requires |parts| > 1
    ensures Join(parts, ',') == parts[0] + ([','] + Join(parts[1..], ','))
  {
  }

  lemma SplitLast(p: string)
    requires Balanced(p) && p != ""
    ensures SplitFrom(p, "", 0) == [Strip(p)]
  {
    assert p + "" == p && "" + p == p;
    SplitTakesSealed(p, "", "", 0);
  }

  lemma SplitFirst(p: string, rest: string)
    requires Balanced(p)
    ensures SplitFrom(p + ([','] + rest), "", 0) == [Strip(p)] + SplitFrom(rest, "", 0)
  {
    SplitTakesSealed(p, [','] + rest, "", 0);
    assert "" + p == p && ([','] + rest)[1..] == rest;
  }

  // ---------------------------------------------------------------------------------------------
  // Data types
  // ---------------------------------------------------------------------------------------------

  const RETURN := ") RETURN "
  const DEFAULT := "DEFAULT "

  /** `s.find(w)`. */
  function Find(s: string, w: string): (r: Option<nat>)
    ensures r.Some? ==> r.value <= |s|
  {
    if w <= s then Some(0)
    else if s == "" then None
    else
      var r := Find(s[1..], w);
      if r.None? then None else Some(r.value + 1)
  }

  function BaseType(part: string): string {
    Before(RemovePrefix(part, DEFAULT), '(')
  }

  function BaseTypes(parts: seq<string>): (r: seq<string>)
    ensures |r| == |parts| && forall i: nat | i < |parts| :: r[i] == BaseType(parts[i])
  {
    seq(|parts|, i requires 0 <= i < |parts| => BaseType(parts[i]))
  }

  /** The text between the first opening parenthesis and the first place where `after` stands. */
  function Inside(arguments: string, after: string): Option<string> {
    var start := |Before(arguments, '(')|;
    var finish := Find(arguments, after);
    if start == |arguments| || finish.None? then None
    else Some(if finish.value < start + 1 then "" else arguments[start + 1..finish.value])
  }

  /** Raises an error where the text has no such part. */
  function Dtypes(arguments: string): Option<string> {
    var inside := Inside(arguments, RETURN);
    if inside.None? then None else Some(Join(BaseTypes(SplitFrom(inside.value, "", 0)), ','))
  }

  lemma {:induction false} FindExactly(s: string, w: string)
    ensures Find(s, w).None? <==> forall k | 0 <= k <= |s| :: !(w <= s[k..])
    ensures Find(s, w).Some? ==>
      var n := Find(s, w).value; w <= s[n..] && forall k | 0 <= k < n :: !(w <= s[k..])
  {
    assert s[0..] == s;
    if s != "" && !(w <= s) {
      FindExactly(s[1..], w);
      forall k | 0 < k <= |s|
        ensures s[k..] == s[1..][k - 1..]
      {
      }
    }
  }

  /** The text needs an opening parenthesis and a return type. */
  lemma DtypesFailExactly(arguments: string)
    ensures Dtypes(arguments).None? <==>
      '(' !in arguments || forall k | 0 <= k <= |arguments| :: !(") RETURN " <= arguments[k..])
  {
    FindExactly(arguments, ") RETURN ");
  }

  method DtypesFromArguments(arguments: string) returns (r: Option<string>)
    ensures r == Dtypes(arguments)
  {
    var inside := Inside(arguments, RETURN);
    if inside.None? {
      return None;
    }
    var parts := SplitByCommaOutsideParentheses(inside.value);
    var allDtypes: seq<string> := [];
    for i := 0 to |parts|
      invariant allDtypes == BaseTypes(parts[..i])
    {
      allDtypes := allDtypes + [BaseType(parts[i])];
      assert parts[..i + 1] == parts[..i] + [parts[i]];
    }
    assert parts[..|parts|] == parts;
    r := Some(Join(allDtypes, ','));
  }

  // ---------------------------------------------------------------------------------------------
  // What SHOW prints
  // ---------------------------------------------------------------------------------------------

  /** An argument type, with what SHOW may print around its base name. */
  datatype Argument = Argument(optional: bool, base: string, size: Option<string>)

  predicate ValidArgument(a: Argument) {
    && ValidPart(a.base)
    && (a.size.Some? ==> Free(a.size.value, '(') && Free(a.size.value, ')'))
  }

  function Default(a: Argument): string {
    if a.optional then DEFAULT else ""
  }

  function Size(a: Argument): string {
    if a.size.Some? then "(" + a.size.value + ")" else ""
  }

  function ArgumentText(a: Argument): string {
    Default(a) + (a.base + Size(a))
  }

  /** Between arguments SHOW prints a comma and a space. */
  function ArgumentTexts(arguments: seq<Argument>): (r: seq<string>)
    ensures |r| == |arguments|
  {
    seq(|arguments|, i requires 0 <= i < |arguments| => (if i == 0 then "" else " ") + ArgumentText(arguments[i]))
  }

  function Shown(name: string, arguments: seq<Argument>, returned: string): string {
    name + ("(" + (Join(ArgumentTexts(arguments), ',') + (RETURN + returned)))
  }

  function Bases(arguments: seq<Argument>): (r: seq<string>)
    ensures |r| == |arguments| && forall i: nat | i < |arguments| :: r[i] == arguments[i].base
  {
    seq(|arguments|, i requires 0 <= i < |arguments| => arguments[i].base)
  }

  lemma {:induction false} PlainIsBalanced(p: string, depth: int)
    requires Free(p, '(') && Free(p, ')') && (Free(p, ',') || depth > 0)
    ensures Sealed(p, depth) && DepthAfter(p, depth) == depth
  {
    if p != "" {
      PlainIsBalanced(p[1..], depth);
    }
  }

  lemma {:induction false} SealedConcat(a: string, b: string, depth: int)
    requires Sealed(a, depth) && Sealed(b, DepthAfter(a, depth))
    ensures Sealed(a + b, depth) && DepthAfter(a + b, depth) == DepthAfter(b, DepthAfter(a, depth))
  {
    if a == "" {
      assert a + b == b;
    } else {
      assert (a + b)[1..] == a[1..] + b;
      SealedConcat(a[1..], b, Deeper(a[0], depth));
    }
  }

  lemma SizeIsBalanced(size: string)
    requires Free(size, '(') && Free(size, ')')
    ensures Balanced("(" + size + ")")
  {
    var s := "(" + size + ")";
    assert s[1..] == size + ")";
    PlainIsBalanced(size, 1);
    SealedConcat(size, ")", 1);
  }

  lemma BalancedConcat(a: string, b: string)
    requires Balanced(a) && Balanced(b)
    ensures Balanced(a + b)
  {
    SealedConcat(a, b, 0);
  }

  lemma FreeIsBalanced(s: string)
    requires Free(s, '(') && Free(s, ')') && Free(s, ',')
    ensures Balanced(s)
  {
    PlainIsBalanced(s, 0);
  }

  lemma FrontIsBalanced(a: Argument, lead: string)
    requires lead == "" || lead == " "
    ensures Balanced(lead + Default(a))
  {
    FreeIsBalanced(lead + Default(a));
  }

  lemma TypeIsBalanced(a: Argument)
    requires ValidArgument(a)
    ensures Balanced(a.base + Size(a))
  {
    PlainIsFree(a.base, '(');
    PlainIsFree(a.base, ')');
    PlainIsFree(a.base, ',');
    FreeIsBalanced(a.base);
    if a.size.Some? {
      SizeIsBalanced(a.size.value);
    } else {
      FreeIsBalanced("");
    }
    BalancedConcat(a.base, Size(a));
  }

  lemma ArgumentIsBalanced(a: Argument, lead: string)
    requires ValidArgument(a) && (lead == "" || lead == " ")
    ensures Balanced(lead + ArgumentText(a))
  {
    FrontIsBalanced(a, lead);
    TypeIsBalanced(a);
    BalancedConcat(lead + Default(a), a.base + Size(a));
    assert lead + ArgumentText(a) == (lead + Default(a)) + (a.base + Size(a));
  }

  lemma {:induction false} StripEndOf(s: string)
    requires s != "" ==> !Space(s[|s| - 1])
    ensures StripEnd(s) == s
  {
  }

  lemma StripArgument(a: Argument, lead: string)
    requires ValidArgument(a) && (lead == "" || lead == " ")
    ensures Strip(lead + ArgumentText(a)) == ArgumentText(a)
  {
    var s := ArgumentText(a);
    var base := a.base;
    assert AllowedChar(base[0]) && AllowedChar(base[|base| - 1]) by {
      assert base[0] in base && base[|base| - 1] in base;
    }
    assert s[0] == if a.optional then 'D' else base[0];
    assert s[|s| - 1] == if a.size.Some? then ')' else base[|base| - 1];
    assert SkipSpaces(s) == s;
    if lead == " " {
      assert (lead + s)[1..] == s;
    } else {
      assert lead + s == s;
    }
    assert SkipSpaces(lead + s) == s;
    StripEndOf(s);
  }

  lemma BaseOfArgument(a: Argument)
    requires ValidArgument(a)
    ensures BaseType(ArgumentText(a)) == a.base
  {
    var tail := Size(a);
    var rest := a.base + tail;
    assert RemovePrefix(ArgumentText(a), DEFAULT) == rest by {
      if a.optional {
        assert ArgumentText(a) == DEFAULT + rest;
        assert (DEFAULT + rest)[|DEFAULT|..] == rest;
      } else {
        assert ArgumentText(a) == rest;
        NotDefault(a.base, tail);
      }
    }
    PlainIsFree(a.base, '(');
    BeforeConcat(a.base, tail, '(');
    assert Before(tail, '(') == "" && a.base + "" == a.base;
  }

  /** A bare type never reads as if it were optional. */
  lemma NotDefault(base: string, tail: string)
    requires ValidPart(base) && (tail == "" || tail[0] == '(')
    ensures !(DEFAULT <= base + tail)
  {
    var s := base + tail;
    assert |base| > 7 ==> base[7] in base && s[7] == base[7];
    assert tail != "" ==> s[|base|] == '(';
  }

  // ---------------------------------------------------------------------------------------------
  // Where the argument list ends
  // ---------------------------------------------------------------------------------------------

  /** No closing parenthesis is followed by a space. */
  predicate Tight(s: string) {
    forall i: nat, j: nat | i < j < |s| && j == i + 1 :: s[i] == ')' ==> s[j] != ' '
  }

  lemma TightConcat(a: string, b: string)
    requires Tight(a) && Tight(b) && (b != "" ==> b[0] != ' ' || a == "" || a[|a| - 1] != ')')
    ensures Tight(a + b)
  {
  }

  lemma ArgumentIsTight(a: Argument, lead: string)
    requires ValidArgument(a) && (lead == "" || lead == " ")
    ensures Tight(lead + ArgumentText(a)) && lead + ArgumentText(a) != ""
  {
    var front := lead + Default(a) + a.base;
    assert Tight(front) by {
      PlainIsFree(a.base, ')');
      assert Free(lead + Default(a), ')');
      FreeIsTight(front);
    }
    assert Tight(Size(a)) && (Size(a) != "" ==> Size(a)[0] == '(') by {
      if a.size.Some? {
        FreeIsTight("(" + a.size.value);
        TightConcat("(" + a.size.value, ")");
      }
    }
    TightConcat(front, Size(a));
    assert lead + ArgumentText(a) == front + Size(a);
  }

  lemma FreeIsTight(s: string)
    requires Free(s, ')')
    ensures Tight(s)
  {
  }

  lemma {:induction false} JoinIsTight(parts: seq<string>)
    requires forall p | p in parts :: Tight(p)
    ensures Tight(Join(parts, ','))
  {
    if |parts| == 1 {
      assert Tight(parts[0]);
    } else if |parts| > 1 {
      JoinIsTight(parts[1..]);
      TightConcat([','], Join(parts[1..], ','));
      TightConcat(parts[0], [','] + Join(parts[1..], ','));
      assert Join(parts, ',') == parts[0] + ([','] + Join(parts[1..], ','));
    }
  }

  /** In a text without such a place the search goes on to the one after it. */
  lemma {:induction false} FindAfter(s: string, w: string, t: string)
    requires Tight(s) && |w| > 1 && w[0] == ')' && w[1] == ' '
    ensures Find(s + (w + t), w) == Some(|s|)
  {
    var text := s + (w + t);
    if s == "" {
      assert text == w + t;
    } else {
      assert text[1..] == s[1..] + (w + t);
      assert Tight(s[1..]);
      FindAfter(s[1..], w, t);
      assert text[0] == s[0];
      assert text[1] == if |s| > 1 then s[1] else w[0];
      assert text[0] == ')' ==> text[1] != ' ';
    }
  }

  lemma ListIsTight(name: string, arguments: seq<Argument>)
    requires ValidPart(name) && forall a | a in arguments :: ValidArgument(a)
    ensures Tight(name + ("(" + Join(ArgumentTexts(arguments), ',')))
  {
    var list := Join(ArgumentTexts(arguments), ',');
    forall p | p in ArgumentTexts(arguments)
      ensures Tight(p)
    {
      var i: nat :| i < |arguments| && ArgumentTexts(arguments)[i] == p;
      ArgumentIsTight(arguments[i], if i == 0 then "" else " ");
    }
    JoinIsTight(ArgumentTexts(arguments));
    PlainIsFree(name, ')');
    TightConcat("(", list);
    TightConcat(name, "(" + list);
  }

  lemma InsideAt(arguments: string, after: string, start: nat, finish: nat)
    requires |Before(arguments, '(')| == start < finish && Find(arguments, after) == Some(finish)
    ensures finish <= |arguments| && Inside(arguments, after) == Some(arguments[start + 1..finish])
  {
  }

  lemma Middle(a: string, b: string, c: string)
    ensures (a + b + c)[|a|..|a| + |b|] == b
  {
  }

  lemma ListStarts(name: string, rest: string)
    requires Free(name, '(')
    ensures Before(name + ("(" + rest), '(') == name
  {
    BeforeConcat(name, "(" + rest, '(');
    assert Before("(" + rest, '(') == "" && name + "" == name;
  }

  lemma Regroup(a: string, b: string, c: string)
    ensures a + ("(" + (b + c)) == a + ("(" + b) + c
    ensures a + ("(" + (b + c)) == a + "(" + b + c
  {
  }

  lemma InsideParts(name: string, list: string, w: string, t: string)
    requires Free(name, '(') && Find(name + ("(" + list) + (w + t), w) == Some(|name| + 1 + |list|)
    ensures Inside(name + ("(" + (list + (w + t))), w) == Some(list)
  {
    var text := name + ("(" + (list + (w + t)));
    ListStarts(name, list + (w + t));
    Regroup(name, list, w + t);
    InsideAt(text, w, |name|, |name| + 1 + |list|);
    Middle(name + "(", list, w + t);
  }

  lemma InsideShown(name: string, arguments: seq<Argument>, returned: string)
    requires ValidPart(name) && forall a | a in arguments :: ValidArgument(a)
    ensures Inside(Shown(name, arguments, returned), RETURN) == Some(Join(ArgumentTexts(arguments), ','))
  {
    PlainIsFree(name, '(');
    ListIsTight(name, arguments);
    FindAfter(name + ("(" + Join(ArgumentTexts(arguments), ',')), RETURN, returned);
    InsideParts(name, Join(ArgumentTexts(arguments), ','), RETURN, returned);
  }

  /** From what SHOW prints for a function the reader gets the comma-joined base types. */
  lemma DtypesOfShown(name: string, arguments: seq<Argument>, returned: string)
    requires ValidPart(name) && forall a | a in arguments :: ValidArgument(a)
    ensures Dtypes(Shown(name, arguments, returned)) == Some(Join(Bases(arguments), ','))
  {
    var texts := ArgumentTexts(arguments);
    InsideShown(name, arguments, returned);
    if arguments == [] {
      assert texts == [] && BaseTypes([]) == [] && Bases(arguments) == [];
    } else {
      forall i: nat | i < |texts|
        ensures Balanced(texts[i]) && texts[i] != "" && BaseType(Strip(texts[i])) == arguments[i].base
      {
        var lead := if i == 0 then "" else " ";
        ArgumentIsBalanced(arguments[i], lead);
        ArgumentIsTight(arguments[i], lead);
        StripArgument(arguments[i], lead);
        BaseOfArgument(arguments[i]);
      }
      SplitOfJoin(texts);
      assert BaseTypes(Stripped(texts)) == Bases(arguments);
    }
  }

  // ---------------------------------------------------------------------------------------------
  // Keys
  // ---------------------------------------------------------------------------------------------

  /** The key under which the resolver files an existing function. */
  function ExistingKey(catalog: string, schema: string, name: string, dtypes: string): string {
    Join([catalog, schema, name], '.') + ("(" + dtypes + ")")
  }

  lemma {:induction false} JoinNotEmpty(parts: seq<string>)
    requires parts != [] && parts[0] != ""
    ensures Join(parts, ',') != ""
  {
  }

  lemma TypesDetermined(a: seq<string>, b: seq<string>)
    requires (forall x | x in a :: ValidPart(x)) && (forall x | x in b :: ValidPart(x))
    requires Join(a, ',') == Join(b, ',')
    ensures a == b
  {
    forall x | x in a
      ensures Free(x, ',')
    {
      PlainIsFree(x, ',');
    }
    forall x | x in b
      ensures Free(x, ',')
    {
      PlainIsFree(x, ',');
    }
    assert a != [] ==> a[0] in a;
    assert b != [] ==> b[0] in b;
    if a != [] {
      JoinNotEmpty(a);
      SplitJoin(a, ',');
    }
    if b != [] {
      JoinNotEmpty(b);
      SplitJoin(b, ',');
    }
  }

  /** The key of an existing function is the printed name of a blueprint exactly when database, schema,
      name and base types agree. */
  lemma KeyIsBlueprintName(catalog: string, schema: string, name: string, arguments: seq<Argument>,
                           returned: string, bp: Ident)
    requires ValidPart(catalog) && ValidPart(schema) && ValidPart(name)
    requires forall a | a in arguments :: ValidArgument(a)
    requires bp.SchemaObject? && bp.arguments.Some? && bp.Valid()
    ensures Dtypes(Shown(name, arguments, returned)).Some?
    ensures ExistingKey(catalog, schema, name, Dtypes(Shown(name, arguments, returned)).value) == bp.Print()
       <==> catalog == bp.env + bp.database && schema == bp.schema && name == bp.name
            && Bases(arguments) == bp.arguments.value
  {
    DtypesOfShown(name, arguments, returned);
    var existing := SchemaObject("", catalog, schema, name, Some(Bases(arguments)));
    assert "" + catalog == catalog;
    assert existing.Print() == ExistingKey(catalog, schema, name, Join(Bases(arguments), ','));
    forall x | x in Bases(arguments)
      ensures ValidPart(x)
    {
      var i: nat :| i < |arguments| && Bases(arguments)[i] == x;
      assert arguments[i] in arguments;
    }
    assert existing.Valid();
    if existing.Print() == bp.Print() {
      PrintDeterminesPath(existing, bp);
      assert existing.Path()[0] == bp.Path()[0] && existing.Path()[1] == bp.Path()[1];
      assert existing.Path()[2] == bp.Path()[2];
      var a, b := existing.Suffix(), bp.Suffix();
      assert a[1..|a| - 1] == Join(Bases(arguments), ',') && b[1..|b| - 1] == Join(bp.arguments.value, ',');
      TypesDetermined(Bases(arguments), bp.arguments.value);
    }
  }
}
