/** Grants from patterns: the grant loop of database roles and outbound shares, and the role grants that
    a database pattern expands to. */
module PatternGrants {
  import opened Basics
  import opened IdentPatterns
  import opened Idents
  import opened ObjectTypes
  import opened RoleGrants
  import opened Strings

  datatype GrantPattern = GrantPattern(privilege: string, on: ObjectType, pattern: string) {
    /** `GrantPattern.is_matching_grant`. */
    predicate Covers(g: Grant) {
      && privilege == g.privilege
      && on.ForGrant() == g.on.ForGrant()
      && IdentPatterns.Matches(pattern, g.name)
    }
  }

  /** Names of the declared objects, by the type that grants go by. */
  type Declared = map<ObjectType, seq<Ident>>

  function Names(declared: Declared, on: ObjectType): seq<Ident> {
    if on in declared then declared[on] else []
  }

  /** `get_blueprints_by_type_and_pattern`. */
  function Selected(pattern: string, names: seq<Ident>): seq<Ident> {
    if names == [] then []
    else
      var i := names[|names| - 1];
      Selected(pattern, names[..|names| - 1]) + if IdentPatterns.Matches(pattern, i) then [i] else []
  }

  lemma {:induction false} InSelected(pattern: string, names: seq<Ident>, i: Ident)
    ensures i in Selected(pattern, names) <==> i in names && IdentPatterns.Matches(pattern, i)
  {
    if names != [] {
      InSelected(pattern, names[..|names| - 1], i);
      assert names == names[..|names| - 1] + [names[|names| - 1]];
    }
  }

  function GrantsOn(p: GrantPattern, names: seq<Ident>): (gs: seq<Grant>)
    ensures |gs| == |names| && forall k: nat | k < |names| :: gs[k] == Grant(p.privilege, p.on, names[k])
  {
    seq(|names|, k requires 0 <= k < |names| => Grant(p.privilege, p.on, names[k]))
  }

  /** `expand_grant_patterns_to_grants`. */
  function Expand(patterns: seq<GrantPattern>, declared: Declared): seq<Grant> {
    if patterns == [] then []
    else
      var p := patterns[|patterns| - 1];
      Expand(patterns[..|patterns| - 1], declared) + GrantsOn(p, Selected(p.pattern, Names(declared, p.on)))
  }

  lemma InGrantsOn(p: GrantPattern, names: seq<Ident>, g: Grant)
    ensures g in GrantsOn(p, names) <==> g.privilege == p.privilege && g.on == p.on && g.name in names
  {
    if g.privilege == p.privilege && g.on == p.on && g.name in names {
      var k: nat :| k < |names| && names[k] == g.name;
      assert GrantsOn(p, names)[k] == g;
    }
  }

  /** The grant comes from the pattern and a declared object that it matches. */
  predicate ComesFrom(p: GrantPattern, declared: Declared, g: Grant) {
    p.privilege == g.privilege && p.on == g.on && g.name in Names(declared, p.on) && p.Covers(g)
  }

  predicate ComesFromSome(patterns: seq<GrantPattern>, declared: Declared, g: Grant) {
    exists p | p in patterns :: ComesFrom(p, declared, g)
  }

  lemma InExpandOne(p: GrantPattern, declared: Declared, g: Grant)
    ensures g in GrantsOn(p, Selected(p.pattern, Names(declared, p.on))) <==> ComesFrom(p, declared, g)
  {
    InGrantsOn(p, Selected(p.pattern, Names(declared, p.on)), g);
    InSelected(p.pattern, Names(declared, p.on), g.name);
  }

  /** The expansion has a grant for every declared object that a pattern matches, and no other. */
  lemma {:induction false} InExpand(patterns: seq<GrantPattern>, declared: Declared, g: Grant)
    ensures g in Expand(patterns, declared) <==> ComesFromSome(patterns, declared, g)
  {
    if patterns != [] {
      InExpand(patterns[..|patterns| - 1], declared, g);
      InExpandLast(patterns, declared, g);
      ComesFromLast(patterns, declared, g);
    }
  }

  lemma InExpandLast(patterns: seq<GrantPattern>, declared: Declared, g: Grant)
    requires patterns != []
    ensures g in Expand(patterns, declared) <==>
      g in Expand(patterns[..|patterns| - 1], declared) || ComesFrom(patterns[|patterns| - 1], declared, g)
  {
    InExpandOne(patterns[|patterns| - 1], declared, g);
  }

  lemma ComesFromLast(patterns: seq<GrantPattern>, declared: Declared, g: Grant)
    requires patterns != []
    ensures ComesFromSome(patterns, declared, g) <==>
      ComesFromSome(patterns[..|patterns| - 1], declared, g) || ComesFrom(patterns[|patterns| - 1], declared, g)
  {
    var rest, p := patterns[..|patterns| - 1], patterns[|patterns| - 1];
    assert patterns == rest + [p];
    if ComesFromSome(patterns, declared, g) {
      var q :| q in patterns && ComesFrom(q, declared, g);
      assert q in rest || q == p;
    }
  }

  predicate Covered(patterns: seq<GrantPattern>, g: Grant) {
    exists p | p in patterns :: p.Covers(g)
  }

  function UncoveredKeys(patterns: seq<GrantPattern>, gs: seq<Grant>): seq<GrantKey> {
    if gs == [] then []
    else
      var g := gs[|gs| - 1];
      UncoveredKeys(patterns, gs[..|gs| - 1]) + if Covered(patterns, g) then [] else [g.Key()]
  }

  predicate UncoveredAs(patterns: seq<GrantPattern>, g: Grant, k: GrantKey) {
    !Covered(patterns, g) && g.Key() == k
  }

  predicate UncoveredWith(patterns: seq<GrantPattern>, gs: seq<Grant>, k: GrantKey) {
    exists g | g in gs :: UncoveredAs(patterns, g, k)
  }

  lemma {:induction false} InUncovered(patterns: seq<GrantPattern>, gs: seq<Grant>, k: GrantKey)
    ensures k in UncoveredKeys(patterns, gs) <==> UncoveredWith(patterns, gs, k)
  {
    if gs != [] {
      InUncovered(patterns, gs[..|gs| - 1], k);
      UncoveredLast(patterns, gs, k);
      UncoveredWithLast(patterns, gs, k);
    }
  }

  lemma UncoveredLast(patterns: seq<GrantPattern>, gs: seq<Grant>, k: GrantKey)
    requires gs != []
    ensures k in UncoveredKeys(patterns, gs) <==>
      k in UncoveredKeys(patterns, gs[..|gs| - 1]) || UncoveredAs(patterns, gs[|gs| - 1], k)
  {
  }

  lemma UncoveredWithLast(patterns: seq<GrantPattern>, gs: seq<Grant>, k: GrantKey)
    requires gs != []
    ensures UncoveredWith(patterns, gs, k) <==>
      UncoveredWith(patterns, gs[..|gs| - 1], k) || UncoveredAs(patterns, gs[|gs| - 1], k)
  {
    var rest, g := gs[..|gs| - 1], gs[|gs| - 1];
    assert gs == rest + [g];
    if UncoveredWith(patterns, gs, k) {
      var h :| h in gs && UncoveredAs(patterns, h, k);
      assert h in rest || h == g;
    }
  }

  // ---------------------------------------------------------------------------------------------
  // Matching depends on the key
  // ---------------------------------------------------------------------------------------------

  /** A row of SHOW GRANTS. */
  datatype Listed = Listed(privilege: string, on: ObjectType, text: string)

  /** The grants are those of the rows, with identifiers rebuilt from their texts. */
  predicate Reads(env: string, known: set<string>, rows: seq<Listed>, gs: seq<Grant>) {
    && |rows| == |gs|
    && forall i: nat | i < |gs| :: ReadsAs(env, known, rows[i], gs[i])
  }

  predicate ReadsAs(env: string, known: set<string>, row: Listed, g: Grant) {
    && g.privilege == row.privilege && g.on == row.on
    && BuildGrantNameIdent(env, row.text, row.on, known) == Some(g.name)
  }

  /** No text hides the prefix. */
  predicate AllShown(env: string, rows: seq<Listed>) {
    forall r | r in rows :: !Hides(env, r.text)
  }

  predicate OwnPrefixes(env: string, gs: seq<Grant>) {
    forall g | g in gs :: OwnsPrefix(env, g.name)
  }

  lemma ShownOwnPrefixes(env: string, known: set<string>, rows: seq<Listed>, gs: seq<Grant>)
    requires Plain(env) && Reads(env, known, rows, gs) && AllShown(env, rows)
    ensures OwnPrefixes(env, gs)
  {
    forall g | g in gs
      ensures OwnsPrefix(env, g.name)
    {
      var i: nat :| i < |gs| && gs[i] == g;
      assert ReadsAs(env, known, rows[i], g) && rows[i] in rows;
      RebuiltOwnsPrefixExactly(env, rows[i].text, rows[i].on, known);
    }
  }

  lemma KeyDecidesCover(env: string, p: GrantPattern, g: Grant, h: Grant)
    requires g.Key() == h.Key() && OwnsPrefix(env, g.name) && OwnsPrefix(env, h.name)
    ensures p.Covers(g) <==> p.Covers(h)
  {
    SamePrefixOwned(env, g.name, h.name);
  }

  // ---------------------------------------------------------------------------------------------
  // The grant loop
  // ---------------------------------------------------------------------------------------------

  function Missing(patterns: seq<GrantPattern>, declared: Declared, existing: seq<Grant>): seq<GrantKey> {
    Outside(GrantKeys(Expand(patterns, declared)), GrantKeys(existing))
  }

  function AfterRun(held: set<GrantKey>, patterns: seq<GrantPattern>, declared: Declared, existing: seq<Grant>):
    set<GrantKey>
  {
    held + SetOf(Missing(patterns, declared, existing)) - SetOf(UncoveredKeys(patterns, existing))
  }

  /** Declared names have the prefix, and parts that their constructors accept. */
  predicate DeclaredWithPrefix(env: string, declared: Declared) {
    forall on | on in declared :: forall i | i in declared[on] :: i.env == env && ValidParts(i)
  }

  /** The listing has exactly what is held. */
  predicate Lists(env: string, known: set<string>, rows: seq<Listed>, existing: seq<Grant>, held: set<GrantKey>) {
    Plain(env) && Reads(env, known, rows, existing) && SetOf(GrantKeys(existing)) == held
  }

  /** An existing grant with the key of an expanded one is covered. */
  lemma ExpandedIsCovered(env: string, patterns: seq<GrantPattern>, declared: Declared, existing: seq<Grant>, g: Grant)
    requires DeclaredWithPrefix(env, declared) && OwnPrefixes(env, existing) && g in existing
    requires g.Key() in GrantKeys(Expand(patterns, declared))
    ensures Covered(patterns, g)
  {
    var expanded := Expand(patterns, declared);
    HasKey(expanded, g.Key());
    var e :| e in expanded && e.Key() == g.Key();
    InExpand(patterns, declared, e);
    var p :| p in patterns && ComesFrom(p, declared, e);
    assert p.on in declared && e.name in declared[p.on];
    ValidOwnsPrefix(e.name);
    KeyDecidesCover(env, p, e, g);
  }

  /** No run revokes a grant that the patterns expand to; in particular it revokes none that it creates. */
  lemma RevokesNothingWanted(
    env: string, patterns: seq<GrantPattern>, declared: Declared, existing: seq<Grant>, k: GrantKey)
    requires DeclaredWithPrefix(env, declared) && OwnPrefixes(env, existing)
    requires k in UncoveredKeys(patterns, existing)
    ensures k !in GrantKeys(Expand(patterns, declared))
  {
    InUncovered(patterns, existing, k);
    var g :| g in existing && UncoveredAs(patterns, g, k);
    if k in GrantKeys(Expand(patterns, declared)) {
      ExpandedIsCovered(env, patterns, declared, existing, g);
    }
  }

  /** Existing grants with one key are covered alike. */
  lemma CoveredAlike(env: string, patterns: seq<GrantPattern>, g: Grant, h: Grant)
    requires g.Key() == h.Key() && OwnsPrefix(env, g.name) && OwnsPrefix(env, h.name)
    ensures Covered(patterns, g) <==> Covered(patterns, h)
  {
    forall p | p in patterns
      ensures p.Covers(g) <==> p.Covers(h)
    {
      KeyDecidesCover(env, p, g, h);
    }
  }

  lemma RunLeaves(
    env: string, known: set<string>, held: set<GrantKey>, patterns: seq<GrantPattern>, declared: Declared,
    rows: seq<Listed>, existing: seq<Grant>, k: GrantKey)
    requires Lists(env, known, rows, existing, held) && AllShown(env, rows) && DeclaredWithPrefix(env, declared)
    ensures k in AfterRun(held, patterns, declared, existing) <==>
      k in GrantKeys(Expand(patterns, declared)) || exists g | g in existing :: g.Key() == k && Covered(patterns, g)
  {
    ShownOwnPrefixes(env, known, rows, existing);
    assert k in held <==> k in GrantKeys(existing);
    InOutside(GrantKeys(Expand(patterns, declared)), GrantKeys(existing), k);
    InUncovered(patterns, existing, k);
    HasKey(existing, k);
    if k in UncoveredKeys(patterns, existing) {
      RevokesNothingWanted(env, patterns, declared, existing, k);
      var g :| g in existing && UncoveredAs(patterns, g, k);
      forall h | h in existing && h.Key() == k
        ensures !Covered(patterns, h)
      {
        CoveredAlike(env, patterns, g, h);
      }
    }
  }

  /** A pattern matches a declared object, and `k` is its privilege on it. */
  predicate IsAskedFor(patterns: seq<GrantPattern>, declared: Declared, k: GrantKey) {
    exists p, i | p in patterns && p.on in declared && i in declared[p.on] ::
      IdentPatterns.Matches(p.pattern, i) && k == GrantKey(p.privilege, p.on.ForGrant(), i.Print())
  }

  /** A pattern has the privilege and the type of an existing grant, and matches its name. */
  predicate IsMatched(patterns: seq<GrantPattern>, existing: seq<Grant>, k: GrantKey) {
    exists p, g | p in patterns && g in existing ::
      && k == GrantKey(g.privilege, g.on.ForGrant(), g.name.Print())
      && p.privilege == g.privilege && p.on.ForGrant() == g.on.ForGrant() && IdentPatterns.Matches(p.pattern, g.name)
  }

  lemma ExpandedIsAskedFor(patterns: seq<GrantPattern>, declared: Declared, k: GrantKey)
    ensures k in GrantKeys(Expand(patterns, declared)) <==> IsAskedFor(patterns, declared, k)
  {
    HasKey(Expand(patterns, declared), k);
    if g :| g in Expand(patterns, declared) && g.Key() == k {
      InExpand(patterns, declared, g);
    }
    if IsAskedFor(patterns, declared, k) {
      var p, i :| p in patterns && p.on in declared && i in declared[p.on]
        && IdentPatterns.Matches(p.pattern, i) && k == GrantKey(p.privilege, p.on.ForGrant(), i.Print());
      var g := Grant(p.privilege, p.on, i);
      assert ComesFrom(p, declared, g);
      InExpand(patterns, declared, g);
    }
  }

  lemma CoveredIsMatched(patterns: seq<GrantPattern>, existing: seq<Grant>, k: GrantKey)
    ensures (exists g | g in existing :: g.Key() == k && Covered(patterns, g)) <==> IsMatched(patterns, existing, k)
  {
  }

  /** After a run the role or share holds what the patterns ask for, and the existing grants that they match. */
  lemma HoldsWhatPatternsSay(
    env: string, known: set<string>, held: set<GrantKey>, patterns: seq<GrantPattern>, declared: Declared,
    rows: seq<Listed>, existing: seq<Grant>, k: GrantKey)
    requires Lists(env, known, rows, existing, held) && AllShown(env, rows) && DeclaredWithPrefix(env, declared)
    ensures k in AfterRun(held, patterns, declared, existing) <==>
            IsAskedFor(patterns, declared, k) || IsMatched(patterns, existing, k)
  {
    RunLeaves(env, known, held, patterns, declared, rows, existing, k);
    ExpandedIsAskedFor(patterns, declared, k);
    CoveredIsMatched(patterns, existing, k);
  }

  /** The next run changes no grant. */
  lemma NextRunIsSilent(
    env: string, known: set<string>, held: set<GrantKey>, patterns: seq<GrantPattern>, declared: Declared,
    rows: seq<Listed>, existing: seq<Grant>, nextRows: seq<Listed>, next: seq<Grant>)
    requires Lists(env, known, rows, existing, held) && AllShown(env, rows) && DeclaredWithPrefix(env, declared)
    requires Lists(env, known, nextRows, next, AfterRun(held, patterns, declared, existing)) && AllShown(env, nextRows)
    ensures Missing(patterns, declared, next) == [] && UncoveredKeys(patterns, next) == []
  {
    var expanded := GrantKeys(Expand(patterns, declared));
    forall k | k in SetOf(expanded)
      ensures k in SetOf(GrantKeys(next))
    {
      RunLeaves(env, known, held, patterns, declared, rows, existing, k);
    }
    NoOutside(expanded, GrantKeys(next));
    forall g | g in next
      ensures Covered(patterns, g)
    {
      NextIsCovered(env, known, held, patterns, declared, rows, existing, nextRows, next, g);
    }
    AllCovered(patterns, next);
  }

  lemma {:induction false} AllCovered(patterns: seq<GrantPattern>, gs: seq<Grant>)
    requires forall g | g in gs :: Covered(patterns, g)
    ensures UncoveredKeys(patterns, gs) == []
  {
    if gs != [] {
      AllCovered(patterns, gs[..|gs| - 1]);
    }
  }

  lemma NextIsCovered(
    env: string, known: set<string>, held: set<GrantKey>, patterns: seq<GrantPattern>, declared: Declared,
    rows: seq<Listed>, existing: seq<Grant>, nextRows: seq<Listed>, next: seq<Grant>, g: Grant)
    requires Lists(env, known, rows, existing, held) && AllShown(env, rows) && DeclaredWithPrefix(env, declared)
    requires Lists(env, known, nextRows, next, AfterRun(held, patterns, declared, existing)) && AllShown(env, nextRows)
    requires g in next
    ensures Covered(patterns, g)
  {
    ShownOwnPrefixes(env, known, rows, existing);
    ShownOwnPrefixes(env, known, nextRows, next);
    HasKey(next, g.Key());
    assert g.Key() in SetOf(GrantKeys(next));
    RunLeaves(env, known, held, patterns, declared, rows, existing, g.Key());
    if g.Key() in GrantKeys(Expand(patterns, declared)) {
      ExpandedIsCovered(env, patterns, declared, next, g);
    } else {
      var h :| h in existing && h.Key() == g.Key() && Covered(patterns, h);
      var p :| p in patterns && p.Covers(h);
      KeyDecidesCover(env, p, h, g);
    }
  }

  /** A declared object is rebuilt from its listing as it was declared, so a grant on it that comes from
      a pattern is covered by that pattern when it is listed. */
  lemma RoundTripIsCovered(env: string, patterns: seq<GrantPattern>, declared: Declared, g: Grant, style: Style,
                           known: set<string>)
    requires DeclaredWithPrefix(env, declared) && g in Expand(patterns, declared)
    requires ValidStyle(g.name, style) && Fits(g.name, g.on)
    requires g.name.SchemaObject? && g.name.arguments.Some? ==> forall t | t in g.name.arguments.value :: t in known
    ensures BuildGrantNameIdent(env, NameText(g.name, style), g.on, known) == Some(g.name)
    ensures Covered(patterns, g)
  {
    InExpand(patterns, declared, g);
    var p :| p in patterns && ComesFrom(p, declared, g);
    assert p.on in declared && g.name in declared[p.on];
    assert env <= NameText(g.name, style);
    RebuildsIdent(env, g.name, g.on, style, known);
  }

  // ---------------------------------------------------------------------------------------------
  // Listings that hide the prefix
  // ---------------------------------------------------------------------------------------------

  /** Patterns that the configuration may have. */
  predicate BuildablePatterns(patterns: seq<GrantPattern>) {
    forall p | p in patterns :: Buildable(p.pattern) && Upper(p.pattern) == p.pattern
  }

  /** A run revokes the grants of key `k` although its patterns expand to it. */
  ghost predicate RevokesWanted(
    env: string, existing: seq<Grant>, patterns: seq<GrantPattern>, declared: Declared, k: GrantKey)
  {
    && BuildablePatterns(patterns) && DeclaredWithPrefix(env, declared)
    && k in UncoveredKeys(patterns, existing) && k in GrantKeys(Expand(patterns, declared))
  }

  /** The pattern `??...?`, which matches the texts of its own length. */
  function Marks(n: nat): string {
    if n == 0 then "" else "?" + Marks(n - 1)
  }

  lemma {:induction false} MarksAre(n: nat)
    ensures |Marks(n)| == n && (forall c | c in Marks(n) :: c == '?') && Upper(Marks(n)) == Marks(n)
  {
    if n > 0 {
      MarksAre(n - 1);
      assert Marks(n)[1..] == Marks(n - 1);
    }
  }

  lemma {:induction false} GlobMarks(n: nat, s: string)
    ensures Glob(Marks(n), s) <==> |s| == n
  {
    if n > 0 {
      assert Marks(n)[1..] == Marks(n - 1);
      if s != "" {
        GlobMarks(n - 1, s[1..]);
      }
    }
  }

  /** A complex pattern of one part is accepted. */
  lemma OnePartIsBuildable(s: string)
    requires Complex(s) && Free(s, '|') && s[0] != '!' && Upper(s) == s && forall c | c in s :: AllowedInPattern(c)
    ensures Buildable(s)
  {
    SplitFree(s, '|');
    IncludedAlone(s);
  }

  lemma MarksAreBuildable(n: nat)
    requires n > 0
    ensures Complex(Marks(n)) && Free(Marks(n), '|') && Marks(n)[0] != '!'
    ensures Buildable(Marks(n)) && Upper(Marks(n)) == Marks(n)
  {
    var s := Marks(n);
    MarksAre(n);
    assert s[0] in s && Special('?') && AllowedInPattern('?');
    OnePartIsBuildable(s);
  }

  lemma MarksMatchLength(n: nat, i: Ident)
    requires n > 0
    ensures Matches(Marks(n), i) <==> |WithoutPrefix(i)| == n
  {
    MarksAreBuildable(n);
    OnePart(Marks(n), WithoutPrefix(i));
    GlobMarks(n, WithoutPrefix(i));
  }

  /** The declared name that prints like `i` and has the prefix. */
  function WithPrefix(env: string, i: Ident): Ident
    requires env < i.Path()[0] && i.env == ""
  {
    match i
    case AccountObject(_, name) => AccountObject(env, name[|env|..])
    case Database(_, database) => Database(env, database[|env|..])
    case DatabaseRole(_, database, name) => DatabaseRole(env, database[|env|..], name)
    case Schema(_, database, schema) => Schema(env, database[|env|..], schema)
    case SchemaObject(_, database, schema, name, arguments) =>
      SchemaObject(env, database[|env|..], schema, name, arguments)
  }

  lemma WithPrefixPath(env: string, i: Ident)
    requires env < i.Path()[0] && i.env == ""
    ensures WithPrefix(env, i).env == env && WithPrefix(env, i).Path() == i.Path()
    ensures WithPrefix(env, i).Suffix() == i.Suffix()
  {
    var first := i.Path()[0];
    assert env + first[|env|..] == first;
    assert match i
           case AccountObject(_, name) => "" + name == name
           case Database(_, database) => "" + database == database
           case DatabaseRole(_, database, _) => "" + database == database
           case Schema(_, database, _) => "" + database == database
           case SchemaObject(_, database, _, _, _) => "" + database == database;
  }

  lemma WithPrefixPrints(env: string, i: Ident)
    requires env < i.Path()[0] && i.env == ""
    ensures WithPrefix(env, i).Print() == i.Print() && env < i.Print()
    ensures |WithoutPrefix(WithPrefix(env, i))| == |i.Print()| - |env| && WithoutPrefix(i) == i.Print()
  {
    WithPrefixPath(env, i);
    FirstOfPrint(i);
  }

  lemma PlainRest(env: string, s: string)
    requires env < s && Plain(s)
    ensures ValidPart(s[|env|..])
  {
    forall c | c in s[|env|..]
      ensures AllowedChar(c)
    {
      assert c in s;
    }
  }

  lemma ValidRest(env: string, i: Ident)
    requires env < i.Path()[0] && i.env == "" && ValidPrefix(env) && ValidParts(i)
    ensures ValidParts(WithPrefix(env, i))
  {
    var first := i.Path()[0];
    assert first in i.Path();
    PlainRest(env, first);
    assert "" + first == first;
    WithPrefixPath(env, i);
  }

  lemma DeclaredOne(env: string, on: ObjectType, i: Ident)
    requires i.env == env && ValidParts(i)
    ensures DeclaredWithPrefix(env, map[on := [i]])
  {
  }

  /** One declared name and a pattern for it alone, against a grant that prints the same. */
  lemma OnePatternRevokes(env: string, existing: seq<Grant>, g: Grant, p: GrantPattern, d: Ident)
    requires g in existing && p.privilege == g.privilege && p.on == g.on && d.Print() == g.name.Print()
    requires BuildablePatterns([p]) && DeclaredWithPrefix(env, map[g.on := [d]])
    requires Matches(p.pattern, d) && !Matches(p.pattern, g.name)
    ensures RevokesWanted(env, existing, [p], map[g.on := [d]], g.Key())
  {
    ExpandOne(p, d);
    assert GrantKeys([Grant(p.privilege, p.on, d)]) == [g.Key()];
    assert UncoveredAs([p], g, g.Key());
    InUncovered([p], existing, g.Key());
  }

  /** A grant whose listing hides the prefix is revoked under some patterns that also expand to it. */
  lemma HiddenIsRevoked(env: string, existing: seq<Grant>, g: Grant) returns (p: GrantPattern, declared: Declared)
    requires ValidPrefix(env) && g in existing && ValidParts(g.name) && g.name.env == "" && env < g.name.Path()[0]
    requires env != ""
    ensures RevokesWanted(env, existing, [p], declared, g.Key())
  {
    var d, n := WithPrefix(env, g.name), |g.name.Print()| - |env|;
    WithPrefixPath(env, g.name);
    WithPrefixPrints(env, g.name);
    ValidRest(env, g.name);
    DeclaredOne(env, g.on, d);
    MarksAreBuildable(n);
    MarksMatchLength(n, d);
    MarksMatchLength(n, g.name);
    p, declared := GrantPattern(g.privilege, g.on, Marks(n)), map[g.on := [d]];
    OnePatternRevokes(env, existing, g, p, d);
  }

  /** Data types are plain words. */
  predicate ValidTypes(known: set<string>) {
    forall t | t in known :: ValidPart(t)
  }

  lemma {:induction false} DataTypesAreKnown(arguments: seq<string>, known: set<string>)
    requires DataTypes(arguments, known).Some?
    ensures forall t | t in DataTypes(arguments, known).value :: t in known
  {
    if arguments != [] {
      DataTypesAreKnown(arguments[1..], known);
    }
  }

  lemma SignatureIsKnown(last: string, known: set<string>)
    requires Signature(last, known).Some?
    ensures forall t | t in Signature(last, known).value.1 :: t in known
  {
    var start, finish := |Before(last, '(')|, |Before(last, ')')|;
    var list := if finish < start + 1 then "" else last[start + 1..finish];
    if list != "" {
      DataTypesAreKnown(Split(list, ','), known);
    }
  }

  lemma BuiltLongIsValid(e: string, parts: seq<string>, on: ObjectType, known: set<string>)
    requires ValidPrefix(e) && ValidTypes(known) && FromParts(e, parts, on, known).Some? && |parts| == 3
    ensures ValidParts(FromParts(e, parts, on, known).value)
  {
    var i := FromParts(e, parts, on, known).value;
    if on.Overloaded() {
      SignatureIsKnown(parts[2], known);
    }
    assert i.SchemaObject? && ValidPart(i.database) && ValidPart(i.schema) && ValidPart(i.name);
    PrefixedPart(e, i.database);
    assert i.Path() == [e + i.database, i.schema, i.name];
  }

  lemma PrefixedPart(e: string, p: string)
    requires ValidPrefix(e) && ValidPart(p)
    ensures Plain(e + p) && e + p != ""
  {
  }

  /** A rebuilt identifier has parts that the constructors accept. */
  lemma BuiltIsValid(e: string, parts: seq<string>, on: ObjectType, known: set<string>)
    requires ValidPrefix(e) && ValidTypes(known) && FromParts(e, parts, on, known).Some?
    ensures ValidParts(FromParts(e, parts, on, known).value)
  {
    if |parts| == 3 {
      BuiltLongIsValid(e, parts, on, known);
    } else {
      PrefixedPart(e, Upper(parts[0]));
    }
  }

  /** No run ever revokes a grant that its patterns expand to, whatever they are, if and only if no text of
      the listing hides the prefix. */
  lemma WantedIsSafeExactly(env: string, known: set<string>, rows: seq<Listed>, existing: seq<Grant>)
    requires ValidPrefix(env) && ValidTypes(known) && Reads(env, known, rows, existing)
    ensures AllShown(env, rows) <==>
            forall patterns, declared, k :: !RevokesWanted(env, existing, patterns, declared, k)
  {
    if AllShown(env, rows) {
      ShownOwnPrefixes(env, known, rows, existing);
      forall patterns, declared, k
        ensures !RevokesWanted(env, existing, patterns, declared, k)
      {
        NotRevokedWanted(env, existing, patterns, declared, k);
      }
    } else {
      var i: nat :| i < |rows| && Hides(env, rows[i].text);
      HiddenRowIsRevoked(env, known, rows, existing, i);
    }
  }

  lemma NotRevokedWanted(
    env: string, existing: seq<Grant>, patterns: seq<GrantPattern>, declared: Declared, k: GrantKey)
    requires OwnPrefixes(env, existing)
    ensures !RevokesWanted(env, existing, patterns, declared, k)
  {
    if DeclaredWithPrefix(env, declared) && k in UncoveredKeys(patterns, existing) {
      RevokesNothingWanted(env, patterns, declared, existing, k);
    }
  }

  lemma HiddenRowIsRevoked(env: string, known: set<string>, rows: seq<Listed>, existing: seq<Grant>, i: nat)
    requires ValidPrefix(env) && ValidTypes(known) && Reads(env, known, rows, existing)
    requires i < |rows| && Hides(env, rows[i].text)
    ensures exists patterns, declared, k :: RevokesWanted(env, existing, patterns, declared, k)
  {
    assert ReadsAs(env, known, rows[i], existing[i]);
    HiddenName(env, known, rows[i], existing[i]);
    var p, declared := HiddenIsRevoked(env, existing, existing[i]);
  }

  lemma HiddenName(env: string, known: set<string>, row: Listed, g: Grant)
    requires ValidPrefix(env) && ValidTypes(known) && ReadsAs(env, known, row, g) && Hides(env, row.text)
    ensures env != "" && g.name.env == "" && env < g.name.Path()[0] && ValidParts(g.name)
  {
    var parts := Split(RemovePrefix(row.text, env), '.');
    FirstPartBuilt("", UnquotedParts(parts), row.on, known);
    BuiltIsValid("", UnquotedParts(parts), row.on, known);
    assert parts[0] == Before(row.text, '.');
  }

  function QuotedRow(env: string, database: string, schema: string): Listed {
    Listed("USAGE", SCHEMA, "\"" + (env + database) + "\"" + "." + schema)
  }

  function QuotedGrant(env: string, database: string, schema: string): Grant {
    Grant("USAGE", SCHEMA, Schema("", env + database, schema))
  }

  lemma QuotedSplits(full: string, schema: string)
    requires ValidPart(full) && ValidPart(schema)
    ensures var quoted := "\"" + full + "\"";
      Split(quoted + "." + schema, '.') == [quoted, schema] && Before(quoted + "." + schema, '.') == quoted
    ensures UnquotedParts(["\"" + full + "\"", schema]) == [full, schema]
  {
    var quoted := "\"" + full + "\"";
    PlainPart(full);
    PlainPart(schema);
    assert full[0] in full && full[|full| - 1] in full;
    UnquotedBody(full, "\"");
    assert Free(quoted, '.');
    assert [quoted, schema][1..] == [schema];
    SplitJoin([quoted, schema], '.');
  }

  lemma SchemaFromParts(full: string, schema: string, known: set<string>)
    requires ValidPart(full) && ValidPart(schema)
    ensures FromParts("", [full, schema], SCHEMA, known) == Some(Schema("", full, schema))
  {
    PlainPart(full);
    PlainPart(schema);
  }

  lemma QuotedDatabaseReads(env: string, database: string, schema: string, known: set<string>)
    requires ValidPrefix(env) && env != "" && ValidPart(database) && ValidPart(schema)
    ensures ReadsAs(env, known, QuotedRow(env, database, schema), QuotedGrant(env, database, schema))
    ensures Hides(env, QuotedRow(env, database, schema).text)
  {
    var full, text := env + database, QuotedRow(env, database, schema).text;
    assert env[0] in env && text[0] == '"';
    assert !(env <= text) && RemovePrefix(text, env) == text;
    QuotedSplits(full, schema);
    SchemaFromParts(full, schema, known);
    PlainPart(full);
  }

  lemma QuotedDatabaseUncovered(env: string, database: string, schema: string)
    requires ValidPrefix(env) && env != "" && ValidPart(database) && ValidPart(schema)
    ensures Matches(database + "." + schema, Schema(env, database, schema))
    ensures !Matches(database + "." + schema, Schema("", env + database, schema))
    ensures ValidParts(Schema(env, database, schema))
    ensures Schema(env, database, schema).Print() == Schema("", env + database, schema).Print()
  {
    var wanted, listed := Schema(env, database, schema), Schema("", env + database, schema);
    SchemaText(wanted);
    SchemaText(listed);
    assert !Complex(database + "." + schema) by {
      forall c | c in database + "." + schema
        ensures !Special(c)
      {
      }
    }
    assert "" + (env + database) == env + database;
    assert listed.Path() == wanted.Path();
    assert forall q | q in wanted.Path() :: q == env + database || q == schema;
  }

  lemma ExpandOne(p: GrantPattern, i: Ident)
    requires Matches(p.pattern, i)
    ensures Expand([p], map[p.on := [i]]) == [Grant(p.privilege, p.on, i)]
  {
    var declared := map[p.on := [i]];
    assert [i][..0] == [] && Selected(p.pattern, [i]) == [i];
    assert [p][..0] == [] && Expand([p][..0], declared) == [];
    assert GrantsOn(p, [i]) == [Grant(p.privilege, p.on, i)];
  }

  lemma RevokeOne(p: GrantPattern, i: Ident, g: Grant)
    requires Matches(p.pattern, i) && !p.Covers(g) && g.Key() == Grant(p.privilege, p.on, i).Key()
    ensures GrantKeys(Expand([p], map[p.on := [i]])) == [g.Key()]
    ensures AfterRun({g.Key()}, [p], map[p.on := [i]], [g]) == {}
  {
    ExpandOne(p, i);
    var k := g.Key();
    assert GrantKeys([g]) == [k] && GrantKeys([Grant(p.privilege, p.on, i)]) == [k];
    assert [k][..0] == [] && Outside([k], [k]) == [];
    assert [g][..0] == [] && UncoveredKeys([p], [g]) == [k];
  }

  lemma ListedOne(env: string, known: set<string>, row: Listed, g: Grant)
    requires Plain(env) && ReadsAs(env, known, row, g)
    ensures Lists(env, known, [row], [g], {g.Key()})
    ensures AllShown(env, [row]) <==> !Hides(env, row.text)
  {
    assert GrantKeys([g]) == [g.Key()] && row in [row];
  }

  /** It occurs: a schema of a database that the listing quotes.  The pattern `DB.S` expands to the grant, the
      run does not create it, since it is there, and revokes it, since the rebuilt name lacks the prefix. */
  lemma QuotedDatabaseIsRevoked(env: string, database: string, schema: string, known: set<string>)
    requires ValidPrefix(env) && env != "" && ValidPart(database) && ValidPart(schema)
    ensures var g := QuotedGrant(env, database, schema);
      var patterns := [GrantPattern("USAGE", SCHEMA, database + "." + schema)];
      var declared := map[SCHEMA := [Schema(env, database, schema)]];
      && Lists(env, known, [QuotedRow(env, database, schema)], [g], {g.Key()})
      && !AllShown(env, [QuotedRow(env, database, schema)]) && DeclaredWithPrefix(env, declared)
      && GrantKeys(Expand(patterns, declared)) == [g.Key()]
      && AfterRun({g.Key()}, patterns, declared, [g]) == {}
  {
    var g := QuotedGrant(env, database, schema);
    QuotedDatabaseReads(env, database, schema, known);
    ListedOne(env, known, QuotedRow(env, database, schema), g);
    QuotedDatabaseUncovered(env, database, schema);
    RevokeOne(GrantPattern("USAGE", SCHEMA, database + "." + schema), Schema(env, database, schema), g);
  }

  datatype Statement = CreateGrant(key: GrantKey) | DropGrant(key: GrantKey) | ChangeComment(comment: Option<string>)

  /** The resolver of database roles; shares have the same loop. */
  class DatabaseRoleResolver {
    var held: set<GrantKey>
    var comment: Option<string>

    constructor (held: set<GrantKey>, comment: Option<string>)
      ensures this.held == held && this.comment == comment
    {
      this.held, this.comment := held, comment;
    }

    method Execute(s: Statement)
      modifies this
      ensures held == match s
                      case CreateGrant(k) => old(held) + {k}
                      case DropGrant(k) => old(held) - {k}
                      case ChangeComment(_) => old(held)
      ensures comment == if s.ChangeComment? then s.comment else old(comment)
    {
      match s
      case CreateGrant(k) => held := held + {k};
      case DropGrant(k) => held := held - {k};
      case ChangeComment(c) => comment := c;
    }

    method CreateMissing(want: seq<GrantKey>, have: seq<GrantKey>) returns (changed: bool)
      modifies this
      ensures held == old(held) + SetOf(Outside(want, have)) && comment == old(comment)
      ensures changed <==> Outside(want, have) != []
    {
      changed := false;
      for i := 0 to |want|
        invariant held == old(held) + SetOf(Outside(want[..i], have)) && comment == old(comment)
        invariant changed <==> Outside(want[..i], have) != []
      {
        OutsideStep(want, have, i);
        if want[i] !in have {
          SetOfAppend(old(held), Outside(want[..i], have), want[i]);
          Execute(CreateGrant(want[i]));
          changed := true;
        }
      }
      assert want[..|want|] == want;
    }

    method DropUncovered(patterns: seq<GrantPattern>, existing: seq<Grant>) returns (changed: bool)
      modifies this
      ensures held == old(held) - SetOf(UncoveredKeys(patterns, existing)) && comment == old(comment)
      ensures changed <==> UncoveredKeys(patterns, existing) != []
    {
      changed := false;
      for i := 0 to |existing|
        invariant held == old(held) - SetOf(UncoveredKeys(patterns, existing[..i])) && comment == old(comment)
        invariant changed <==> UncoveredKeys(patterns, existing[..i]) != []
      {
        UncoveredStep(patterns, existing, i);
        if !Covered(patterns, existing[i]) {
          SetOfAppend(old(held), UncoveredKeys(patterns, existing[..i]), existing[i].Key());
          Execute(DropGrant(existing[i].Key()));
          changed := true;
        }
      }
      assert existing[..|existing|] == existing;
    }

    /** `compare_object`; `existing` and `row` are what the account reports. */
    method CompareObject(patterns: seq<GrantPattern>, declared: Declared, wanted: Option<string>,
                         existing: seq<Grant>, row: Option<string>)
      returns (result: ResolveResult)
      modifies this
      ensures held == AfterRun(old(held), patterns, declared, existing)
      ensures comment == if wanted != row then wanted else old(comment)
      ensures result == if wanted != row then ALTER
                        else if Missing(patterns, declared, existing) != [] || UncoveredKeys(patterns, existing) != []
                        then GRANT
                        else NOCHANGE
    {
      result := NOCHANGE;
      var created := CreateMissing(GrantKeys(Expand(patterns, declared)), GrantKeys(existing));
      var dropped := DropUncovered(patterns, existing);
      if created || dropped {
        result := GRANT;
      }
      if wanted != row {
        Execute(ChangeComment(wanted));
        result := ALTER;
      }
    }
  }

  lemma SetOfAppend(held: set<GrantKey>, ks: seq<GrantKey>, k: GrantKey)
    ensures held + SetOf(ks + [k]) == held + SetOf(ks) + {k}
    ensures held - SetOf(ks + [k]) == held - SetOf(ks) - {k}
  {
  }

  lemma UncoveredStep(patterns: seq<GrantPattern>, gs: seq<Grant>, i: nat)
    requires i < |gs|
    ensures Covered(patterns, gs[i]) ==> UncoveredKeys(patterns, gs[..i + 1]) == UncoveredKeys(patterns, gs[..i])
    ensures !Covered(patterns, gs[i]) ==>
      UncoveredKeys(patterns, gs[..i + 1]) == UncoveredKeys(patterns, gs[..i]) + [gs[i].Key()]
  {
    assert gs[..i + 1][..i] == gs[..i];
  }

  // ---------------------------------------------------------------------------------------------
  // Role grants for databases
  // ---------------------------------------------------------------------------------------------

  datatype Ruleset = Ruleset(createDatabaseOwnerRole: bool, createSchemaOwnerRole: bool)

  datatype DatabaseBlueprint = DatabaseBlueprint(name: Ident, ruleset: Ruleset)

  /** `build_role_ident`: the parts, joined by two underscores, make one name. */
  function RoleName(env: string, parts: seq<string>): Ident {
    AccountObject(env, JoinTwo(parts))
  }

  function JoinTwo(parts: seq<string>): string {
    if parts == [] then "" else if |parts| == 1 then parts[0] else parts[0] + "__" + JoinTwo(parts[1..])
  }

  function DatabaseRoleGrant(env: string, database: string, roleType: string): Grant {
    Grant("USAGE", ROLE, RoleName(env, [database, roleType, "D_ROLE"]))
  }

  function SchemaRoleGrant(env: string, schema: Ident, roleType: string): Grant
    requires schema.Schema?
  {
    Grant("USAGE", ROLE, RoleName(env, [schema.database, schema.schema, roleType, "S_ROLE"]))
  }

  lemma JoinThree(a: string, b: string, c: string)
    ensures JoinTwo([a, b, c]) == a + "__" + b + "__" + c
  {
    assert [a, b, c][1..] == [b, c] && [b, c][1..] == [c];
    assert JoinTwo([c]) == c && JoinTwo([b, c]) == b + "__" + c;
    assert a + "__" + (b + "__" + c) == a + "__" + b + "__" + c;
  }

  lemma JoinFour(a: string, b: string, c: string, d: string)
    ensures JoinTwo([a, b, c, d]) == a + "__" + b + "__" + c + "__" + d
  {
    assert [a, b, c, d][1..] == [b, c, d];
    JoinThree(b, c, d);
    assert a + "__" + (b + "__" + c + "__" + d) == a + "__" + b + "__" + c + "__" + d;
  }

  predicate GivesDatabaseRole(env: string, database: Ident, roleType: string, g: Grant)
    requires database.Database?
  {
    && g.privilege == "USAGE" && g.on == ROLE
    && g.name == AccountObject(env, database.database + "__" + roleType + "__" + "D_ROLE")
  }

  predicate GivesSchemaRole(env: string, schema: Ident, roleType: string, g: Grant)
    requires schema.Schema?
  {
    && g.privilege == "USAGE" && g.on == ROLE
    && g.name == AccountObject(env, schema.database + "__" + schema.schema + "__" + roleType + "__" + "S_ROLE")
  }

  predicate ValidSchemas(schemas: seq<Ident>) {
    forall s | s in schemas :: s.Schema? && s.Valid()
  }

  predicate ValidDatabases(databases: seq<DatabaseBlueprint>) {
    forall d | d in databases :: d.name.Database? && ValidPart(d.name.database)
  }

  /** `build_schema_role_grants`. */
  method BuildSchemaRoleGrants(env: string, schemas: seq<Ident>, pattern: string, roleType: string)
    returns (grants: seq<Grant>)
    requires ValidSchemas(schemas)
    ensures forall g :: g in grants <==>
      exists s | s in schemas ::
        && s.Schema? && IdentPatterns.Matches(pattern, s)
        && GivesSchemaRole(env, s, roleType, g)
  {
    grants := [];
    for i := 0 to |schemas|
      invariant forall g :: g in grants <==>
        exists s | s in schemas[..i] ::
          s.Schema? && IdentPatterns.Matches(pattern, s) && g == SchemaRoleGrant(env, s, roleType)
    {
      assert schemas[i] in schemas;
      assert schemas[..i + 1] == schemas[..i] + [schemas[i]];
      if IdentPatterns.Matches(pattern, schemas[i]) {
        grants := grants + [SchemaRoleGrant(env, schemas[i], roleType)];
      }
    }
    assert schemas[..|schemas|] == schemas;
    forall s | s in schemas
      ensures GivesSchemaRole(env, s, roleType, SchemaRoleGrant(env, s, roleType))
    {
      JoinFour(s.database, s.schema, roleType, "S_ROLE");
    }
  }

  /** What the grants of one matched database are. */
  predicate GrantedFor(env: string, d: DatabaseBlueprint, schemas: seq<Ident>, roleType: string, g: Grant)
    requires d.name.Database?
  {
    if d.ruleset.createDatabaseOwnerRole then
      GivesDatabaseRole(env, d.name, roleType, g)
    else
      && d.ruleset.createSchemaOwnerRole
      && exists s | s in schemas ::
           && s.Schema? && s.database == d.name.database
           && GivesSchemaRole(env, s, roleType, g)
  }

  method BuildOneDatabase(env: string, d: DatabaseBlueprint, schemas: seq<Ident>, roleType: string)
    returns (grants: seq<Grant>)
    requires d.name.Database? && ValidPart(d.name.database) && ValidSchemas(schemas)
    ensures forall g :: g in grants <==> GrantedFor(env, d, schemas, roleType, g)
  {
    if d.ruleset.createDatabaseOwnerRole {
      JoinThree(d.name.database, roleType, "D_ROLE");
      grants := [DatabaseRoleGrant(env, d.name.database, roleType)];
    } else if d.ruleset.createSchemaOwnerRole {
      grants := BuildSchemaRoleGrants(env, schemas, d.name.database + ".*", roleType);
      forall s | s in schemas
        ensures IdentPatterns.Matches(d.name.database + ".*", s) <==> s.database == d.name.database
      {
        DatabasePatternMatchesItsSchemas(d.name.database, s);
      }
    } else {
      grants := [];
    }
  }

  /** `build_database_role_grants`: under the schema-owner ruleset a matched database gets one role grant
      for each of its declared schemas, and for no other schema. */
  method BuildDatabaseRoleGrants(env: string, databases: seq<DatabaseBlueprint>, schemas: seq<Ident>, pattern: string,
                                 roleType: string)
    returns (grants: seq<Grant>)
    requires ValidDatabases(databases) && ValidSchemas(schemas)
    ensures forall g :: g in grants <==>
      exists d | d in databases ::
        d.name.Database? && IdentPatterns.Matches(pattern, d.name) && GrantedFor(env, d, schemas, roleType, g)
  {
    grants := [];
    for i := 0 to |databases|
      invariant forall g :: g in grants <==>
        exists d | d in databases[..i] ::
          d.name.Database? && IdentPatterns.Matches(pattern, d.name) && GrantedFor(env, d, schemas, roleType, g)
    {
      assert databases[i] in databases;
      assert databases[..i + 1] == databases[..i] + [databases[i]];
      if IdentPatterns.Matches(pattern, databases[i].name) {
        var more := BuildOneDatabase(env, databases[i], schemas, roleType);
        grants := grants + more;
      }
    }
    assert databases[..|databases|] == databases;
  }
}
