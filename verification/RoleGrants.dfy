/** Grants of one role, reconciled by `AbstractRoleResolver.compare_object`. */
module RoleGrants {
  import opened Basics
  import opened Idents
  import opened ObjectTypes
  import opened Strings

  datatype Grant = Grant(privilege: string, on: ObjectType, name: Ident) {
    /** What a GRANT statement names; `Grant.__eq__` compares exactly this. */
    function Key(): GrantKey {
      GrantKey(privilege, on.ForGrant(), name.Print())
    }

    /** Names of future-grantable objects are schema names or names of schema objects. */
    predicate Valid() {
      && name.Valid()
      && (on.FutureGrantSupported() ==> name.Schema? || name.SchemaObject?)
    }
  }

  datatype GrantKey = GrantKey(privilege: string, on: ObjectType, name: string)

  datatype FutureGrant = FutureGrant(privilege: string, onFuture: ObjectType, inSchema: bool, name: Ident) {
    function Key(): FutureKey {
      FutureKey(privilege, onFuture, inSchema, name.Print())
    }

    /** `is_matching_grant`. */
    predicate Matches(g: Grant) {
      && g.on.FutureGrantSupported()
      && privilege == g.privilege
      && onFuture.ForGrant() == g.on.ForGrant()
      && Holds(g.name)
    }

    /** The parent of the future grant is a parent of the object. */
    predicate Holds(i: Ident) {
      if inSchema then i.SchemaObject? && name.Print() == Join(i.Path()[..2], '.')
      else (i.Schema? || i.SchemaObject?) && name.Print() == i.Path()[0]
    }
  }

  datatype FutureKey = FutureKey(privilege: string, onFuture: ObjectType, inSchema: bool, name: string)

  datatype Blueprint = Blueprint(
    comment: Option<string>, grants: seq<Grant>, accountGrants: seq<string>, futureGrants: seq<FutureGrant>)

  /** What SHOW ROLES, SHOW GRANTS and SHOW FUTURE GRANTS list for the role. */
  datatype Row = Row(
    comment: Option<string>, grants: seq<Grant>, accountGrants: seq<string>, futureGrants: seq<FutureGrant>)

  /** What the role really holds. */
  datatype Held = Held(
    comment: Option<string>, grants: set<GrantKey>, accountGrants: set<string>, futureGrants: set<FutureKey>)

  datatype Statement =
    | SetComment(comment: Option<string>)
    | GrantObject(key: GrantKey)
    | RevokeObject(key: GrantKey)
    | TransferOwnership(key: GrantKey)
    | GrantAccount(privilege: string)
    | RevokeAccount(privilege: string)
    | GrantFuture(future: FutureKey)
    | RevokeFuture(future: FutureKey)
    | GrantAll(grant: FutureGrant)

  /** Objects of the account, for grants ON ALL. */
  type Catalog = set<(ObjectType, Ident)>

  predicate ValidCatalog(catalog: Catalog) {
    forall o | o in catalog :: o.1.Valid()
  }

  predicate Reaches(f: FutureGrant, o: (ObjectType, Ident)) {
    o.0 == f.onFuture && f.Holds(o.1)
  }

  function Expansion(catalog: Catalog, f: FutureGrant): set<GrantKey> {
    set o | o in catalog && Reaches(f, o) :: GrantKey(f.privilege, o.0.ForGrant(), o.1.Print())
  }

  function Exec(catalog: Catalog, h: Held, s: Statement): Held {
    match s
    case SetComment(comment) => h.(comment := comment)
    case GrantObject(key) => h.(grants := h.grants + {key})
    case RevokeObject(key) => h.(grants := h.grants - {key})
    // Ownership goes to the role that runs the apply.
    case TransferOwnership(key) => h.(grants := h.grants - {key})
    case GrantAccount(p) => h.(accountGrants := h.accountGrants + {p})
    case RevokeAccount(p) => h.(accountGrants := h.accountGrants - {p})
    case GrantFuture(f) => h.(futureGrants := h.futureGrants + {f})
    case RevokeFuture(f) => h.(futureGrants := h.futureGrants - {f})
    case GrantAll(f) => h.(grants := h.grants + Expansion(catalog, f))
  }

  function ExecAll(catalog: Catalog, h: Held, ss: seq<Statement>): Held {
    if ss == [] then h else Exec(catalog, ExecAll(catalog, h, ss[..|ss| - 1]), ss[|ss| - 1])
  }

  lemma {:induction false} ExecConcat(catalog: Catalog, h: Held, a: seq<Statement>, b: seq<Statement>)
    ensures ExecAll(catalog, h, a + b) == ExecAll(catalog, ExecAll(catalog, h, a), b)
  {
    if b == [] {
      assert a + b == a;
    } else {
      assert (a + b)[..|a + b| - 1] == a + b[..|b| - 1];
      ExecConcat(catalog, h, a, b[..|b| - 1]);
    }
  }

  lemma ExecSnoc(catalog: Catalog, h: Held, ss: seq<Statement>, s: Statement)
    ensures ExecAll(catalog, h, ss + [s]) == Exec(catalog, ExecAll(catalog, h, ss), s)
  {
    assert (ss + [s])[..|ss|] == ss;
  }

  // ---------------------------------------------------------------------------------------------
  // Lists of keys
  // ---------------------------------------------------------------------------------------------

  function GrantKeys(gs: seq<Grant>): (ks: seq<GrantKey>)
    ensures |ks| == |gs| && forall i: nat | i < |gs| :: ks[i] == gs[i].Key()
  {
    seq(|gs|, i requires 0 <= i < |gs| => gs[i].Key())
  }

  function FutureKeys(fs: seq<FutureGrant>): (ks: seq<FutureKey>)
    ensures |ks| == |fs| && forall i: nat | i < |fs| :: ks[i] == fs[i].Key()
  {
    seq(|fs|, i requires 0 <= i < |fs| => fs[i].Key())
  }

  lemma SetOfSnoc<K(!new)>(h: set<K>, ks: seq<K>)
    requires ks != []
    ensures h + SetOf(ks) == h + SetOf(ks[..|ks| - 1]) + {ks[|ks| - 1]}
    ensures h - SetOf(ks) == h - SetOf(ks[..|ks| - 1]) - {ks[|ks| - 1]}
  {
    assert ks == ks[..|ks| - 1] + [ks[|ks| - 1]];
  }

  /** The elements of `ks` that `have` lacks, in order. */
  function Outside<K(==)>(ks: seq<K>, have: seq<K>): seq<K> {
    if ks == [] then []
    else
      var k := ks[|ks| - 1];
      Outside(ks[..|ks| - 1], have) + if k in have then [] else [k]
  }

  lemma {:induction false} InOutside<K>(ks: seq<K>, have: seq<K>, k: K)
    ensures k in Outside(ks, have) <==> k in ks && k !in have
  {
    if ks != [] {
      InOutside(ks[..|ks| - 1], have, k);
      assert ks == ks[..|ks| - 1] + [ks[|ks| - 1]];
    }
  }

  lemma HasKey(gs: seq<Grant>, k: GrantKey)
    ensures k in GrantKeys(gs) <==> exists g | g in gs :: g.Key() == k
  {
    if k in GrantKeys(gs) {
      var i: nat :| i < |gs| && GrantKeys(gs)[i] == k;
      assert gs[i] in gs;
    }
    if g: Grant :| g in gs && g.Key() == k {
      var i: nat :| i < |gs| && gs[i] == g;
      assert GrantKeys(gs)[i] == k;
    }
  }

  // ---------------------------------------------------------------------------------------------
  // The statements
  // ---------------------------------------------------------------------------------------------

  predicate Matched(fs: seq<FutureGrant>, g: Grant) {
    exists f | f in fs :: f.Matches(g)
  }

  predicate Unwanted(bp: Blueprint, g: Grant) {
    g.Key() !in GrantKeys(bp.grants) && !Matched(bp.futureGrants, g)
  }

  function UnwantedKeys(bp: Blueprint, gs: seq<Grant>): seq<GrantKey> {
    if gs == [] then []
    else
      var g := gs[|gs| - 1];
      UnwantedKeys(bp, gs[..|gs| - 1]) + if Unwanted(bp, g) then [g.Key()] else []
  }

  predicate UnwantedWith(bp: Blueprint, gs: seq<Grant>, k: GrantKey) {
    exists g | g in gs :: Unwanted(bp, g) && g.Key() == k
  }

  lemma {:induction false} InUnwanted(bp: Blueprint, gs: seq<Grant>, k: GrantKey)
    ensures k in UnwantedKeys(bp, gs) <==> UnwantedWith(bp, gs, k)
  {
    if gs != [] {
      InUnwanted(bp, gs[..|gs| - 1], k);
      UnwantedLast(bp, gs, k);
      UnwantedWithLast(bp, gs, k);
    }
  }

  lemma UnwantedLast(bp: Blueprint, gs: seq<Grant>, k: GrantKey)
    requires gs != []
    ensures k in UnwantedKeys(bp, gs) <==>
      k in UnwantedKeys(bp, gs[..|gs| - 1]) || (Unwanted(bp, gs[|gs| - 1]) && gs[|gs| - 1].Key() == k)
  {
  }

  lemma UnwantedWithLast(bp: Blueprint, gs: seq<Grant>, k: GrantKey)
    requires gs != []
    ensures UnwantedWith(bp, gs, k) <==>
      UnwantedWith(bp, gs[..|gs| - 1], k) || (Unwanted(bp, gs[|gs| - 1]) && gs[|gs| - 1].Key() == k)
  {
    var rest, g := gs[..|gs| - 1], gs[|gs| - 1];
    assert gs == rest + [g];
    if UnwantedWith(bp, gs, k) {
      var h :| h in gs && Unwanted(bp, h) && h.Key() == k;
      assert h in rest || h == g;
    }
  }

  /** Ownership of notebooks and shares cannot be changed. */
  predicate Stuck(k: GrantKey) {
    k.privilege == "OWNERSHIP" && (k.on == NOTEBOOK || k.on == SHARE)
  }

  /** `drop_grant`. */
  function DropStatements(k: GrantKey): seq<Statement> {
    if Stuck(k) then []
    else if k.privilege == "OWNERSHIP" then [TransferOwnership(k)]
    else [RevokeObject(k)]
  }

  predicate Revokes(s: Statement) {
    s.RevokeObject? || s.TransferOwnership?
  }

  function DropGrants(ks: seq<GrantKey>): seq<Statement> {
    if ks == [] then [] else DropGrants(ks[..|ks| - 1]) + DropStatements(ks[|ks| - 1])
  }

  function CreateGrants(ks: seq<GrantKey>): seq<Statement> {
    if ks == [] then [] else CreateGrants(ks[..|ks| - 1]) + [GrantObject(ks[|ks| - 1])]
  }

  function DropAccountGrants(ps: seq<string>): seq<Statement> {
    if ps == [] then [] else DropAccountGrants(ps[..|ps| - 1]) + [RevokeAccount(ps[|ps| - 1])]
  }

  function CreateAccountGrants(ps: seq<string>): seq<Statement> {
    if ps == [] then [] else CreateAccountGrants(ps[..|ps| - 1]) + [GrantAccount(ps[|ps| - 1])]
  }

  function DropFutureGrants(ks: seq<FutureKey>): seq<Statement> {
    if ks == [] then [] else DropFutureGrants(ks[..|ks| - 1]) + [RevokeFuture(ks[|ks| - 1])]
  }

  /** `apply_future_grant_to_existing_objects`: bulk grants on pipes are not allowed. */
  function ApplyToExisting(f: FutureGrant): seq<Statement> {
    if f.onFuture == PIPE then [] else [GrantAll(f)]
  }

  function CreateFutureGrant(have: seq<FutureKey>, refresh: bool, f: FutureGrant): seq<Statement> {
    if f.Key() !in have then [GrantFuture(f.Key())] + ApplyToExisting(f)
    else if refresh then ApplyToExisting(f)
    else []
  }

  function CreateFutureGrants(have: seq<FutureKey>, refresh: bool, fs: seq<FutureGrant>): seq<Statement> {
    if fs == [] then []
    else CreateFutureGrants(have, refresh, fs[..|fs| - 1]) + CreateFutureGrant(have, refresh, fs[|fs| - 1])
  }

  function CommentStatements(bp: Blueprint, row: Row): seq<Statement> {
    if bp.comment != row.comment then [SetComment(bp.comment)] else []
  }

  function GrantStatements(bp: Blueprint, row: Row): seq<Statement> {
    DropGrants(UnwantedKeys(bp, row.grants)) + CreateGrants(Outside(GrantKeys(bp.grants), GrantKeys(row.grants)))
  }

  function AccountStatements(bp: Blueprint, row: Row): seq<Statement> {
    DropAccountGrants(Outside(row.accountGrants, bp.accountGrants))
    + CreateAccountGrants(Outside(bp.accountGrants, row.accountGrants))
  }

  function FutureStatements(bp: Blueprint, row: Row, refresh: bool): seq<Statement> {
    DropFutureGrants(Outside(FutureKeys(row.futureGrants), FutureKeys(bp.futureGrants)))
    + CreateFutureGrants(FutureKeys(row.futureGrants), refresh, bp.futureGrants)
  }

  function Statements(bp: Blueprint, row: Row, refresh: bool): seq<Statement> {
    CommentStatements(bp, row) + GrantStatements(bp, row) + AccountStatements(bp, row)
    + FutureStatements(bp, row, refresh)
  }

  /** No declared future grant matches the grants of this key, and it is not declared. */
  predicate HasUnwanted(bp: Blueprint, row: Row, k: GrantKey) {
    exists g | g in row.grants ::
      g.Key() == k && (forall d | d in bp.grants :: d.Key() != k) && forall f | f in bp.futureGrants :: !f.Matches(g)
  }

  /** Which statements a comparison issues, one kind after the other. */
  predicate IsIssued(bp: Blueprint, row: Row, refresh: bool, s: Statement) {
    match s
    case SetComment(comment) => comment == bp.comment && comment != row.comment
    case GrantObject(k) =>
      (exists g | g in bp.grants :: g.Key() == k) && forall g | g in row.grants :: g.Key() != k
    case RevokeObject(k) => HasUnwanted(bp, row, k) && k.privilege != "OWNERSHIP"
    case TransferOwnership(k) =>
      HasUnwanted(bp, row, k) && k.privilege == "OWNERSHIP" && k.on != NOTEBOOK && k.on != SHARE
    case GrantAccount(p) => p in bp.accountGrants && p !in row.accountGrants
    case RevokeAccount(p) => p in row.accountGrants && p !in bp.accountGrants
    case GrantFuture(k) => HasFuture(bp.futureGrants, k) && !HasFuture(row.futureGrants, k)
    case RevokeFuture(k) => HasFuture(row.futureGrants, k) && !HasFuture(bp.futureGrants, k)
    case GrantAll(f) =>
      f in bp.futureGrants && f.onFuture != PIPE && (refresh || !HasFuture(row.futureGrants, f.Key()))
  }

  predicate HasFuture(fs: seq<FutureGrant>, k: FutureKey) {
    exists f | f in fs :: f.Key() == k
  }

  lemma HasFutureKey(fs: seq<FutureGrant>, k: FutureKey)
    ensures k in FutureKeys(fs) <==> HasFuture(fs, k)
  {
    if f :| f in fs && f.Key() == k {
      var i: nat :| i < |fs| && fs[i] == f;
      assert FutureKeys(fs)[i] == k;
    }
  }

  lemma UnwantedExactly(bp: Blueprint, row: Row, k: GrantKey)
    ensures k in UnwantedKeys(bp, row.grants) <==> HasUnwanted(bp, row, k)
  {
    InUnwanted(bp, row.grants, k);
    HasKey(bp.grants, k);
  }

  lemma {:induction false} IssuedDrop(ks: seq<GrantKey>, s: Statement)
    ensures s in DropGrants(ks) <==>
      || (s.RevokeObject? && s.key in ks && s.key.privilege != "OWNERSHIP")
      || (s.TransferOwnership? && s.key in ks && s.key.privilege == "OWNERSHIP"
          && s.key.on != NOTEBOOK && s.key.on != SHARE)
  {
    if ks != [] {
      var rest, k := ks[..|ks| - 1], ks[|ks| - 1];
      IssuedDrop(rest, s);
      assert ks == rest + [k] && DropGrants(ks) == DropGrants(rest) + DropStatements(k);
    }
  }

  lemma {:induction false} IssuedCreate(ks: seq<GrantKey>, s: Statement)
    ensures s in CreateGrants(ks) <==> s.GrantObject? && s.key in ks
  {
    if ks != [] {
      IssuedCreate(ks[..|ks| - 1], s);
      assert ks == ks[..|ks| - 1] + [ks[|ks| - 1]];
    }
  }

  lemma {:induction false} IssuedAccount(ps: seq<string>, s: Statement)
    ensures s in DropAccountGrants(ps) <==> s.RevokeAccount? && s.privilege in ps
    ensures s in CreateAccountGrants(ps) <==> s.GrantAccount? && s.privilege in ps
  {
    if ps != [] {
      IssuedAccount(ps[..|ps| - 1], s);
      assert ps == ps[..|ps| - 1] + [ps[|ps| - 1]];
    }
  }

  lemma {:induction false} IssuedDropFuture(ks: seq<FutureKey>, s: Statement)
    ensures s in DropFutureGrants(ks) <==> s.RevokeFuture? && s.future in ks
  {
    if ks != [] {
      IssuedDropFuture(ks[..|ks| - 1], s);
      assert ks == ks[..|ks| - 1] + [ks[|ks| - 1]];
    }
  }

  /** The statements of one declared future grant. */
  predicate IssuedFor(have: seq<FutureKey>, refresh: bool, f: FutureGrant, s: Statement) {
    || (s == GrantFuture(f.Key()) && f.Key() !in have)
    || (s == GrantAll(f) && f.onFuture != PIPE && (refresh || f.Key() !in have))
  }

  lemma IssuedOne(have: seq<FutureKey>, refresh: bool, f: FutureGrant, s: Statement)
    ensures s in CreateFutureGrant(have, refresh, f) <==> IssuedFor(have, refresh, f, s)
  {
  }

  lemma IssuedForMore(have: seq<FutureKey>, refresh: bool, fs: seq<FutureGrant>, f: FutureGrant, s: Statement)
    ensures (exists g | g in fs + [f] :: IssuedFor(have, refresh, g, s)) <==>
      (exists g | g in fs :: IssuedFor(have, refresh, g, s)) || IssuedFor(have, refresh, f, s)
  {
    assert f in fs + [f];
    assert forall g | g in fs :: g in fs + [f];
  }

  lemma {:induction false} IssuedFuture(have: seq<FutureKey>, refresh: bool, fs: seq<FutureGrant>, s: Statement)
    ensures s in CreateFutureGrants(have, refresh, fs) <==> exists f | f in fs :: IssuedFor(have, refresh, f, s)
  {
    if fs != [] {
      var rest, f := fs[..|fs| - 1], fs[|fs| - 1];
      IssuedFuture(have, refresh, rest, s);
      IssuedOne(have, refresh, f, s);
      IssuedForMore(have, refresh, rest, f, s);
      assert fs == rest + [f];
    }
  }

  lemma IssuedByFutures(bp: Blueprint, row: Row, refresh: bool, s: Statement)
    ensures s in FutureStatements(bp, row, refresh) <==>
      IsIssued(bp, row, refresh, s) && (s.GrantFuture? || s.RevokeFuture? || s.GrantAll?)
  {
    var have, want := FutureKeys(row.futureGrants), FutureKeys(bp.futureGrants);
    IssuedDropFuture(Outside(have, want), s);
    IssuedFuture(have, refresh, bp.futureGrants, s);
    if s.GrantFuture? || s.RevokeFuture? {
      InOutside(have, want, s.future);
      HasFutureKey(row.futureGrants, s.future);
      HasFutureKey(bp.futureGrants, s.future);
    } else if s.GrantAll? {
      HasFutureKey(row.futureGrants, s.grant.Key());
    }
  }

  lemma MissingExactly(bp: Blueprint, row: Row, k: GrantKey)
    ensures k in Outside(GrantKeys(bp.grants), GrantKeys(row.grants)) <==>
      (exists g | g in bp.grants :: g.Key() == k) && forall g | g in row.grants :: g.Key() != k
  {
    InOutside(GrantKeys(bp.grants), GrantKeys(row.grants), k);
    HasKey(bp.grants, k);
    HasKey(row.grants, k);
  }

  lemma InGrantStatements(bp: Blueprint, row: Row, s: Statement)
    ensures s in GrantStatements(bp, row) <==>
      || (s.GrantObject? && s.key in Outside(GrantKeys(bp.grants), GrantKeys(row.grants)))
      || (s.RevokeObject? && s.key in UnwantedKeys(bp, row.grants) && s.key.privilege != "OWNERSHIP")
      || (s.TransferOwnership? && s.key in UnwantedKeys(bp, row.grants) && s.key.privilege == "OWNERSHIP"
          && s.key.on != NOTEBOOK && s.key.on != SHARE)
  {
    IssuedDrop(UnwantedKeys(bp, row.grants), s);
    IssuedCreate(Outside(GrantKeys(bp.grants), GrantKeys(row.grants)), s);
  }

  lemma IssuedByGrants(bp: Blueprint, row: Row, refresh: bool, s: Statement)
    ensures s in GrantStatements(bp, row) <==>
      IsIssued(bp, row, refresh, s) && (s.GrantObject? || s.RevokeObject? || s.TransferOwnership?)
  {
    InGrantStatements(bp, row, s);
    if s.GrantObject? {
      MissingExactly(bp, row, s.key);
    } else if s.RevokeObject? || s.TransferOwnership? {
      UnwantedExactly(bp, row, s.key);
    }
  }

  lemma IssuedByAccount(bp: Blueprint, row: Row, refresh: bool, s: Statement)
    ensures s in AccountStatements(bp, row) <==>
      IsIssued(bp, row, refresh, s) && (s.GrantAccount? || s.RevokeAccount?)
  {
    IssuedAccount(Outside(row.accountGrants, bp.accountGrants), s);
    IssuedAccount(Outside(bp.accountGrants, row.accountGrants), s);
    if s.GrantAccount? || s.RevokeAccount? {
      InOutside(row.accountGrants, bp.accountGrants, s.privilege);
      InOutside(bp.accountGrants, row.accountGrants, s.privilege);
    }
  }

  /** Every statement of a comparison, and no other. */
  lemma StatementsExactly(bp: Blueprint, row: Row, refresh: bool, s: Statement)
    ensures s in Statements(bp, row, refresh) <==> IsIssued(bp, row, refresh, s)
  {
    IssuedByGrants(bp, row, refresh, s);
    IssuedByAccount(bp, row, refresh, s);
    IssuedByFutures(bp, row, refresh, s);
  }

  // ---------------------------------------------------------------------------------------------
  // What the statements do
  // ---------------------------------------------------------------------------------------------

  function Movable(ks: seq<GrantKey>): set<GrantKey> {
    set k | k in ks && !Stuck(k)
  }

  lemma DropOneDoes(catalog: Catalog, h: Held, k: GrantKey)
    ensures ExecAll(catalog, h, DropStatements(k)) == h.(grants := h.grants - if Stuck(k) then {} else {k})
  {
    var ss := DropStatements(k);
    if ss == [] {
      assert h.grants - {} == h.grants;
    } else {
      assert ss[..0] == [];
    }
  }

  lemma MovableLast(h: set<GrantKey>, ks: seq<GrantKey>)
    requires ks != []
    ensures h - Movable(ks)
         == h - Movable(ks[..|ks| - 1]) - if Stuck(ks[|ks| - 1]) then {} else {ks[|ks| - 1]}
  {
    assert ks == ks[..|ks| - 1] + [ks[|ks| - 1]];
  }

  lemma {:induction false} DropGrantsDo(catalog: Catalog, h: Held, ks: seq<GrantKey>)
    ensures ExecAll(catalog, h, DropGrants(ks)) == h.(grants := h.grants - Movable(ks))
  {
    if ks == [] {
      assert h.grants - Movable(ks) == h.grants;
    } else {
      var rest, k := ks[..|ks| - 1], ks[|ks| - 1];
      DropGrantsDo(catalog, h, rest);
      MovableLast(h.grants, ks);
      DropOneMore(catalog, h, DropGrants(rest), h.(grants := h.grants - Movable(rest)), k);
    }
  }

  lemma DropOneMore(catalog: Catalog, h: Held, ss: seq<Statement>, mid: Held, k: GrantKey)
    requires ExecAll(catalog, h, ss) == mid
    ensures ExecAll(catalog, h, ss + DropStatements(k)) == mid.(grants := mid.grants - if Stuck(k) then {} else {k})
  {
    ExecConcat(catalog, h, ss, DropStatements(k));
    DropOneDoes(catalog, mid, k);
  }

  lemma {:induction false} CreateGrantsDo(catalog: Catalog, h: Held, ks: seq<GrantKey>)
    ensures ExecAll(catalog, h, CreateGrants(ks)) == h.(grants := h.grants + SetOf(ks))
  {
    if ks == [] {
      assert h.grants + SetOf(ks) == h.grants;
    } else {
      var rest, k := ks[..|ks| - 1], ks[|ks| - 1];
      CreateGrantsDo(catalog, h, rest);
      ExecSnoc(catalog, h, CreateGrants(rest), GrantObject(k));
      assert CreateGrants(ks) == CreateGrants(rest) + [GrantObject(k)];
      SetOfSnoc(h.grants, ks);
    }
  }

  lemma {:induction false} DropAccountGrantsDo(catalog: Catalog, h: Held, ps: seq<string>)
    ensures ExecAll(catalog, h, DropAccountGrants(ps)) == h.(accountGrants := h.accountGrants - SetOf(ps))
  {
    if ps == [] {
      assert h.accountGrants - SetOf(ps) == h.accountGrants;
    } else {
      var rest, p := ps[..|ps| - 1], ps[|ps| - 1];
      DropAccountGrantsDo(catalog, h, rest);
      ExecSnoc(catalog, h, DropAccountGrants(rest), RevokeAccount(p));
      assert DropAccountGrants(ps) == DropAccountGrants(rest) + [RevokeAccount(p)];
      SetOfSnoc(h.accountGrants, ps);
    }
  }

  lemma {:induction false} CreateAccountGrantsDo(catalog: Catalog, h: Held, ps: seq<string>)
    ensures ExecAll(catalog, h, CreateAccountGrants(ps)) == h.(accountGrants := h.accountGrants + SetOf(ps))
  {
    if ps == [] {
      assert h.accountGrants + SetOf(ps) == h.accountGrants;
    } else {
      var rest, p := ps[..|ps| - 1], ps[|ps| - 1];
      CreateAccountGrantsDo(catalog, h, rest);
      ExecSnoc(catalog, h, CreateAccountGrants(rest), GrantAccount(p));
      assert CreateAccountGrants(ps) == CreateAccountGrants(rest) + [GrantAccount(p)];
      SetOfSnoc(h.accountGrants, ps);
    }
  }

  lemma {:induction false} DropFutureGrantsDo(catalog: Catalog, h: Held, ks: seq<FutureKey>)
    ensures ExecAll(catalog, h, DropFutureGrants(ks)) == h.(futureGrants := h.futureGrants - SetOf(ks))
  {
    if ks == [] {
      assert h.futureGrants - SetOf(ks) == h.futureGrants;
    } else {
      var rest, k := ks[..|ks| - 1], ks[|ks| - 1];
      DropFutureGrantsDo(catalog, h, rest);
      ExecSnoc(catalog, h, DropFutureGrants(rest), RevokeFuture(k));
      assert DropFutureGrants(ks) == DropFutureGrants(rest) + [RevokeFuture(k)];
      SetOfSnoc(h.futureGrants, ks);
    }
  }

  /** The future grants whose ON ALL form is issued. */
  predicate Applied(have: seq<FutureKey>, refresh: bool, f: FutureGrant) {
    f.onFuture != PIPE && (refresh || f.Key() !in have)
  }

  function Expanded(catalog: Catalog, have: seq<FutureKey>, refresh: bool, fs: seq<FutureGrant>): set<GrantKey> {
    if fs == [] then {}
    else
      var f := fs[|fs| - 1];
      Expanded(catalog, have, refresh, fs[..|fs| - 1])
      + if Applied(have, refresh, f) then Expansion(catalog, f) else {}
  }

  lemma {:induction false} InExpanded(
    catalog: Catalog, have: seq<FutureKey>, refresh: bool, fs: seq<FutureGrant>, k: GrantKey)
    ensures k in Expanded(catalog, have, refresh, fs)
       <==> exists f | f in fs :: Applied(have, refresh, f) && k in Expansion(catalog, f)
  {
    if fs != [] {
      var rest, f := fs[..|fs| - 1], fs[|fs| - 1];
      assert fs == rest + [f];
      InExpanded(catalog, have, refresh, rest, k);
    }
  }

  lemma CreateFutureGrantDoes(catalog: Catalog, h: Held, have: seq<FutureKey>, refresh: bool, f: FutureGrant)
    ensures ExecAll(catalog, h, CreateFutureGrant(have, refresh, f))
         == h.(futureGrants := h.futureGrants + (if f.Key() in have then {} else {f.Key()}),
               grants := h.grants + if Applied(have, refresh, f) then Expansion(catalog, f) else {})
  {
    var a := if f.Key() in have then [] else [GrantFuture(f.Key())];
    var b := if Applied(have, refresh, f) then [GrantAll(f)] else [];
    assert CreateFutureGrant(have, refresh, f) == a + b;
    ExecConcat(catalog, h, a, b);
    assert h.grants + {} == h.grants && h.futureGrants + {} == h.futureGrants;
    assert a != [] ==> a[..0] == [];
    assert b != [] ==> b[..0] == [];
  }

  lemma {:induction false} CreateFutureGrantsDo(
    catalog: Catalog, h: Held, have: seq<FutureKey>, refresh: bool, fs: seq<FutureGrant>)
    ensures ExecAll(catalog, h, CreateFutureGrants(have, refresh, fs))
         == h.(futureGrants := h.futureGrants + SetOf(Outside(FutureKeys(fs), have)),
               grants := h.grants + Expanded(catalog, have, refresh, fs))
  {
    if fs == [] {
      assert h.futureGrants + SetOf(Outside(FutureKeys(fs), have)) == h.futureGrants;
      assert h.grants + Expanded(catalog, have, refresh, fs) == h.grants;
    } else {
      var rest, f := fs[..|fs| - 1], fs[|fs| - 1];
      var mid := ExecAll(catalog, h, CreateFutureGrants(have, refresh, rest));
      CreateFutureGrantsDo(catalog, h, have, refresh, rest);
      CreateFutureGrantDoes(catalog, mid, have, refresh, f);
      ExecConcat(catalog, h, CreateFutureGrants(have, refresh, rest), CreateFutureGrant(have, refresh, f));
      FutureSnoc(h.futureGrants, fs, have);
      ExpandedSnoc(h.grants, catalog, have, refresh, fs);
    }
  }

  lemma ExpandedSnoc(h: set<GrantKey>, catalog: Catalog, have: seq<FutureKey>, refresh: bool, fs: seq<FutureGrant>)
    requires fs != []
    ensures h + Expanded(catalog, have, refresh, fs)
         == h + Expanded(catalog, have, refresh, fs[..|fs| - 1])
            + if Applied(have, refresh, fs[|fs| - 1]) then Expansion(catalog, fs[|fs| - 1]) else {}
  {
  }

  lemma FutureSnoc(h: set<FutureKey>, fs: seq<FutureGrant>, have: seq<FutureKey>)
    requires fs != []
    ensures h + SetOf(Outside(FutureKeys(fs), have))
         == h + SetOf(Outside(FutureKeys(fs[..|fs| - 1]), have))
            + if fs[|fs| - 1].Key() in have then {} else {fs[|fs| - 1].Key()}
  {
    var ks := FutureKeys(fs);
    assert ks[..|ks| - 1] == FutureKeys(fs[..|fs| - 1]);
    OutsideAdds(h, ks, have);
  }

  lemma OutsideAdds(h: set<FutureKey>, ks: seq<FutureKey>, have: seq<FutureKey>)
    requires ks != []
    ensures h + SetOf(Outside(ks, have))
         == h + SetOf(Outside(ks[..|ks| - 1], have)) + if ks[|ks| - 1] in have then {} else {ks[|ks| - 1]}
  {
    var o := Outside(ks, have);
    if ks[|ks| - 1] in have {
      assert o == Outside(ks[..|ks| - 1], have);
    } else {
      assert o[..|o| - 1] == Outside(ks[..|ks| - 1], have);
      SetOfSnoc(h, o);
    }
  }

  // ---------------------------------------------------------------------------------------------
  // The state after a run
  // ---------------------------------------------------------------------------------------------

  /** `r["comment"] if r["comment"] else None`. */
  function Shown(comment: Option<string>): Option<string> {
    if comment == Some("") then None else comment
  }

  predicate ValidGrants(gs: seq<Grant>) {
    forall g | g in gs :: g.Valid()
  }

  /** The row lists exactly what the role holds. */
  predicate Lists(row: Row, h: Held) {
    && row.comment == Shown(h.comment)
    && ValidGrants(row.grants)
    && SetOf(GrantKeys(row.grants)) == h.grants
    && SetOf(row.accountGrants) == h.accountGrants
    && SetOf(FutureKeys(row.futureGrants)) == h.futureGrants
  }

  function After(catalog: Catalog, h: Held, bp: Blueprint, row: Row, refresh: bool): Held {
    ExecAll(catalog, h, Statements(bp, row, refresh))
  }

  /** Keys of the existing grants that survive: matched by a declared future grant, or stuck. */
  predicate Survives(bp: Blueprint, row: Row, k: GrantKey) {
    k in GrantKeys(row.grants) && (k !in UnwantedKeys(bp, row.grants) || Stuck(k))
  }

  lemma {:induction false} AfterIs(catalog: Catalog, h: Held, bp: Blueprint, row: Row, refresh: bool)
    ensures After(catalog, h, bp, row, refresh) == Held(
      if bp.comment != row.comment then bp.comment else h.comment,
      h.grants - Movable(UnwantedKeys(bp, row.grants)) + SetOf(Outside(GrantKeys(bp.grants), GrantKeys(row.grants)))
        + Expanded(catalog, FutureKeys(row.futureGrants), refresh, bp.futureGrants),
      h.accountGrants - SetOf(Outside(row.accountGrants, bp.accountGrants))
        + SetOf(Outside(bp.accountGrants, row.accountGrants)),
      h.futureGrants - SetOf(Outside(FutureKeys(row.futureGrants), FutureKeys(bp.futureGrants)))
        + SetOf(Outside(FutureKeys(bp.futureGrants), FutureKeys(row.futureGrants))))
  {
    var a, b := CommentStatements(bp, row), GrantStatements(bp, row);
    var c, d := AccountStatements(bp, row), FutureStatements(bp, row, refresh);
    ExecConcat(catalog, h, a + b + c, d);
    ExecConcat(catalog, h, a + b, c);
    ExecConcat(catalog, h, a, b);
    assert a != [] ==> a[..0] == [];
    var h1 := ExecAll(catalog, h, a);
    var drop, make := UnwantedKeys(bp, row.grants), Outside(GrantKeys(bp.grants), GrantKeys(row.grants));
    ExecConcat(catalog, h1, DropGrants(drop), CreateGrants(make));
    DropGrantsDo(catalog, h1, drop);
    CreateGrantsDo(catalog, h1.(grants := h1.grants - Movable(drop)), make);
    var h2 := ExecAll(catalog, h1, b);
    AccountsDo(catalog, h2, bp, row);
    var h3 := ExecAll(catalog, h2, c);
    FuturesDo(catalog, h3, bp, row, refresh);
  }

  lemma AccountsDo(catalog: Catalog, h: Held, bp: Blueprint, row: Row)
    ensures ExecAll(catalog, h, AccountStatements(bp, row))
         == h.(accountGrants := h.accountGrants - SetOf(Outside(row.accountGrants, bp.accountGrants))
                                + SetOf(Outside(bp.accountGrants, row.accountGrants)))
  {
    var drop, make := Outside(row.accountGrants, bp.accountGrants), Outside(bp.accountGrants, row.accountGrants);
    ExecConcat(catalog, h, DropAccountGrants(drop), CreateAccountGrants(make));
    DropAccountGrantsDo(catalog, h, drop);
    CreateAccountGrantsDo(catalog, h.(accountGrants := h.accountGrants - SetOf(drop)), make);
  }

  lemma FuturesDo(catalog: Catalog, h: Held, bp: Blueprint, row: Row, refresh: bool)
    ensures ExecAll(catalog, h, FutureStatements(bp, row, refresh))
         == h.(grants := h.grants + Expanded(catalog, FutureKeys(row.futureGrants), refresh, bp.futureGrants),
               futureGrants :=
                 h.futureGrants - SetOf(Outside(FutureKeys(row.futureGrants), FutureKeys(bp.futureGrants)))
                 + SetOf(Outside(FutureKeys(bp.futureGrants), FutureKeys(row.futureGrants))))
  {
    var have := FutureKeys(row.futureGrants);
    var drop := Outside(have, FutureKeys(bp.futureGrants));
    ExecConcat(catalog, h, DropFutureGrants(drop), CreateFutureGrants(have, refresh, bp.futureGrants));
    DropFutureGrantsDo(catalog, h, drop);
    CreateFutureGrantsDo(catalog, h.(futureGrants := h.futureGrants - SetOf(drop)), have, refresh, bp.futureGrants);
  }

  lemma RunLeaves(catalog: Catalog, h: Held, bp: Blueprint, row: Row, refresh: bool, k: GrantKey)
    requires Lists(row, h)
    ensures var r := After(catalog, h, bp, row, refresh);
      && Shown(r.comment) == Shown(bp.comment)
      && r.accountGrants == SetOf(bp.accountGrants)
      && r.futureGrants == SetOf(FutureKeys(bp.futureGrants))
      && (k in r.grants <==>
          || k in GrantKeys(bp.grants)
          || Survives(bp, row, k)
          || k in Expanded(catalog, FutureKeys(row.futureGrants), refresh, bp.futureGrants))
  {
    AfterIs(catalog, h, bp, row, refresh);
    Exchange(row.accountGrants, bp.accountGrants);
    Exchange(FutureKeys(row.futureGrants), FutureKeys(bp.futureGrants));
    GrantsAfter(bp, row, k);
  }

  /** Taking the surplus away and adding what is missing. */
  lemma Exchange<K(!new)>(have: seq<K>, want: seq<K>)
    ensures SetOf(have) - SetOf(Outside(have, want)) + SetOf(Outside(want, have)) == SetOf(want)
  {
    forall k: K
      ensures k in SetOf(have) - SetOf(Outside(have, want)) + SetOf(Outside(want, have)) <==> k in SetOf(want)
    {
      InOutside(have, want, k);
      InOutside(want, have, k);
    }
  }

  lemma GrantsAfter(bp: Blueprint, row: Row, k: GrantKey)
    ensures k in SetOf(GrantKeys(row.grants)) - Movable(UnwantedKeys(bp, row.grants))
                 + SetOf(Outside(GrantKeys(bp.grants), GrantKeys(row.grants)))
       <==> k in GrantKeys(bp.grants) || Survives(bp, row, k)
  {
    var have, want := GrantKeys(row.grants), GrantKeys(bp.grants);
    InOutside(want, have, k);
    if k in want {
      InUnwanted(bp, row.grants, k);
    }
  }

  // ---------------------------------------------------------------------------------------------
  // Nothing is revoked and wanted
  // ---------------------------------------------------------------------------------------------

  /** Names of schemas and of schema objects that print alike have the same parent. */
  lemma HoldsAlike(f: FutureGrant, i: Ident, j: Ident)
    requires i.Valid() && j.Valid() && i.Print() == j.Print()
    requires (i.Schema? || i.SchemaObject?) && (j.Schema? || j.SchemaObject?)
    ensures f.Holds(i) <==> f.Holds(j)
  {
    PrintDeterminesPath(i, j);
    assert |i.Path()| == |j.Path()|;
  }

  /** Valid grants with one key are matched by the same future grants, whatever class or prefix
      their names were built with. */
  lemma MatchDependsOnKey(f: FutureGrant, g: Grant, h: Grant)
    requires g.Valid() && h.Valid() && g.Key() == h.Key()
    ensures f.Matches(g) <==> f.Matches(h)
  {
    if g.on.FutureGrantSupported() {
      HoldsAlike(f, g.name, h.name);
    }
  }

  /** Whether an object reached by ON ALL is matched is decided by the type of the future grant. */
  lemma ReachedIsMatched(f: FutureGrant, o: (ObjectType, Ident), g: Grant)
    requires Reaches(f, o) && o.1.Valid() && g.Valid()
    requires g.Key() == GrantKey(f.privilege, o.0.ForGrant(), o.1.Print())
    ensures f.onFuture.FutureGrantSupported() <==> f.Matches(g)
    ensures !f.onFuture.FutureGrantSupported() ==> !g.on.FutureGrantSupported()
  {
    if g.on.FutureGrantSupported() {
      HoldsAlike(f, o.1, g.name);
    }
  }

  // ---------------------------------------------------------------------------------------------
  // What a role holds
  // ---------------------------------------------------------------------------------------------

  /** The object is in the schema, or in the database, that the future grant is about. */
  predicate IsInParent(f: FutureGrant, i: Ident) {
    match i
    case Schema(env, database, _) => !f.inSchema && f.name.Print() == env + database
    case SchemaObject(env, database, schema, _, _) =>
      f.name.Print() == if f.inSchema then env + database + "." + schema else env + database
    case Database(_, _) => false
    case DatabaseRole(_, _, _) => false
    case AccountObject(_, _) => false
  }

  lemma HoldsExactly(f: FutureGrant, i: Ident)
    ensures f.Holds(i) <==> IsInParent(f, i)
  {
    match i
    case SchemaObject(env, database, schema, _, _) =>
      assert i.Path()[..2] == [env + database, schema];
      assert Join([env + database, schema], '.') == env + database + "." + schema;
    case Schema(_, _, _) =>
    case Database(_, _) =>
    case DatabaseRole(_, _, _) =>
    case AccountObject(_, _) =>
  }

  /** A grant that the future grant would give: its privilege, on an object of its type in its parent. */
  predicate IsGivenBy(f: FutureGrant, g: Grant) {
    && g.privilege == f.privilege
    && g.on.ForGrant() == f.onFuture.ForGrant() && g.on.FutureGrantSupported()
    && IsInParent(f, g.name)
  }

  lemma MatchesExactly(f: FutureGrant, g: Grant)
    ensures f.Matches(g) <==> IsGivenBy(f, g)
  {
    HoldsExactly(f, g.name);
  }

  /** What a future grant matches is what its ON ALL would reach. */
  lemma MatchedIsExpanded(f: FutureGrant, g: Grant)
    requires f.Matches(g)
    ensures g.Key() in Expansion({(f.onFuture, g.name)}, f)
  {
    assert Reaches(f, (f.onFuture, g.name));
  }

  /** The ON ALL of a declared future grant that is new, or refreshed, reaches the object. */
  ghost predicate IsReached(catalog: Catalog, bp: Blueprint, row: Row, refresh: bool, k: GrantKey) {
    exists f, o | f in bp.futureGrants && o in catalog ::
      && f.onFuture != PIPE && (refresh || forall r | r in row.futureGrants :: r.Key() != f.Key())
      && o.0 == f.onFuture && IsInParent(f, o.1)
      && k == GrantKey(f.privilege, o.0.ForGrant(), o.1.Print())
  }

  lemma ExpandedExactly(catalog: Catalog, bp: Blueprint, row: Row, refresh: bool, k: GrantKey)
    ensures k in Expanded(catalog, FutureKeys(row.futureGrants), refresh, bp.futureGrants)
       <==> IsReached(catalog, bp, row, refresh, k)
  {
    InExpanded(catalog, FutureKeys(row.futureGrants), refresh, bp.futureGrants, k);
    forall f | f in bp.futureGrants
      ensures Applied(FutureKeys(row.futureGrants), refresh, f) <==>
              f.onFuture != PIPE && (refresh || forall r | r in row.futureGrants :: r.Key() != f.Key())
    {
      HasFutureKey(row.futureGrants, f.Key());
    }
    forall f, o
      ensures Reaches(f, o) <==> o.0 == f.onFuture && IsInParent(f, o.1)
    {
      HoldsExactly(f, o.1);
    }
  }

  /** An existing grant that a declared future grant would give. */
  predicate IsForeseen(bp: Blueprint, row: Row, k: GrantKey) {
    exists f, g | f in bp.futureGrants && g in row.grants :: g.Key() == k && IsGivenBy(f, g)
  }

  /** Existing grants with one key are matched alike. */
  lemma ForeseenExactly(bp: Blueprint, row: Row, k: GrantKey)
    requires ValidGrants(row.grants) && k in GrantKeys(row.grants) && k !in GrantKeys(bp.grants)
    ensures k in UnwantedKeys(bp, row.grants) <==> !IsForeseen(bp, row, k)
  {
    InUnwanted(bp, row.grants, k);
    HasKey(row.grants, k);
    forall f, g | f in bp.futureGrants && g in row.grants
      ensures f.Matches(g) <==> IsGivenBy(f, g)
    {
      MatchesExactly(f, g);
    }
    forall f, g, h | f in bp.futureGrants && g in row.grants && h in row.grants && g.Key() == h.Key()
      ensures f.Matches(g) <==> f.Matches(h)
    {
      MatchDependsOnKey(f, g, h);
    }
  }

  /** After one run the role holds the declared account and future grants, and exactly these object grants:
      the declared ones; those that an ON ALL of the run reached; and of those it held, ownership of notebooks
      and shares, which cannot be taken away, and what a declared future grant would give. */
  lemma RoleHoldsWhatIsDeclared(catalog: Catalog, h: Held, bp: Blueprint, row: Row, refresh: bool, k: GrantKey)
    requires Lists(row, h)
    ensures var r := After(catalog, h, bp, row, refresh);
      && Shown(r.comment) == Shown(bp.comment)
      && r.accountGrants == SetOf(bp.accountGrants)
      && r.futureGrants == SetOf(FutureKeys(bp.futureGrants))
      && (k in r.grants <==>
          || (exists g | g in bp.grants :: g.Key() == k)
          || IsReached(catalog, bp, row, refresh, k)
          || (k in h.grants && k.privilege == "OWNERSHIP" && (k.on == NOTEBOOK || k.on == SHARE))
          || (k in h.grants && IsForeseen(bp, row, k)))
  {
    RunLeaves(catalog, h, bp, row, refresh, k);
    ExpandedExactly(catalog, bp, row, refresh, k);
    HasKey(bp.grants, k);
    assert k in h.grants <==> k in GrantKeys(row.grants);
    if k in GrantKeys(row.grants) && k !in GrantKeys(bp.grants) {
      ForeseenExactly(bp, row, k);
    }
  }

  /** Some ON ALL of this run reaches an object through a type that future grants do not support,
      where the declared grants do not name it. */
  ghost predicate Churns(catalog: Catalog, bp: Blueprint, row: Row, refresh: bool) {
    exists f, k | f in bp.futureGrants && k in Expansion(catalog, f) ::
      && Applied(FutureKeys(row.futureGrants), refresh, f)
      && !f.onFuture.FutureGrantSupported()
      && k !in GrantKeys(bp.grants)
      && !Stuck(k)
  }

  /** A grant reached by ON ALL is not one that the next comparison revokes. */
  lemma ExpandedIsWanted(catalog: Catalog, bp: Blueprint, row: Row, refresh: bool, gs: seq<Grant>, k: GrantKey)
    requires ValidCatalog(catalog) && ValidGrants(gs) && !Churns(catalog, bp, row, refresh)
    requires k in Expanded(catalog, FutureKeys(row.futureGrants), refresh, bp.futureGrants)
    ensures k in UnwantedKeys(bp, gs) ==> Stuck(k)
  {
    InExpanded(catalog, FutureKeys(row.futureGrants), refresh, bp.futureGrants, k);
    var f: FutureGrant :|
      f in bp.futureGrants && Applied(FutureKeys(row.futureGrants), refresh, f) && k in Expansion(catalog, f);
    var o :| o in catalog && Reaches(f, o) && k == GrantKey(f.privilege, o.0.ForGrant(), o.1.Print());
    InUnwanted(bp, gs, k);
    if g :| g in gs && Unwanted(bp, g) && g.Key() == k {
      ReachedIsMatched(f, o, g);
      HasKey(bp.grants, k);
    }
  }

  /** An ON ALL of this run, for a type that future grants do not support, reaches the object of `k`. */
  ghost predicate GivesBack(catalog: Catalog, bp: Blueprint, row: Row, refresh: bool, k: GrantKey) {
    exists f | f in bp.futureGrants ::
      Applied(FutureKeys(row.futureGrants), refresh, f) && !f.onFuture.FutureGrantSupported()
      && k in Expansion(catalog, f)
  }

  /** A revoked grant was held, and it is held after the run if and only if such an ON ALL gives it back. */
  lemma NoRevokeHitsAWantedGrant(
    catalog: Catalog, h: Held, bp: Blueprint, row: Row, refresh: bool, s: Statement)
    requires Lists(row, h) && ValidCatalog(catalog)
    requires s in Statements(bp, row, refresh) && (s.RevokeObject? || s.TransferOwnership?)
    ensures s.key in h.grants
    ensures s.key in After(catalog, h, bp, row, refresh).grants <==> GivesBack(catalog, bp, row, refresh, s.key)
  {
    Revoked(bp, row, refresh, s);
    RunLeaves(catalog, h, bp, row, refresh, s.key);
    InUnwanted(bp, row.grants, s.key);
    HasKey(row.grants, s.key);
    var g :| g in row.grants && Unwanted(bp, g) && g.Key() == s.key;
    GivenBackIs(catalog, bp, row, refresh, g);
  }

  /** What is expanded and yet unwanted is of a type without future grants. */
  lemma GivenBackIs(catalog: Catalog, bp: Blueprint, row: Row, refresh: bool, g: Grant)
    requires ValidCatalog(catalog) && g.Valid() && Unwanted(bp, g)
    ensures g.Key() in Expanded(catalog, FutureKeys(row.futureGrants), refresh, bp.futureGrants)
       <==> GivesBack(catalog, bp, row, refresh, g.Key())
  {
    InExpanded(catalog, FutureKeys(row.futureGrants), refresh, bp.futureGrants, g.Key());
    forall f | f in bp.futureGrants && g.Key() in Expansion(catalog, f)
      ensures !f.onFuture.FutureGrantSupported()
    {
      var o :| o in catalog && Reaches(f, o) && g.Key() == GrantKey(f.privilege, o.0.ForGrant(), o.1.Print());
      ReachedIsMatched(f, o, g);
    }
  }

  lemma {:induction false} InDropGrants(ks: seq<GrantKey>, s: Statement)
    requires Revokes(s)
    ensures s in DropGrants(ks) ==> s.key in ks && !Stuck(s.key)
  {
    if ks != [] {
      InDropGrants(ks[..|ks| - 1], s);
    }
  }

  lemma {:induction false} InCreateGrants(ks: seq<GrantKey>, s: Statement)
    requires Revokes(s)
    ensures s !in CreateGrants(ks)
  {
    if ks != [] {
      InCreateGrants(ks[..|ks| - 1], s);
    }
  }

  lemma {:induction false} InAccountGrants(ps: seq<string>, s: Statement)
    requires Revokes(s)
    ensures s !in DropAccountGrants(ps) && s !in CreateAccountGrants(ps)
  {
    if ps != [] {
      InAccountGrants(ps[..|ps| - 1], s);
    }
  }

  lemma {:induction false} InDropFutureGrants(ks: seq<FutureKey>, s: Statement)
    requires Revokes(s)
    ensures s !in DropFutureGrants(ks)
  {
    if ks != [] {
      InDropFutureGrants(ks[..|ks| - 1], s);
    }
  }

  lemma {:induction false} InCreateFutureGrants(have: seq<FutureKey>, refresh: bool, fs: seq<FutureGrant>, s: Statement)
    requires Revokes(s)
    ensures s !in CreateFutureGrants(have, refresh, fs)
  {
    if fs != [] {
      InCreateFutureGrants(have, refresh, fs[..|fs| - 1], s);
    }
  }

  lemma RevokedByGrants(bp: Blueprint, row: Row, refresh: bool, s: Statement)
    requires Revokes(s)
    ensures s !in CommentStatements(bp, row)
    ensures s !in AccountStatements(bp, row)
    ensures s !in FutureStatements(bp, row, refresh)
  {
    var have, want := FutureKeys(row.futureGrants), FutureKeys(bp.futureGrants);
    InAccountGrants(Outside(row.accountGrants, bp.accountGrants), s);
    InAccountGrants(Outside(bp.accountGrants, row.accountGrants), s);
    InDropFutureGrants(Outside(have, want), s);
    InCreateFutureGrants(have, refresh, bp.futureGrants, s);
  }

  lemma Revoked(bp: Blueprint, row: Row, refresh: bool, s: Statement)
    requires s in Statements(bp, row, refresh) && Revokes(s)
    ensures s.key in UnwantedKeys(bp, row.grants) && !Stuck(s.key)
  {
    RevokedByGrants(bp, row, refresh, s);
    InDropGrants(UnwantedKeys(bp, row.grants), s);
    InCreateGrants(Outside(GrantKeys(bp.grants), GrantKeys(row.grants)), s);
  }

  // ---------------------------------------------------------------------------------------------
  // The second run
  // ---------------------------------------------------------------------------------------------

  predicate AllStuck(ks: seq<GrantKey>) {
    forall k | k in ks :: Stuck(k)
  }

  lemma AllStuckLast(ks: seq<GrantKey>)
    requires ks != []
    ensures AllStuck(ks) <==> AllStuck(ks[..|ks| - 1]) && Stuck(ks[|ks| - 1])
  {
    var rest, last := ks[..|ks| - 1], ks[|ks| - 1];
    assert ks == rest + [last];
    assert last in ks && forall k | k in rest :: k in ks;
  }

  lemma {:induction false} NothingToDrop(ks: seq<GrantKey>)
    ensures DropGrants(ks) == [] <==> AllStuck(ks)
  {
    if ks != [] {
      NothingToDrop(ks[..|ks| - 1]);
      AllStuckLast(ks);
      assert DropGrants(ks) == DropGrants(ks[..|ks| - 1]) + DropStatements(ks[|ks| - 1]);
    }
  }

  lemma {:induction false} NothingNew(have: seq<FutureKey>, fs: seq<FutureGrant>)
    requires forall f | f in fs :: f.Key() in have
    ensures CreateFutureGrants(have, false, fs) == []
  {
    if fs != [] {
      NothingNew(have, fs[..|fs| - 1]);
    }
  }

  lemma NoOutside<K(!new)>(ks: seq<K>, have: seq<K>)
    ensures SetOf(ks) <= SetOf(have) <==> Outside(ks, have) == []
  {
    if SetOf(ks) <= SetOf(have) {
      if Outside(ks, have) != [] {
        InOutside(ks, have, Outside(ks, have)[0]);
      }
    } else {
      var k :| k in SetOf(ks) && k !in SetOf(have);
      InOutside(ks, have, k);
    }
  }

  lemma GrantsLeft(bp: Blueprint, row: Row)
    requires SetOf(GrantKeys(bp.grants)) <= SetOf(GrantKeys(row.grants))
    ensures GrantStatements(bp, row) == DropGrants(UnwantedKeys(bp, row.grants))
  {
    NoOutside(GrantKeys(bp.grants), GrantKeys(row.grants));
  }

  lemma AccountGrantsLeft(bp: Blueprint, row: Row)
    requires SetOf(row.accountGrants) == SetOf(bp.accountGrants)
    ensures AccountStatements(bp, row) == []
  {
    NoOutside(row.accountGrants, bp.accountGrants);
    NoOutside(bp.accountGrants, row.accountGrants);
  }

  lemma FutureGrantsLeft(bp: Blueprint, row: Row)
    requires SetOf(FutureKeys(row.futureGrants)) == SetOf(FutureKeys(bp.futureGrants))
    ensures FutureStatements(bp, row, false) == []
  {
    NoOutside(FutureKeys(row.futureGrants), FutureKeys(bp.futureGrants));
    forall f | f in bp.futureGrants
      ensures f.Key() in FutureKeys(row.futureGrants)
    {
      var i: nat :| i < |bp.futureGrants| && bp.futureGrants[i] == f;
      assert FutureKeys(bp.futureGrants)[i] in SetOf(FutureKeys(bp.futureGrants));
    }
    NothingNew(FutureKeys(row.futureGrants), bp.futureGrants);
  }

  /** Once the keys agree, only the drop loop and the comment can have statements. */
  lemma WhatIsLeft(bp: Blueprint, row: Row)
    requires SetOf(GrantKeys(bp.grants)) <= SetOf(GrantKeys(row.grants))
    requires SetOf(row.accountGrants) == SetOf(bp.accountGrants)
    requires SetOf(FutureKeys(row.futureGrants)) == SetOf(FutureKeys(bp.futureGrants))
    ensures Statements(bp, row, false) == CommentStatements(bp, row) + DropGrants(UnwantedKeys(bp, row.grants))
  {
    GrantsLeft(bp, row);
    AccountGrantsLeft(bp, row);
    FutureGrantsLeft(bp, row);
  }

  /** A grant that is there for a reason is unwanted by the next run only if it is stuck. */
  lemma NextRunKeeps(catalog: Catalog, bp: Blueprint, row: Row, refresh: bool, next: Row, g: Grant)
    requires ValidGrants(row.grants) && ValidGrants(next.grants) && g in next.grants
    requires ValidCatalog(catalog) && !Churns(catalog, bp, row, refresh)
    requires || g.Key() in GrantKeys(bp.grants)
             || Survives(bp, row, g.Key())
             || g.Key() in Expanded(catalog, FutureKeys(row.futureGrants), refresh, bp.futureGrants)
    ensures Unwanted(bp, g) ==> Stuck(g.Key())
  {
    var k := g.Key();
    if k in Expanded(catalog, FutureKeys(row.futureGrants), refresh, bp.futureGrants) {
      ExpandedIsWanted(catalog, bp, row, refresh, next.grants, k);
      InUnwanted(bp, next.grants, k);
    } else if Survives(bp, row, k) {
      SurvivorIsWanted(bp, row, g);
    }
  }

  lemma SurvivorIsWanted(bp: Blueprint, row: Row, g: Grant)
    requires ValidGrants(row.grants) && g.Valid() && Survives(bp, row, g.Key())
    ensures Unwanted(bp, g) ==> Stuck(g.Key())
  {
    HasKey(row.grants, g.Key());
    InUnwanted(bp, row.grants, g.Key());
    var before :| before in row.grants && before.Key() == g.Key();
    if f :| f in bp.futureGrants && f.Matches(before) {
      MatchDependsOnKey(f, before, g);
    }
  }

  /** Churned grants are revoked by the next run. */
  lemma NextRunRevokes(catalog: Catalog, bp: Blueprint, row: Row, refresh: bool, next: Row) returns (k: GrantKey)
    requires ValidGrants(next.grants) && ValidCatalog(catalog) && Churns(catalog, bp, row, refresh)
    requires Expanded(catalog, FutureKeys(row.futureGrants), refresh, bp.futureGrants) <= SetOf(GrantKeys(next.grants))
    ensures k in UnwantedKeys(bp, next.grants) && !Stuck(k)
  {
    var have := FutureKeys(row.futureGrants);
    var f: FutureGrant;
    f, k :|
      && f in bp.futureGrants && k in Expansion(catalog, f) && Applied(have, refresh, f)
      && !f.onFuture.FutureGrantSupported() && k !in GrantKeys(bp.grants) && !Stuck(k);
    InExpanded(catalog, have, refresh, bp.futureGrants, k);
    assert k in SetOf(GrantKeys(next.grants));
    HasKey(next.grants, k);
    var g :| g in next.grants && g.Key() == k;
    var o :| o in catalog && Reaches(f, o) && k == GrantKey(f.privilege, o.0.ForGrant(), o.1.Print());
    ReachedIsMatched(f, o, g);
    InUnwanted(bp, next.grants, k);
  }

  /** The run after a run issues nothing, exactly when the declared comment is not the empty string
      and no ON ALL went to a type that future grants do not support. */
  lemma SecondRunIsSilent(catalog: Catalog, h: Held, bp: Blueprint, row: Row, refresh: bool, next: Row)
    requires Lists(row, h) && ValidCatalog(catalog)
    requires Lists(next, After(catalog, h, bp, row, refresh))
    ensures Statements(bp, next, false) == []
       <==> bp.comment != Some("") && !Churns(catalog, bp, row, refresh)
  {
    var gained := Expanded(catalog, FutureKeys(row.futureGrants), refresh, bp.futureGrants);
    var r := After(catalog, h, bp, row, refresh);
    forall k
      ensures k in SetOf(GrantKeys(next.grants)) <==> k in GrantKeys(bp.grants) || Survives(bp, row, k) || k in gained
    {
      RunLeaves(catalog, h, bp, row, refresh, k);
    }
    RunLeaves(catalog, h, bp, row, refresh, GrantKey("", ACCOUNT, ""));
    SilentWhen(catalog, bp, row, refresh, next);
  }

  lemma SilentWhen(catalog: Catalog, bp: Blueprint, row: Row, refresh: bool, next: Row)
    requires ValidGrants(row.grants) && ValidGrants(next.grants) && ValidCatalog(catalog)
    requires next.comment == Shown(bp.comment)
    requires SetOf(next.accountGrants) == SetOf(bp.accountGrants)
    requires SetOf(FutureKeys(next.futureGrants)) == SetOf(FutureKeys(bp.futureGrants))
    requires forall k :: k in SetOf(GrantKeys(next.grants)) <==>
      || k in GrantKeys(bp.grants)
      || Survives(bp, row, k)
      || k in Expanded(catalog, FutureKeys(row.futureGrants), refresh, bp.futureGrants)
    ensures Statements(bp, next, false) == []
       <==> bp.comment != Some("") && !Churns(catalog, bp, row, refresh)
  {
    WhatIsLeft(bp, next);
    assert CommentStatements(bp, next) == [] <==> bp.comment != Some("");
    NothingToDrop(UnwantedKeys(bp, next.grants));
    if Churns(catalog, bp, row, refresh) {
      var k := NextRunRevokes(catalog, bp, row, refresh, next);
    } else {
      forall k | k in UnwantedKeys(bp, next.grants)
        ensures Stuck(k)
      {
        InUnwanted(bp, next.grants, k);
        var g :| g in next.grants && Unwanted(bp, g) && g.Key() == k;
        HasKey(next.grants, k);
        assert k in SetOf(GrantKeys(next.grants));
        NextRunKeeps(catalog, bp, row, refresh, next, g);
      }
    }
  }

  lemma NotebookInSchema() returns (notebook: Ident, f: FutureGrant)
    ensures notebook.Valid() && f.Holds(notebook)
    ensures f.privilege == "USAGE" && f.onFuture == NOTEBOOK
  {
    notebook := SchemaObject("", "D", "S", "N", None);
    f := FutureGrant("USAGE", NOTEBOOK, true, Schema("", "D", "S"));
    assert "" + "D" == "D";
    assert notebook.Path()[..2] == f.name.Path();
    assert Join(f.name.Path(), '.') + "" == Join(f.name.Path(), '.');
  }

  /** Notebooks are such a type: the run grants on all notebooks of a schema, the next one revokes. */
  lemma NotebooksChurn() returns (catalog: Catalog, h: Held, bp: Blueprint, row: Row)
    ensures Lists(row, h) && ValidCatalog(catalog) && bp.comment == None
    ensures Churns(catalog, bp, row, false)
  {
    var notebook, f := NotebookInSchema();
    catalog := {(NOTEBOOK, notebook)};
    h := Held(None, {}, {}, {});
    bp := Blueprint(None, [], [], [f]);
    row := Row(None, [], [], []);
    assert Reaches(f, (NOTEBOOK, notebook));
    var k := GrantKey("USAGE", NOTEBOOK, notebook.Print());
    assert (NOTEBOOK, notebook) in catalog;
    assert f in bp.futureGrants && k in Expansion(catalog, f);
    assert f.Key() !in FutureKeys(row.futureGrants);
    assert Applied(FutureKeys(row.futureGrants), false, f) && !f.onFuture.FutureGrantSupported();
    assert k !in GrantKeys(bp.grants);
    assert !Stuck(k);
  }

  // ---------------------------------------------------------------------------------------------
  // The resolver
  // ---------------------------------------------------------------------------------------------

  predicate GrantsDiffer(bp: Blueprint, row: Row) {
    UnwantedKeys(bp, row.grants) != [] || Outside(GrantKeys(bp.grants), GrantKeys(row.grants)) != []
  }

  predicate Differ<K(==,!new)>(have: seq<K>, want: seq<K>) {
    Outside(have, want) != [] || Outside(want, have) != []
  }

  function Outcome(bp: Blueprint, row: Row, refresh: bool): ResolveResult {
    if GrantsDiffer(bp, row) || Differ(row.accountGrants, bp.accountGrants)
      || Differ(FutureKeys(row.futureGrants), FutureKeys(bp.futureGrants))
      || (refresh && bp.futureGrants != [])
    then GRANT
    else if bp.comment != row.comment then ALTER
    else NOCHANGE
  }

  lemma OutsideStep<K>(ks: seq<K>, have: seq<K>, i: nat)
    requires i < |ks|
    ensures ks[i] in have ==> Outside(ks[..i + 1], have) == Outside(ks[..i], have)
    ensures ks[i] !in have ==> Outside(ks[..i + 1], have) == Outside(ks[..i], have) + [ks[i]]
  {
    assert ks[..i + 1][..i] == ks[..i];
  }

  lemma CreateGrantsStep(ks: seq<GrantKey>, k: GrantKey)
    ensures CreateGrants(ks + [k]) == CreateGrants(ks) + [GrantObject(k)]
  {
    assert (ks + [k])[..|ks|] == ks;
  }

  lemma DropGrantsStep(ks: seq<GrantKey>, k: GrantKey)
    ensures DropGrants(ks + [k]) == DropGrants(ks) + DropStatements(k)
  {
    assert (ks + [k])[..|ks|] == ks;
  }

  lemma DropAccountGrantsStep(ks: seq<string>, k: string)
    ensures DropAccountGrants(ks + [k]) == DropAccountGrants(ks) + [RevokeAccount(k)]
  {
    assert (ks + [k])[..|ks|] == ks;
  }

  lemma CreateAccountGrantsStep(ks: seq<string>, k: string)
    ensures CreateAccountGrants(ks + [k]) == CreateAccountGrants(ks) + [GrantAccount(k)]
  {
    assert (ks + [k])[..|ks|] == ks;
  }

  lemma DropFutureGrantsStep(ks: seq<FutureKey>, k: FutureKey)
    ensures DropFutureGrants(ks + [k]) == DropFutureGrants(ks) + [RevokeFuture(k)]
  {
    assert (ks + [k])[..|ks|] == ks;
  }

  lemma CreateFutureGrantsStep(have: seq<FutureKey>, refresh: bool, fs: seq<FutureGrant>, i: nat)
    requires i < |fs|
    ensures CreateFutureGrants(have, refresh, fs[..i + 1])
         == CreateFutureGrants(have, refresh, fs[..i]) + CreateFutureGrant(have, refresh, fs[i])
  {
    assert fs[..i + 1][..i] == fs[..i];
  }

  lemma UnwantedStep(bp: Blueprint, gs: seq<Grant>, i: nat)
    requires i < |gs|
    ensures !Unwanted(bp, gs[i]) ==> UnwantedKeys(bp, gs[..i + 1]) == UnwantedKeys(bp, gs[..i])
    ensures Unwanted(bp, gs[i]) ==> UnwantedKeys(bp, gs[..i + 1]) == UnwantedKeys(bp, gs[..i]) + [gs[i].Key()]
  {
    assert gs[..i + 1][..i] == gs[..i];
  }

  class RoleResolver {
    var log: seq<Statement>

    method Execute(s: Statement)
      modifies this
      ensures log == old(log) + [s]
    {
      log := log + [s];
    }

    method DropGrant(g: Grant)
      modifies this
      ensures log == old(log) + DropStatements(g.Key())
    {
      if g.privilege == "OWNERSHIP" {
        if g.on == NOTEBOOK || g.on == SHARE {
          return;
        }
        Execute(TransferOwnership(g.Key()));
      } else {
        Execute(RevokeObject(g.Key()));
      }
    }

    method ApplyFutureGrantToExistingObjects(f: FutureGrant)
      modifies this
      ensures log == old(log) + ApplyToExisting(f)
    {
      if f.onFuture == PIPE {
        return;
      }
      Execute(GrantAll(f));
    }

    method DropUnwantedGrants(bp: Blueprint, row: Row) returns (differ: bool)
      modifies this
      ensures log == old(log) + DropGrants(UnwantedKeys(bp, row.grants))
      ensures differ <==> UnwantedKeys(bp, row.grants) != []
    {
      differ := false;
      var todo := row.grants;
      ghost var done: seq<Statement> := [];
      for i := 0 to |todo|
        invariant log == old(log) + done && done == DropGrants(UnwantedKeys(bp, todo[..i]))
        invariant differ <==> UnwantedKeys(bp, todo[..i]) != []
      {
        UnwantedStep(bp, todo, i);
        DropGrantsStep(UnwantedKeys(bp, todo[..i]), todo[i].Key());
        if todo[i].Key() !in GrantKeys(bp.grants) && !Matched(bp.futureGrants, todo[i]) {
          DropGrant(todo[i]);
          Append(old(log), done, DropStatements(todo[i].Key()));
          done := done + DropStatements(todo[i].Key());
          differ := true;
        }
      }
      assert todo[..|todo|] == todo;
    }

    method CreateMissingGrants(bp: Blueprint, row: Row) returns (differ: bool)
      modifies this
      ensures log == old(log) + CreateGrants(Outside(GrantKeys(bp.grants), GrantKeys(row.grants)))
      ensures differ <==> Outside(GrantKeys(bp.grants), GrantKeys(row.grants)) != []
    {
      differ := false;
      var todo := GrantKeys(bp.grants);
      ghost var done: seq<Statement> := [];
      for i := 0 to |todo|
        invariant log == old(log) + done && done == CreateGrants(Outside(todo[..i], GrantKeys(row.grants)))
        invariant differ <==> Outside(todo[..i], GrantKeys(row.grants)) != []
      {
        OutsideStep(todo, GrantKeys(row.grants), i);
        CreateGrantsStep(Outside(todo[..i], GrantKeys(row.grants)), todo[i]);
        if todo[i] !in GrantKeys(row.grants) {
          Execute(GrantObject(todo[i]));
          Append(old(log), done, [GrantObject(todo[i])]);
          done := done + [GrantObject(todo[i])];
          differ := true;
        }
      }
      assert todo[..|todo|] == todo;
    }

    method DropUnwantedAccountGrants(bp: Blueprint, row: Row) returns (differ: bool)
      modifies this
      ensures log == old(log) + DropAccountGrants(Outside(row.accountGrants, bp.accountGrants))
      ensures differ <==> Outside(row.accountGrants, bp.accountGrants) != []
    {
      differ := false;
      var todo := row.accountGrants;
      ghost var done: seq<Statement> := [];
      for i := 0 to |todo|
        invariant log == old(log) + done && done == DropAccountGrants(Outside(todo[..i], bp.accountGrants))
        invariant differ <==> Outside(todo[..i], bp.accountGrants) != []
      {
        OutsideStep(todo, bp.accountGrants, i);
        DropAccountGrantsStep(Outside(todo[..i], bp.accountGrants), todo[i]);
        if todo[i] !in bp.accountGrants {
          Execute(RevokeAccount(todo[i]));
          Append(old(log), done, [RevokeAccount(todo[i])]);
          done := done + [RevokeAccount(todo[i])];
          differ := true;
        }
      }
      assert todo[..|todo|] == todo;
    }

    method CreateMissingAccountGrants(bp: Blueprint, row: Row) returns (differ: bool)
      modifies this
      ensures log == old(log) + CreateAccountGrants(Outside(bp.accountGrants, row.accountGrants))
      ensures differ <==> Outside(bp.accountGrants, row.accountGrants) != []
    {
      differ := false;
      var todo := bp.accountGrants;
      ghost var done: seq<Statement> := [];
      for i := 0 to |todo|
        invariant log == old(log) + done && done == CreateAccountGrants(Outside(todo[..i], row.accountGrants))
        invariant differ <==> Outside(todo[..i], row.accountGrants) != []
      {
        OutsideStep(todo, row.accountGrants, i);
        CreateAccountGrantsStep(Outside(todo[..i], row.accountGrants), todo[i]);
        if todo[i] !in row.accountGrants {
          Execute(GrantAccount(todo[i]));
          Append(old(log), done, [GrantAccount(todo[i])]);
          done := done + [GrantAccount(todo[i])];
          differ := true;
        }
      }
      assert todo[..|todo|] == todo;
    }

    method DropUnwantedFutureGrants(bp: Blueprint, row: Row) returns (differ: bool)
      modifies this
      ensures log == old(log) + DropFutureGrants(Outside(FutureKeys(row.futureGrants), FutureKeys(bp.futureGrants)))
      ensures differ <==> Outside(FutureKeys(row.futureGrants), FutureKeys(bp.futureGrants)) != []
    {
      differ := false;
      var todo := FutureKeys(row.futureGrants);
      ghost var done: seq<Statement> := [];
      for i := 0 to |todo|
        invariant log == old(log) + done && done == DropFutureGrants(Outside(todo[..i], FutureKeys(bp.futureGrants)))
        invariant differ <==> Outside(todo[..i], FutureKeys(bp.futureGrants)) != []
      {
        OutsideStep(todo, FutureKeys(bp.futureGrants), i);
        DropFutureGrantsStep(Outside(todo[..i], FutureKeys(bp.futureGrants)), todo[i]);
        if todo[i] !in FutureKeys(bp.futureGrants) {
          Execute(RevokeFuture(todo[i]));
          Append(old(log), done, [RevokeFuture(todo[i])]);
          done := done + [RevokeFuture(todo[i])];
          differ := true;
        }
      }
      assert todo[..|todo|] == todo;
    }

    method CreateMissingFutureGrant(have: seq<FutureKey>, refresh: bool, f: FutureGrant) returns (differ: bool)
      modifies this
      ensures log == old(log) + CreateFutureGrant(have, refresh, f)
      ensures differ <==> f.Key() !in have || refresh
    {
      differ := false;
      if f.Key() !in have {
        Execute(GrantFuture(f.Key()));
        ApplyFutureGrantToExistingObjects(f);
        differ := true;
      } else if refresh {
        ApplyFutureGrantToExistingObjects(f);
        differ := true;
      }
    }

    method CreateMissingFutureGrants(have: seq<FutureKey>, fs: seq<FutureGrant>, refresh: bool)
      returns (differ: bool)
      modifies this
      ensures log == old(log) + CreateFutureGrants(have, refresh, fs)
      ensures differ <==> Outside(FutureKeys(fs), have) != [] || (refresh && fs != [])
    {
      differ := false;
      ghost var done, want := [], FutureKeys(fs);
      for i := 0 to |fs|
        invariant log == old(log) + done && done == CreateFutureGrants(have, refresh, fs[..i])
        invariant differ <==> Outside(want[..i], have) != [] || (refresh && i > 0)
      {
        CreateFutureGrantsStep(have, refresh, fs, i);
        OutsideStep(want, have, i);
        var d := CreateMissingFutureGrant(have, refresh, fs[i]);
        Append(old(log), done, CreateFutureGrant(have, refresh, fs[i]));
        done := done + CreateFutureGrant(have, refresh, fs[i]);
        differ := differ || d;
      }
      assert fs[..|fs|] == fs && want[..|fs|] == want;
    }

    method CompareGrants(bp: Blueprint, row: Row) returns (differ: bool)
      modifies this
      ensures log == old(log) + GrantStatements(bp, row)
      ensures differ <==> GrantsDiffer(bp, row)
    {
      var a := DropUnwantedGrants(bp, row);
      var b := CreateMissingGrants(bp, row);
      Append(old(log), DropGrants(UnwantedKeys(bp, row.grants)),
        CreateGrants(Outside(GrantKeys(bp.grants), GrantKeys(row.grants))));
      differ := a || b;
    }

    method CompareAccountGrants(bp: Blueprint, row: Row) returns (differ: bool)
      modifies this
      ensures log == old(log) + AccountStatements(bp, row)
      ensures differ <==> Differ(row.accountGrants, bp.accountGrants)
    {
      var a := DropUnwantedAccountGrants(bp, row);
      var b := CreateMissingAccountGrants(bp, row);
      Append(old(log), DropAccountGrants(Outside(row.accountGrants, bp.accountGrants)),
        CreateAccountGrants(Outside(bp.accountGrants, row.accountGrants)));
      differ := a || b;
    }

    method CompareFutureGrants(bp: Blueprint, row: Row, refresh: bool) returns (differ: bool)
      modifies this
      ensures log == old(log) + FutureStatements(bp, row, refresh)
      ensures differ <==> || Differ(FutureKeys(row.futureGrants), FutureKeys(bp.futureGrants))
                          || (refresh && bp.futureGrants != [])
    {
      var a := DropUnwantedFutureGrants(bp, row);
      var b := CreateMissingFutureGrants(FutureKeys(row.futureGrants), bp.futureGrants, refresh);
      Append(old(log), DropFutureGrants(Outside(FutureKeys(row.futureGrants), FutureKeys(bp.futureGrants))),
        CreateFutureGrants(FutureKeys(row.futureGrants), refresh, bp.futureGrants));
      differ := a || b;
    }

    method CompareComment(bp: Blueprint, row: Row) returns (result: ResolveResult)
      modifies this
      ensures log == old(log) + CommentStatements(bp, row)
      ensures result == if bp.comment != row.comment then ALTER else NOCHANGE
    {
      result := NOCHANGE;
      if bp.comment != row.comment {
        Execute(SetComment(bp.comment));
        result := ALTER;
      }
    }

    /** `compare_object`. */
    method CompareObject(bp: Blueprint, row: Row, refresh: bool) returns (result: ResolveResult)
      modifies this
      ensures log == old(log) + Statements(bp, row, refresh)
      ensures result == Outcome(bp, row, refresh)
    {
      result := CompareComment(bp, row);
      var a := CompareGrants(bp, row);
      var b := CompareAccountGrants(bp, row);
      var c := CompareFutureGrants(bp, row, refresh);
      if a || b || c {
        result := GRANT;
      }
      Regroup(old(log), CommentStatements(bp, row), GrantStatements(bp, row), AccountStatements(bp, row),
        FutureStatements(bp, row, refresh));
    }
  }

  lemma Append<T>(l: seq<T>, a: seq<T>, b: seq<T>)
    ensures l + a + b == l + (a + b)
  {
  }

  lemma Regroup<T>(l: seq<T>, c: seq<T>, g: seq<T>, a: seq<T>, f: seq<T>)
    ensures l + c + g + a + f == l + (c + g + a + f)
  {
  }

  /** A second comparison reports no change exactly when it issues nothing and no notebook or share
      is owned by the role unasked: for those `GRANT` is reported on every run. */
  lemma SecondOutcome(bp: Blueprint, row: Row)
    ensures Outcome(bp, row, false) == NOCHANGE
       <==> Statements(bp, row, false) == [] && UnwantedKeys(bp, row.grants) == []
  {
    SilentGrants(bp, row);
    SilentAccountGrants(bp, row);
    SilentFutureGrants(bp, row);
  }

  /** Ownership of a notebook or share that is not declared: held before the run, or gained by its ON ALL. */
  ghost predicate StuckRemains(catalog: Catalog, bp: Blueprint, row: Row, refresh: bool) {
    exists k :: Stuck(k) && k !in GrantKeys(bp.grants) && Gets(catalog, bp, row, refresh, k)
  }

  predicate Gets(catalog: Catalog, bp: Blueprint, row: Row, refresh: bool, k: GrantKey) {
    k in GrantKeys(row.grants) || k in Expanded(catalog, FutureKeys(row.futureGrants), refresh, bp.futureGrants)
  }

  /** Future grants do not match notebooks and shares. */
  lemma StuckIsUnwanted(bp: Blueprint, g: Grant)
    requires Stuck(g.Key()) && g.Key() !in GrantKeys(bp.grants)
    ensures Unwanted(bp, g)
  {
    assert g.on == NOTEBOOK || g.on == SHARE;
  }

  lemma StuckUnwantedKey(bp: Blueprint, gs: seq<Grant>, k: GrantKey)
    requires Stuck(k)
    ensures k in UnwantedKeys(bp, gs) <==> k in GrantKeys(gs) && k !in GrantKeys(bp.grants)
  {
    InUnwanted(bp, gs, k);
    HasKey(gs, k);
    if g :| g in gs && g.Key() == k && k !in GrantKeys(bp.grants) {
      StuckIsUnwanted(bp, g);
    }
  }

  /** What is stuck and not declared is there again in the next run, exactly if it was there or was gained. */
  lemma StuckStays(catalog: Catalog, h: Held, bp: Blueprint, row: Row, refresh: bool, next: Row, k: GrantKey)
    requires Lists(row, h) && Lists(next, After(catalog, h, bp, row, refresh)) && Stuck(k)
    ensures k in UnwantedKeys(bp, next.grants) <==>
            k !in GrantKeys(bp.grants) && Gets(catalog, bp, row, refresh, k)
  {
    RunLeaves(catalog, h, bp, row, refresh, k);
    assert k in SetOf(GrantKeys(next.grants)) <==> k in GrantKeys(next.grants);
    StuckUnwantedKey(bp, next.grants, k);
  }

  /** Over two runs: the second reports no change if and only if the declared comment is not empty text, no
      ON ALL of the first went to a type without future grants, and no ownership is stuck. */
  lemma SecondRunReports(catalog: Catalog, h: Held, bp: Blueprint, row: Row, refresh: bool, next: Row)
    requires Lists(row, h) && ValidCatalog(catalog)
    requires Lists(next, After(catalog, h, bp, row, refresh))
    ensures Outcome(bp, next, false) == NOCHANGE <==>
            bp.comment != Some("") && !Churns(catalog, bp, row, refresh) && !StuckRemains(catalog, bp, row, refresh)
  {
    SecondOutcome(bp, next);
    SecondRunIsSilent(catalog, h, bp, row, refresh, next);
    NothingToDrop(UnwantedKeys(bp, next.grants));
    if Statements(bp, next, false) == [] {
      forall k
        ensures k in UnwantedKeys(bp, next.grants) <==>
                Stuck(k) && k !in GrantKeys(bp.grants) && Gets(catalog, bp, row, refresh, k)
      {
        if k in UnwantedKeys(bp, next.grants) {
          SilentMeansStuck(bp, next, k);
        }
        if Stuck(k) {
          StuckStays(catalog, h, bp, row, refresh, next, k);
        }
      }
      assert UnwantedKeys(bp, next.grants) != [] ==> UnwantedKeys(bp, next.grants)[0] in UnwantedKeys(bp, next.grants);
    }
  }

  lemma SilentMeansStuck(bp: Blueprint, row: Row, k: GrantKey)
    requires Statements(bp, row, false) == [] && k in UnwantedKeys(bp, row.grants)
    ensures Stuck(k)
  {
    assert DropGrants(UnwantedKeys(bp, row.grants)) == [];
    NothingToDrop(UnwantedKeys(bp, row.grants));
  }

  function NothingDeclared(): Blueprint {
    Blueprint(None, [], [], [])
  }

  function OneGrant(g: Grant): Row {
    Row(None, [g], [], [])
  }

  lemma OneUnwanted(g: Grant)
    requires Stuck(g.Key())
    ensures UnwantedKeys(NothingDeclared(), [g]) == [g.Key()]
  {
    assert g.Key() !in GrantKeys([]);
    StuckIsUnwanted(NothingDeclared(), g);
    assert UnwantedKeys(NothingDeclared(), [g][..0]) == [];
  }

  lemma StuckIsKept(k: GrantKey)
    requires Stuck(k)
    ensures DropGrants([k]) == []
  {
    assert DropGrants([k][..0]) == [] && DropStatements(k) == [];
  }

  lemma NothingElse(g: Grant)
    ensures Statements(NothingDeclared(), OneGrant(g), false) == DropGrants(UnwantedKeys(NothingDeclared(), [g]))
  {
    assert GrantKeys([]) == [] && FutureKeys([]) == [];
    assert Outside([], GrantKeys([g])) == [] && CreateGrants([]) == [];
  }

  lemma StuckIsReported(g: Grant)
    requires UnwantedKeys(NothingDeclared(), [g]) == [g.Key()]
    ensures Outcome(NothingDeclared(), OneGrant(g), false) == GRANT
  {
    assert GrantsDiffer(NothingDeclared(), OneGrant(g));
  }

  lemma ListsOne(g: Grant)
    requires g.Valid()
    ensures Lists(OneGrant(g), Held(None, {g.Key()}, {}, {}))
  {
    assert GrantKeys([g]) == [g.Key()] && FutureKeys([]) == [];
  }

  lemma StuckIsSilent(g: Grant)
    requires Stuck(g.Key())
    ensures Statements(NothingDeclared(), OneGrant(g), false) == []
    ensures Outcome(NothingDeclared(), OneGrant(g), false) == GRANT
  {
    OneUnwanted(g);
    StuckIsKept(g.Key());
    NothingElse(g);
    StuckIsReported(g);
  }

  lemma SilentChangesNothing(catalog: Catalog, h: Held, bp: Blueprint, row: Row)
    requires Statements(bp, row, false) == []
    ensures After(catalog, h, bp, row, false) == h
  {
  }

  /** It occurs: a role for which nothing is declared owns a notebook.  It reports `GRANT` and issues nothing, in
      this run and in every other. */
  lemma StuckNotebook(name: Ident) returns (g: Grant, h: Held)
    requires name.Valid()
    ensures g == Grant("OWNERSHIP", NOTEBOOK, name) && h == Held(None, {g.Key()}, {}, {})
    ensures Lists(OneGrant(g), h) && Statements(NothingDeclared(), OneGrant(g), false) == []
    ensures Outcome(NothingDeclared(), OneGrant(g), false) == GRANT
    ensures After({}, h, NothingDeclared(), OneGrant(g), false) == h
  {
    g := Grant("OWNERSHIP", NOTEBOOK, name);
    h := Held(None, {g.Key()}, {}, {});
    StuckIsSilent(g);
    ListsOne(g);
    SilentChangesNothing({}, h, NothingDeclared(), OneGrant(g));
  }

  lemma SilentGrants(bp: Blueprint, row: Row)
    ensures GrantStatements(bp, row) == [] && UnwantedKeys(bp, row.grants) == [] <==> !GrantsDiffer(bp, row)
  {
    NothingToDrop(UnwantedKeys(bp, row.grants));
  }

  lemma SilentAccountGrants(bp: Blueprint, row: Row)
    ensures AccountStatements(bp, row) == [] <==> !Differ(row.accountGrants, bp.accountGrants)
  {
  }

  lemma SilentFutureGrants(bp: Blueprint, row: Row)
    ensures FutureStatements(bp, row, false) == []
       <==> !Differ(FutureKeys(row.futureGrants), FutureKeys(bp.futureGrants))
  {
    NewFutureGrants(FutureKeys(row.futureGrants), bp.futureGrants);
  }

  lemma {:induction false} NewFutureGrants(have: seq<FutureKey>, fs: seq<FutureGrant>)
    ensures CreateFutureGrants(have, false, fs) == [] <==> Outside(FutureKeys(fs), have) == []
  {
    if fs != [] {
      NewFutureGrants(have, fs[..|fs| - 1]);
      assert FutureKeys(fs)[..|fs| - 1] == FutureKeys(fs[..|fs| - 1]);
    }
  }
}
