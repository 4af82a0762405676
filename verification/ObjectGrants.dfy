/** Grants on a schema object, reconciled for the privileges that the configuration names:
    `_reconcile_object_grants`. */
module ObjectGrants {
  import opened Idents
  import opened Strings

  /** A live grant on the object; grantees are roles or something else, users for one. */
  datatype Grant = Grant(privilege: string, toRole: bool, grantee: string)

  /** One entry of the `grants` block. */
  datatype Entry = Entry(privilege: string, roles: seq<string>)

  datatype Settings = Settings(executeSafe: bool, executeUnsafe: bool)

  /** `AccountObjectIdent(env, role)`. */
  function RoleIdent(env: string, role: string): Ident {
    AccountObject(env, Upper(role))
  }

  /** `str(AccountObjectIdent(env, role))`. */
  function FullRole(env: string, role: string): string {
    env + Upper(role)
  }

  lemma RolePrints(env: string, role: string)
    ensures RoleIdent(env, role).Print() == FullRole(env, role)
  {
    assert Join([env + Upper(role)], '.') + "" == env + Upper(role);
  }

  function Desired(env: string, roles: seq<string>): (d: set<string>)
    ensures forall x :: x in d <==> exists r | r in roles :: FullRole(env, r) == x
  {
    set r | r in roles :: FullRole(env, r)
  }

  /** Roles that hold the privilege, as far as they are looked at: ownership never is. */
  function Live(held: set<Grant>, privilege: string): (roles: set<string>)
    ensures forall x :: x in roles <==> privilege != "OWNERSHIP" && Grant(privilege, true, x) in held
  {
    set g | g in held && g.toRole && g.privilege == privilege && g.privilege != "OWNERSHIP" :: g.grantee
  }

  /** The revoke names the grantee as an identifier without prefix, so in upper case. */
  function Revoked(extra: set<string>): (r: set<string>)
    ensures forall x :: x in r <==> exists e | e in extra :: Upper(e) == x
  {
    set e | e in extra :: Upper(e)
  }

  function Grants(privilege: string, roles: set<string>): (g: set<Grant>)
    ensures forall x :: x in g <==> x.privilege == privilege && x.toRole && x.grantee in roles
  {
    set r | r in roles :: Grant(privilege, true, r)
  }

  /** What one entry does to the grants `now`, given the grants `seen` that were read at the start. */
  function Step(now: set<Grant>, seen: set<Grant>, env: string, e: Entry, s: Settings): set<Grant> {
    var p := Upper(e.privilege);
    var want, have := Desired(env, e.roles), Live(seen, p);
    now + (if s.executeSafe then Grants(p, want - have) else {})
        - (if s.executeUnsafe then Grants(p, Revoked(have - want)) else {})
  }

  function After(held: set<Grant>, seen: set<Grant>, env: string, entries: seq<Entry>, s: Settings): set<Grant> {
    if entries == [] then held
    else Step(After(held, seen, env, entries[..|entries| - 1], s), seen, env, entries[|entries| - 1], s)
  }

  /** Some named privilege is held by other roles than the declared ones. */
  predicate Differs(seen: set<Grant>, env: string, entries: seq<Entry>) {
    exists e | e in entries :: Desired(env, e.roles) != Live(seen, Upper(e.privilege))
  }

  /** The keys of the block are distinct once they are in upper case. */
  predicate DistinctKeys(entries: seq<Entry>) {
    forall i: nat, j: nat | i < j < |entries| :: Upper(entries[i].privilege) != Upper(entries[j].privilege)
  }

  predicate Named(entries: seq<Entry>, privilege: string) {
    exists e | e in entries :: Upper(e.privilege) == privilege
  }

  // ---------------------------------------------------------------------------------------------
  // What a run leaves
  // ---------------------------------------------------------------------------------------------

  lemma NotNamedBefore(entries: seq<Entry>)
    requires entries != [] && DistinctKeys(entries)
    ensures !Named(entries[..|entries| - 1], Upper(entries[|entries| - 1].privilege))
  {
    var rest := entries[..|entries| - 1];
    forall e | e in rest
      ensures Upper(e.privilege) != Upper(entries[|entries| - 1].privilege)
    {
      var i: nat :| i < |rest| && rest[i] == e;
      assert entries[i] == e;
    }
  }

  /** Privileges that no entry names keep their grantees, and so do grantees that are not roles. */
  lemma {:induction false} OthersUntouched(
    held: set<Grant>, seen: set<Grant>, env: string, entries: seq<Entry>, s: Settings, g: Grant)
    requires !g.toRole || !Named(entries, g.privilege)
    ensures g in After(held, seen, env, entries, s) <==> g in held
  {
    if entries != [] {
      var rest, e := entries[..|entries| - 1], entries[|entries| - 1];
      assert e in entries;
      assert Named(rest, g.privilege) ==> Named(entries, g.privilege);
      OthersUntouched(held, seen, env, rest, s, g);
    }
  }

  /** Each entry decides alone about the roles that hold its privilege. */
  lemma {:induction false} EntryDecides(
    held: set<Grant>, seen: set<Grant>, env: string, entries: seq<Entry>, s: Settings, e: Entry, role: string)
    requires DistinctKeys(entries) && e in entries
    ensures var g := Grant(Upper(e.privilege), true, role);
      g in After(held, seen, env, entries, s) <==> g in Step(held, seen, env, e, s)
  {
    var rest, last := entries[..|entries| - 1], entries[|entries| - 1];
    var g := Grant(Upper(e.privilege), true, role);
    assert entries == rest + [last];
    NotNamedBefore(entries);
    if e == last {
      OthersUntouched(held, seen, env, rest, s, g);
    } else {
      assert e in rest;
      EntryDecides(held, seen, env, rest, s, e, role);
      assert Upper(last.privilege) != g.privilege;
    }
  }

  /** Extra grantees whose names are not in upper case. */
  predicate Odd(held: set<Grant>, env: string, e: Entry) {
    exists x | x in Live(held, Upper(e.privilege)) - Desired(env, e.roles) :: Upper(x) != x
  }

  /** With all statements executed the roles holding a named privilege become exactly the declared
      ones, unless an extra grantee is not in upper case: its revoke names another role. */
  lemma NamedBecomeDeclared(held: set<Grant>, env: string, entries: seq<Entry>, e: Entry)
    requires DistinctKeys(entries) && e in entries && Upper(e.privilege) != "OWNERSHIP"
    ensures Live(After(held, held, env, entries, Settings(true, true)), Upper(e.privilege)) == Desired(env, e.roles)
       <==> !Odd(held, env, e)
  {
    var p := Upper(e.privilege);
    var want, have := Desired(env, e.roles), Live(held, p);
    var after := Live(After(held, held, env, entries, Settings(true, true)), p);
    forall x
      ensures x in after <==> (x in have || x in want) && x !in Revoked(have - want)
    {
      EntryDecides(held, held, env, entries, Settings(true, true), e, x);
    }
    if x :| x in have - want && Upper(x) != x {
      if y :| y in have - want && Upper(y) == x {
        UpperTwice(y);
      }
      assert x in after;
    }
    if !Odd(held, env, e) {
      assert forall x :: x in Revoked(have - want) <==> x in have - want;
    }
  }

  /** It occurs: nobody is declared for SELECT, and a role with a lower-case name has it.  Its revoke names
      another role, and it keeps the privilege. */
  lemma OddGranteeStays(env: string, role: string)
    requires Upper(role) != role
    ensures var held, entries := {Grant("SELECT", true, role)}, [Entry("SELECT", [])];
      Odd(held, env, entries[0]) && After(held, held, env, entries, Settings(true, true)) == held
  {
    var held, e := {Grant("SELECT", true, role)}, Entry("SELECT", []);
    assert Upper("SELECT") == "SELECT" by {
      UpperOfUpper("SELECT");
    }
    assert Live(held, "SELECT") - Desired(env, []) == {role} && Desired(env, []) - Live(held, "SELECT") == {};
    assert Revoked({role}) == {Upper(role)};
    assert [e][..0] == [] && After(held, held, env, [e][..0], Settings(true, true)) == held;
    assert Step(held, held, env, e, Settings(true, true)) == held;
  }

  /** Without permission for unsafe statements nobody loses a privilege: live grantees become the union. */
  lemma NamedBecomeUnion(held: set<Grant>, env: string, entries: seq<Entry>, e: Entry)
    requires DistinctKeys(entries) && e in entries && Upper(e.privilege) != "OWNERSHIP"
    ensures Live(After(held, held, env, entries, Settings(true, false)), Upper(e.privilege))
         == Live(held, Upper(e.privilege)) + Desired(env, e.roles)
  {
    forall x
      ensures x in Live(After(held, held, env, entries, Settings(true, false)), Upper(e.privilege))
         <==> x in Live(held, Upper(e.privilege)) + Desired(env, e.roles)
    {
      EntryDecides(held, held, env, entries, Settings(true, false), e, x);
    }
  }

  lemma {:induction false} PlanChangesNothing(held: set<Grant>, env: string, entries: seq<Entry>)
    ensures After(held, held, env, entries, Settings(false, false)) == held
  {
    if entries != [] {
      PlanChangesNothing(held, env, entries[..|entries| - 1]);
    }
  }

  /** An entry that keeps being reported however often everything is executed. */
  predicate Persists(held: set<Grant>, env: string, e: Entry) {
    if Upper(e.privilege) == "OWNERSHIP" then e.roles != [] else Odd(held, env, e)
  }

  /** After a full run the next one reports a change exactly when some entry names roles for
      OWNERSHIP, or has an extra grantee that is not in upper case. */
  lemma SecondRunReports(held: set<Grant>, env: string, entries: seq<Entry>)
    requires DistinctKeys(entries)
    ensures Differs(After(held, held, env, entries, Settings(true, true)), env, entries)
       <==> exists e | e in entries :: Persists(held, env, e)
  {
    var after := After(held, held, env, entries, Settings(true, true));
    forall e | e in entries
      ensures Desired(env, e.roles) != Live(after, Upper(e.privilege)) <==> Persists(held, env, e)
    {
      if Upper(e.privilege) == "OWNERSHIP" {
        assert Live(after, "OWNERSHIP") == {};
        if e.roles != [] {
          assert FullRole(env, e.roles[0]) in Desired(env, e.roles);
        }
      } else {
        NamedBecomeDeclared(held, env, entries, e);
      }
    }
  }

  /** Without unsafe statements the next run reports a change exactly when there are extra grantees,
      or roles for OWNERSHIP. */
  lemma SecondSafeRunReports(held: set<Grant>, env: string, entries: seq<Entry>)
    requires DistinctKeys(entries)
    ensures Differs(After(held, held, env, entries, Settings(true, false)), env, entries)
       <==> exists e | e in entries ::
              || (Upper(e.privilege) == "OWNERSHIP" && e.roles != [])
              || !(Live(held, Upper(e.privilege)) <= Desired(env, e.roles))
  {
    var after := After(held, held, env, entries, Settings(true, false));
    forall e | e in entries
      ensures Desired(env, e.roles) != Live(after, Upper(e.privilege)) <==>
        || (Upper(e.privilege) == "OWNERSHIP" && e.roles != [])
        || !(Live(held, Upper(e.privilege)) <= Desired(env, e.roles))
    {
      if Upper(e.privilege) == "OWNERSHIP" {
        assert Live(after, "OWNERSHIP") == {} && Live(held, "OWNERSHIP") == {};
        if e.roles != [] {
          assert FullRole(env, e.roles[0]) in Desired(env, e.roles);
        }
      } else {
        NamedBecomeUnion(held, env, entries, e);
      }
    }
  }

  // ---------------------------------------------------------------------------------------------
  // The resolver
  // ---------------------------------------------------------------------------------------------

  /** Every role is filed under its prefixed name. */
  predicate Prefixes(env: string, desired: map<string, string>) {
    forall full | full in desired :: IsPrefixed(env, desired[full], full)
  }

  predicate IsPrefixed(env: string, role: string, full: string) {
    full == FullRole(env, role)
  }

  class Account {
    const settings: Settings
    var held: set<Grant>

    /** Snowflake files the grant under the name that the statement prints. */
    method ExecuteGrant(privilege: string, role: Ident)
      modifies this
      ensures held == old(held) + if settings.executeSafe then {Grant(privilege, true, role.Print())} else {}
    {
      if settings.executeSafe {
        held := held + {Grant(privilege, true, role.Print())};
      }
    }

    method ExecuteRevoke(privilege: string, role: Ident)
      modifies this
      ensures held == old(held) - if settings.executeUnsafe then {Grant(privilege, true, role.Print())} else {}
    {
      if settings.executeUnsafe {
        held := held - {Grant(privilege, true, role.Print())};
      }
    }

    constructor (settings: Settings, held: set<Grant>)
      ensures this.settings == settings && this.held == held
    {
      this.settings, this.held := settings, held;
    }

    method GrantOne(privilege: string, env: string, role: string, full: string)
      requires IsPrefixed(env, role, full)
      modifies this
      ensures held == old(held) + if settings.executeSafe then {Grant(privilege, true, full)} else {}
    {
      RolePrints(env, role);
      ExecuteGrant(privilege, RoleIdent(env, role));
    }

    method RevokeOne(privilege: string, live: string)
      modifies this
      ensures held == old(held) - if settings.executeUnsafe then {Grant(privilege, true, Upper(live))} else {}
    {
      RolePrints("", live);
      assert "" + Upper(live) == Upper(live);
      ExecuteRevoke(privilege, RoleIdent("", live));
    }

    /** The declared roles by the names they are compared under. */
    method DesiredRoles(env: string, roles: seq<string>) returns (desired: map<string, string>)
      ensures desired.Keys == Desired(env, roles)
      ensures Prefixes(env, desired)
    {
      desired := map[];
      for i := 0 to |roles|
        invariant desired.Keys == Desired(env, roles[..i])
        invariant Prefixes(env, desired)
      {
        desired := desired[FullRole(env, roles[i]) := roles[i]];
        assert roles[..i + 1] == roles[..i] + [roles[i]];
      }
      assert roles[..|roles|] == roles;
    }

    /** Grants go to the bare names, prefixed again: what Snowflake files is the name compared. */
    method GrantAll(privilege: string, env: string, desired: map<string, string>, missing: set<string>)
      requires missing <= desired.Keys && Prefixes(env, desired)
      modifies this
      ensures held == old(held) + if settings.executeSafe then Grants(privilege, missing) else {}
    {
      var todo := missing;
      ghost var done: set<string> := {};
      while todo != {}
        invariant done + todo == missing
        invariant held == old(held) + if settings.executeSafe then Grants(privilege, done) else {}
        decreases todo
      {
        var full :| full in todo;
        GrantsAdd(privilege, done, full);
        GrantOne(privilege, env, desired[full], full);
        todo, done := todo - {full}, done + {full};
      }
    }

    /** Revokes go to the live names, which have their prefix and get no other. */
    method RevokeAll(privilege: string, roles: set<string>)
      modifies this
      ensures held == old(held) - if settings.executeUnsafe then Grants(privilege, Revoked(roles)) else {}
    {
      var todo := roles;
      ghost var done: set<string> := {};
      while todo != {}
        invariant done + todo == roles
        invariant held == old(held) - if settings.executeUnsafe then Grants(privilege, Revoked(done)) else {}
        decreases |todo|
      {
        var role :| role in todo;
        RevokedAdd(done, role);
        GrantsAdd(privilege, Revoked(done), Upper(role));
        RevokeOne(privilege, role);
        todo, done := todo - {role}, done + {role};
      }
    }

    /** `_reconcile_object_grants`: the result says whether a statement was issued. */
    method ReconcileObjectGrants(env: string, entries: seq<Entry>, grantable: bool, exists_: bool)
      returns (isChanged: bool)
      modifies this
      ensures var seen := if exists_ then old(held) else {};
        if grantable
        then held == After(old(held), seen, env, entries, settings) && (isChanged <==> Differs(seen, env, entries))
        else held == old(held) && !isChanged
    {
      isChanged := false;
      if entries == [] || !grantable {
        return;
      }
      var seen := if exists_ then held else {};
      for i := 0 to |entries|
        invariant held == After(old(held), seen, env, entries[..i], settings)
        invariant isChanged <==> Differs(seen, env, entries[..i])
      {
        var privilege := Upper(entries[i].privilege);
        var desired := DesiredRoles(env, entries[i].roles);
        var want, have := desired.Keys, Live(seen, privilege);
        assert entries[..i + 1][..i] == entries[..i];
        GrantAll(privilege, env, desired, want - have);
        RevokeAll(privilege, have - want);
        DiffersStep(seen, env, entries, i);
        isChanged := isChanged || want - have != {} || have - want != {};
      }
      assert entries[..|entries|] == entries;
    }
  }

  lemma GrantsAdd(privilege: string, roles: set<string>, role: string)
    ensures Grants(privilege, roles + {role}) == Grants(privilege, roles) + {Grant(privilege, true, role)}
  {
  }

  lemma RevokedAdd(roles: set<string>, role: string)
    ensures Revoked(roles + {role}) == Revoked(roles) + {Upper(role)}
  {
  }

  lemma DiffersStep(seen: set<Grant>, env: string, entries: seq<Entry>, i: nat)
    requires i < |entries|
    ensures var want, have := Desired(env, entries[i].roles), Live(seen, Upper(entries[i].privilege));
      Differs(seen, env, entries[..i + 1]) <==>
        Differs(seen, env, entries[..i]) || want - have != {} || have - want != {}
  {
    var want, have := Desired(env, entries[i].roles), Live(seen, Upper(entries[i].privilege));
    assert entries[..i + 1] == entries[..i] + [entries[i]];
    assert want == have <==> want - have == {} && have - want == {};
  }
}
