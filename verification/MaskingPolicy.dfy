/** Masking policy references reconciled by parallel tasks.

    `MaskingPolicyResolver` submits one task per policy blueprint to a thread pool.  Every task
    reads the columns its policy is set on, issues SET for each declared reference that is
    missing, then UNSET for each existing reference that is no longer declared.  A SET carries
    FORCE when a metadata read just before it saw another policy on the column, and an UNSET is
    skipped when another blueprint claims the column.

    The model is a state machine: one step is one metadata read or one DDL statement of one
    task, and any task may move next.  A task that dies is one that never moves again, so what
    holds in every reachable state holds for failing tasks too. */
module MaskingPolicy {

  type Policy = string

  /** A column of a table or view, as named in a policy reference (its first column). */
  datatype Column = Column(entity: string, name: string)

  datatype Reference = Reference(objectType: string, target: Column)

  /** The key of a reference in the dictionary of existing references. */
  datatype RefKey = RefKey(domain: string, target: Column)

  /** The declared policies, which of them do not exist yet, and the object type that Snowflake
      reports for an entity. */
  datatype Config = Config(
    references: map<Policy, seq<Reference>>,
    created: set<Policy>,
    domainOf: string -> string)

  type Masks = map<Column, Policy>

  /** Where a task is. */
  datatype Pc =
    | Begin
    | AtReference(next: nat, existing: set<RefKey>)
    | BeforeSet(ref: nat, existing: set<RefKey>, force: bool)
    | Unsetting(rest: set<RefKey>)
    | Finished
    | Refused

  datatype State = State(masks: Masks, pc: map<Policy, Pc>)

  ghost predicate Claims(c: Config, p: Policy, i: nat, col: Column) {
    p in c.references && i < |c.references[p]| && c.references[p][i].target == col
  }

  ghost predicate Claimed(c: Config, col: Column) {
    exists p, i :: Claims(c, p, i, col)
  }

  /** `_is_claimed_by_other_blueprint`: the object type of the reference plays no part. */
  ghost predicate ClaimedByOther(c: Config, p: Policy, col: Column) {
    exists q, i :: q != p && Claims(c, q, i, col)
  }

  /** At most one reference of one blueprint names a given column. */
  ghost predicate UniqueClaims(c: Config) {
    forall p, i, q, j, col | Claims(c, p, i, col) && Claims(c, q, j, col) :: p == q && i == j
  }

  /** `_get_existing_policy_refs`. */
  ghost function ExistingRefs(c: Config, masks: Masks, p: Policy): set<RefKey> {
    set col | col in masks && masks[col] == p :: RefKey(c.domainOf(col.entity), col)
  }

  ghost function Started(c: Config, s: State, p: Policy): State
    requires p in s.pc
  {
    s.(pc := s.pc[p := AtReference(0, if p in c.created then {} else ExistingRefs(c, s.masks, p))])
  }

  /** At reference `i`: it exists already, or the metadata read before its SET is made, or there is none left. */
  ghost function Considered(c: Config, s: State, p: Policy, i: nat, existing: set<RefKey>): State
    requires p in c.references && p in s.pc
  {
    var refs := c.references[p];
    if i < |refs| then
      var key := RefKey(refs[i].objectType, refs[i].target);
      if key in existing then
        s.(pc := s.pc[p := AtReference(i + 1, existing - {key})])
      else
        var force := refs[i].target in s.masks && s.masks[refs[i].target] != p;
        s.(pc := s.pc[p := BeforeSet(i, existing, force)])
    else
      s.(pc := s.pc[p := Unsetting(existing)])
  }

  /** After the SET of reference `i`.  Snowflake refuses a plain SET over another policy. */
  ghost function AfterSet(c: Config, s: State, p: Policy, i: nat, existing: set<RefKey>, force: bool): State
    requires p in c.references && p in s.pc && i < |c.references[p]|
  {
    var col := c.references[p][i].target;
    if !force && col in s.masks && s.masks[col] != p then
      s.(pc := s.pc[p := Refused])
    else
      State(s.masks[col := p], s.pc[p := AtReference(i + 1, existing)])
  }

  /** After `key` is removed, or left to the blueprint that claims its column. */
  ghost function AfterUnset(c: Config, s: State, p: Policy, rest: set<RefKey>, key: RefKey): State
    requires p in s.pc
  {
    State(if ClaimedByOther(c, p, key.target) then s.masks else s.masks - {key.target},
          s.pc[p := Unsetting(rest - {key})])
  }

  /** One metadata read or one statement of the task of policy `p`. */
  ghost predicate Step(c: Config, s: State, p: Policy, t: State) {
    && p in c.references && p in s.pc
    && match s.pc[p]
       case Begin => t == Started(c, s, p)
       case AtReference(i, existing) => t == Considered(c, s, p, i, existing)
       case BeforeSet(i, existing, force) => i < |c.references[p]| && t == AfterSet(c, s, p, i, existing, force)
       case Unsetting(rest) =>
         if rest == {} then t == s.(pc := s.pc[p := Finished])
         else exists key | key in rest :: t == AfterUnset(c, s, p, rest, key)
       case Finished => false
       case Refused => false
  }

  ghost predicate Moves(c: Config, s: State, t: State) {
    exists p :: Step(c, s, p, t)
  }

  ghost predicate Init(c: Config, s: State) {
    && s.pc.Keys == c.references.Keys
    && (forall p | p in s.pc :: s.pc[p] == Begin)
    // A policy that does not exist is set on no column.
    && (forall p | p in c.created :: p !in s.masks.Values)
  }

  /** A run of the tasks, in any interleaving and of any length. */
  ghost predicate Run(c: Config, run: seq<State>) {
    && |run| > 0
    && Init(c, run[0])
    && forall k | 0 <= k < |run| - 1 :: Moves(c, run[k], run[k + 1])
  }

  ghost predicate AllFinished(s: State) {
    forall p | p in s.pc :: s.pc[p] == Finished
  }

  // ---------------------------------------------------------------------------------------------
  // The invariant, column by column
  // ---------------------------------------------------------------------------------------------

  ghost predicate Carries(m: Masks, col: Column, p: Policy) {
    col in m && m[col] == p
  }

  ghost predicate SameMask(m: Masks, n: Masks, col: Column) {
    (col in m <==> col in n) && (col in m ==> m[col] == n[col])
  }

  ghost function KeyOf(c: Config, col: Column): RefKey {
    RefKey(c.domainOf(col.entity), col)
  }

  /** The declared object type of a reference is the one Snowflake reports for the entity. */
  ghost predicate TypeAgrees(c: Config, r: Reference) {
    r.objectType == c.domainOf(r.target.entity)
  }

  /** The existing references a task may still hold: its own columns of the start, with true types. */
  ghost predicate OwnKeys(c: Config, m: Masks, p: Policy, keys: set<RefKey>) {
    forall key | key in keys :: key == KeyOf(c, key.target) && Carries(m, key.target, p)
  }

  ghost predicate PcInv(c: Config, m: Masks, p: Policy, pc: Pc)
    requires p in c.references
  {
    match pc
    case Begin => true
    case AtReference(i, existing) => i <= |c.references[p]| && OwnKeys(c, m, p, existing)
    case BeforeSet(i, existing, _) => i < |c.references[p]| && OwnKeys(c, m, p, existing)
    case Unsetting(rest) => OwnKeys(c, m, p, rest)
    case Finished => true
    case Refused => false
  }

  /** A column nobody claims, carrying a declared policy at the start: its task holds the key until
      it takes the policy away. */
  ghost predicate AbandonedInv(c: Config, m: Masks, s: State, col: Column, p: Policy)
    requires p in s.pc
  {
    var key := KeyOf(c, col);
    match s.pc[p]
    case Begin => Carries(s.masks, col, p)
    case AtReference(_, existing) => key in existing && Carries(s.masks, col, p)
    case BeforeSet(i, existing, force) =>
      key in existing && Carries(s.masks, col, p) && (Claims(c, p, i, col) ==> !force)
    case Unsetting(rest) => if key in rest then Carries(s.masks, col, p) else col !in s.masks
    case Finished => col !in s.masks
    case Refused => false
  }

  /** A column claimed by reference `r` of `p` that carried `p` at the start under the declared type:
      the key is dropped when the reference is reached, so it is never unset. */
  ghost predicate KeptInv(c: Config, s: State, col: Column, p: Policy, r: nat)
    requires p in s.pc
  {
    && Carries(s.masks, col, p)
    && var key := KeyOf(c, col);
    match s.pc[p]
    case Begin => true
    case AtReference(i, existing) => key in existing <==> i <= r
    case BeforeSet(i, existing, _) => i != r && (key in existing <==> i <= r)
    case Unsetting(rest) => key !in rest
    case Finished => true
    case Refused => false
  }

  /** A claimed column that did not carry its claimant at the start: it keeps what it had until the
      SET of its reference. */
  ghost predicate MovedInv(c: Config, m: Masks, s: State, col: Column, p: Policy, r: nat)
    requires p in s.pc
  {
    match s.pc[p]
    case Begin => SameMask(m, s.masks, col)
    case AtReference(i, _) => if i <= r then SameMask(m, s.masks, col) else Carries(s.masks, col, p)
    case BeforeSet(i, _, force) =>
      && (if i <= r then SameMask(m, s.masks, col) else Carries(s.masks, col, p))
      && (i == r ==> (force <==> col in m))
    case Unsetting(_) => Carries(s.masks, col, p)
    case Finished => Carries(s.masks, col, p)
    case Refused => false
  }

  ghost predicate ColumnInv(c: Config, m: Masks, s: State, col: Column)
    requires s.pc.Keys == c.references.Keys
  {
    // A claimed column.  The mistyped one behaves like an abandoned one.
    && (forall p, r: nat | Claims(c, p, r, col) ::
          if !Carries(m, col, p) then MovedInv(c, m, s, col, p, r)
          else if TypeAgrees(c, c.references[p][r]) then KeptInv(c, s, col, p, r)
          else AbandonedInv(c, m, s, col, p))
    // A column nobody claims.
    && (!Claimed(c, col) ==>
          if col in m && m[col] in c.references then AbandonedInv(c, m, s, col, m[col])
          else SameMask(m, s.masks, col))
  }

  ghost predicate Inv(c: Config, m: Masks, s: State) {
    && s.pc.Keys == c.references.Keys
    && (forall p | p in s.pc :: PcInv(c, m, p, s.pc[p]))
    && (forall col :: ColumnInv(c, m, s, col))
  }

  lemma InitInv(c: Config, s: State)
    requires Init(c, s)
    ensures Inv(c, s.masks, s)
  {
    forall col
      ensures ColumnInv(c, s.masks, s, col)
    {
    }
  }

  lemma StepKeepsPc(c: Config, m: Masks, s: State, p: Policy, t: State)
    requires UniqueClaims(c) && Inv(c, m, s) && Step(c, s, p, t)
    requires p in c.created ==> p !in m.Values
    ensures t.pc.Keys == c.references.Keys
    ensures forall q | q in t.pc :: q != p ==> t.pc[q] == s.pc[q]
    ensures PcInv(c, m, p, t.pc[p])
  {
    var refs := c.references[p];
    assert PcInv(c, m, p, s.pc[p]);
    match s.pc[p]
    case Begin =>
      forall col | Carries(s.masks, col, p)
        ensures Carries(m, col, p)
      {
        assert ColumnInv(c, m, s, col);
      }
    case AtReference(i, existing) =>
    case BeforeSet(i, existing, force) =>
      SetIsAllowed(c, m, s, p);
    case Unsetting(rest) =>
    case Finished =>
    case Refused =>
  }

  /** A SET has FORCE exactly when it finds another policy on its column. */
  lemma SetIsAllowed(c: Config, m: Masks, s: State, p: Policy)
    requires UniqueClaims(c) && Inv(c, m, s) && p in c.references && s.pc[p].BeforeSet?
    requires s.pc[p].ref < |c.references[p]|
    ensures var col := c.references[p][s.pc[p].ref].target;
            s.pc[p].force <==> col in s.masks && s.masks[col] != p
  {
    var i := s.pc[p].ref;
    assert Claims(c, p, i, c.references[p][i].target);
    assert ColumnInv(c, m, s, c.references[p][i].target);
  }

  /** A step of `p` leaves a column alone, or sets it to `p`, or takes `p` away from it. */
  lemma StepEffect(c: Config, m: Masks, s: State, p: Policy, t: State, col: Column)
    requires UniqueClaims(c) && Inv(c, m, s) && Step(c, s, p, t)
    ensures (t.pc.Keys == s.pc.Keys) && (forall q | q in t.pc && q != p :: t.pc[q] == s.pc[q])
    ensures SameMask(s.masks, t.masks, col)
            || (s.pc[p].BeforeSet? && Claims(c, p, s.pc[p].ref, col) && Carries(t.masks, col, p))
            || (s.pc[p].Unsetting? && t.pc[p].Unsetting? && KeyOf(c, col) in s.pc[p].rest && col !in t.masks
                && KeyOf(c, col) !in t.pc[p].rest && !ClaimedByOther(c, p, col) && Carries(m, col, p))
  {
    assert PcInv(c, m, p, s.pc[p]);
  }

  lemma MovedByOther(c: Config, m: Masks, s: State, p: Policy, t: State, col: Column, q: Policy, r: nat)
    requires UniqueClaims(c) && Inv(c, m, s) && Step(c, s, p, t) && p != q
    requires Claims(c, q, r, col) && q in s.pc && q in t.pc && MovedInv(c, m, s, col, q, r)
    ensures MovedInv(c, m, t, col, q, r)
  {
    StepEffect(c, m, s, p, t, col);
    assert SameMask(s.masks, t.masks, col);
  }

  lemma MovedUntilSet(c: Config, m: Masks, s: State, t: State, col: Column, q: Policy, r: nat)
    requires Step(c, s, q, t) && (s.pc[q].Begin? || s.pc[q].AtReference?)
    requires Claims(c, q, r, col) && q in t.pc && MovedInv(c, m, s, col, q, r) && !Carries(m, col, q)
    requires s.pc[q].AtReference? ==>
               s.pc[q].next != r || RefKey(c.references[q][r].objectType, col) !in s.pc[q].existing
    ensures MovedInv(c, m, t, col, q, r)
  {
  }

  lemma MovedBySet(c: Config, m: Masks, s: State, t: State, col: Column, q: Policy, r: nat)
    requires UniqueClaims(c) && Step(c, s, q, t) && s.pc[q].BeforeSet? && !t.pc[q].Refused?
    requires Claims(c, q, r, col) && q in t.pc && MovedInv(c, m, s, col, q, r)
    ensures MovedInv(c, m, t, col, q, r)
  {
    var i := s.pc[q].ref;
    assert Claims(c, q, i, c.references[q][i].target);
  }

  lemma MovedByUnset(c: Config, m: Masks, s: State, t: State, col: Column, q: Policy, r: nat)
    requires UniqueClaims(c) && Inv(c, m, s) && Step(c, s, q, t) && s.pc[q].Unsetting?
    requires Claims(c, q, r, col) && q in t.pc && MovedInv(c, m, s, col, q, r) && !Carries(m, col, q)
    ensures MovedInv(c, m, t, col, q, r)
  {
    StepEffect(c, m, s, q, t, col);
  }

  lemma StepKeepsMoved(c: Config, m: Masks, s: State, p: Policy, t: State, col: Column, q: Policy, r: nat)
    requires UniqueClaims(c) && Inv(c, m, s) && Step(c, s, p, t)
    requires p in t.pc && !t.pc[p].Refused?
    requires Claims(c, q, r, col) && !Carries(m, col, q) && q in t.pc
    ensures MovedInv(c, m, t, col, q, r)
  {
    assert MovedInv(c, m, s, col, q, r) by {
      assert ColumnInv(c, m, s, col);
    }
    if p != q {
      MovedByOther(c, m, s, p, t, col, q, r);
    } else if s.pc[p].BeforeSet? {
      MovedBySet(c, m, s, t, col, q, r);
    } else if s.pc[p].Unsetting? {
      MovedByUnset(c, m, s, t, col, q, r);
    } else {
      assert PcInv(c, m, p, s.pc[p]);
      MovedUntilSet(c, m, s, t, col, q, r);
    }
  }

  lemma StepKeepsKept(c: Config, m: Masks, s: State, p: Policy, t: State, col: Column, q: Policy, r: nat)
    requires UniqueClaims(c) && Inv(c, m, s) && Step(c, s, p, t)
    requires p in t.pc && !t.pc[p].Refused?
    requires p in c.created ==> p !in m.Values
    requires Claims(c, q, r, col) && Carries(m, col, q) && TypeAgrees(c, c.references[q][r]) && q in t.pc
    ensures KeptInv(c, t, col, q, r)
  {
    assert ColumnInv(c, m, s, col) && PcInv(c, m, p, s.pc[p]);
    StepEffect(c, m, s, p, t, col);
    assert m[col] in m.Values;
    if p == q && s.pc[p].AtReference? && s.pc[p].next < |c.references[p]| {
      var i := s.pc[p].next;
      assert Claims(c, p, i, c.references[p][i].target);
    }
  }

  lemma StepKeepsAbandoned(c: Config, m: Masks, s: State, p: Policy, t: State, col: Column, q: Policy)
    requires UniqueClaims(c) && Inv(c, m, s) && Step(c, s, p, t)
    requires p in t.pc && !t.pc[p].Refused?
    requires p in c.created ==> p !in m.Values
    requires q in s.pc && Carries(m, col, q) && !ClaimedByOther(c, q, col)
    requires forall r: nat | Claims(c, q, r, col) :: !TypeAgrees(c, c.references[q][r])
    requires AbandonedInv(c, m, s, col, q) && q in t.pc
    ensures AbandonedInv(c, m, t, col, q)
  {
    assert ColumnInv(c, m, s, col) && PcInv(c, m, p, s.pc[p]);
    StepEffect(c, m, s, p, t, col);
    assert m[col] in m.Values;
    if p == q && s.pc[p].AtReference? && s.pc[p].next < |c.references[p]| {
      var i := s.pc[p].next;
      assert Claims(c, p, i, c.references[p][i].target);
    }
  }

  lemma StepKeepsColumn(c: Config, m: Masks, s: State, p: Policy, t: State, col: Column)
    requires UniqueClaims(c) && Inv(c, m, s) && Step(c, s, p, t)
    requires p in c.created ==> p !in m.Values
    requires t.pc.Keys == c.references.Keys
    ensures ColumnInv(c, m, t, col)
  {
    assert ColumnInv(c, m, s, col);
    StepKeepsPc(c, m, s, p, t);
    if Claimed(c, col) {
      forall q, r: nat | Claims(c, q, r, col)
        ensures if !Carries(m, col, q) then MovedInv(c, m, t, col, q, r)
                else if TypeAgrees(c, c.references[q][r]) then KeptInv(c, t, col, q, r)
                else AbandonedInv(c, m, t, col, q)
      {
        if !Carries(m, col, q) {
          StepKeepsMoved(c, m, s, p, t, col, q, r);
        } else if TypeAgrees(c, c.references[q][r]) {
          StepKeepsKept(c, m, s, p, t, col, q, r);
        } else {
          StepKeepsAbandoned(c, m, s, p, t, col, q);
        }
      }
    } else if col in m && m[col] in c.references {
      StepKeepsAbandoned(c, m, s, p, t, col, m[col]);
    } else {
      StepEffect(c, m, s, p, t, col);
    }
  }

  lemma {:induction false} RunInv(c: Config, run: seq<State>, k: nat)
    requires UniqueClaims(c) && Run(c, run) && k < |run|
    ensures Inv(c, run[0].masks, run[k])
  {
    if k == 0 {
      InitInv(c, run[0]);
    } else {
      RunInv(c, run, k - 1);
      assert Moves(c, run[k - 1], run[k - 1 + 1]);
      var m, s, t := run[0].masks, run[k - 1], run[k];
      var p :| Step(c, s, p, t);
      StepKeepsPc(c, m, s, p, t);
      forall q | q in t.pc
        ensures PcInv(c, m, q, t.pc[q])
      {
        assert PcInv(c, m, q, s.pc[q]);
      }
      forall col
        ensures ColumnInv(c, m, t, col)
      {
        StepKeepsColumn(c, m, s, p, t, col);
      }
    }
  }

  // ---------------------------------------------------------------------------------------------
  // What every run guarantees
  // ---------------------------------------------------------------------------------------------

  /** At every moment a SET that is due has FORCE if and only if its column carries another policy, so
      Snowflake refuses no statement of any task, and none replaces a policy without need. */
  lemma PlainSetIsAllowed(c: Config, run: seq<State>, k: nat, p: Policy)
    requires UniqueClaims(c) && Run(c, run) && k < |run| && p in run[k].pc
    ensures run[k].pc[p] != Refused
    ensures run[k].pc[p].BeforeSet? ==>
              && p in c.references && run[k].pc[p].ref < |c.references[p]|
              && var col := c.references[p][run[k].pc[p].ref].target;
              run[k].pc[p].force <==> col in run[k].masks && run[k].masks[col] != p
  {
    RunInv(c, run, k);
    var m, s := run[0].masks, run[k];
    assert PcInv(c, m, p, s.pc[p]);
    if s.pc[p].BeforeSet? {
      SetIsAllowed(c, m, s, p);
    }
  }

  /** The only case in which reconciliation goes wrong: the column already carries its claimant, but
      the declared object type differs from the one Snowflake reports. */
  ghost predicate Mistyped(c: Config, m: Masks, p: Policy, r: nat)
    requires p in c.references && r < |c.references[p]|
  {
    Carries(m, c.references[p][r].target, p) && !TypeAgrees(c, c.references[p][r])
  }

  /** A claimed column that starts masked is masked at every moment of every interleaving, by the
      policy it had or by its claimant. */
  lemma ClaimedColumnStaysMasked(c: Config, run: seq<State>, k: nat, p: Policy, r: nat)
    requires UniqueClaims(c) && Run(c, run) && k < |run|
    requires p in c.references && r < |c.references[p]| && !Mistyped(c, run[0].masks, p, r)
    requires c.references[p][r].target in run[0].masks
    ensures var col := c.references[p][r].target;
            Carries(run[k].masks, col, run[0].masks[col]) || Carries(run[k].masks, col, p)
  {
    RunInv(c, run, k);
    var col := c.references[p][r].target;
    assert Claims(c, p, r, col) && ColumnInv(c, run[0].masks, run[k], col);
    assert PcInv(c, run[0].masks, p, run[k].pc[p]);
  }

  /** When all tasks are done a claimed column carries its claimant exactly when its reference is not
      mistyped; a mistyped reference leaves its column with no policy at all. */
  lemma ClaimedColumnAtEnd(c: Config, run: seq<State>, p: Policy, r: nat)
    requires UniqueClaims(c) && Run(c, run) && AllFinished(run[|run| - 1])
    requires p in c.references && r < |c.references[p]|
    ensures var col := c.references[p][r].target;
            && (Carries(run[|run| - 1].masks, col, p) <==> !Mistyped(c, run[0].masks, p, r))
            && (col in run[|run| - 1].masks <==> !Mistyped(c, run[0].masks, p, r))
  {
    RunInv(c, run, |run| - 1);
    var col := c.references[p][r].target;
    assert Claims(c, p, r, col) && ColumnInv(c, run[0].masks, run[|run| - 1], col);
    assert run[|run| - 1].pc[p] == Finished;
  }

  /** A column nobody claims ends with no declared policy, and any other policy on it is untouched. */
  lemma UnclaimedColumnAtEnd(c: Config, run: seq<State>, col: Column)
    requires UniqueClaims(c) && Run(c, run) && AllFinished(run[|run| - 1]) && !Claimed(c, col)
    ensures if col in run[0].masks && run[0].masks[col] in c.references then col !in run[|run| - 1].masks
            else SameMask(run[0].masks, run[|run| - 1].masks, col)
  {
    RunInv(c, run, |run| - 1);
    assert ColumnInv(c, run[0].masks, run[|run| - 1], col);
  }

  lemma KeptIsNeverTouched(c: Config, m: Masks, s: State, q: Policy, r: nat)
    requires Inv(c, m, s) && q in c.references && r < |c.references[q]|
    requires Carries(m, c.references[q][r].target, q) && TypeAgrees(c, c.references[q][r])
    ensures s.pc[q].BeforeSet? ==> s.pc[q].ref != r
    ensures s.pc[q].Unsetting? ==> KeyOf(c, c.references[q][r].target) !in s.pc[q].rest
  {
    assert Claims(c, q, r, c.references[q][r].target);
    assert ColumnInv(c, m, s, c.references[q][r].target);
  }

  /** Every claimed column carries its claimant, and no other column carries a declared policy. */
  ghost predicate Settled(c: Config, m: Masks) {
    && (forall q, r: nat | q in c.references && r < |c.references[q]| :: Carries(m, c.references[q][r].target, q))
    && (forall col | col in m && m[col] in c.references :: Claimed(c, col))
  }

  ghost predicate TypesAgree(c: Config) {
    forall q, r: nat | q in c.references && r < |c.references[q]| :: TypeAgrees(c, c.references[q][r])
  }

  /** Over settled masks no task issues a statement: none comes to a SET, and none has a reference
      left to remove. */
  lemma SecondRunIsSilent(c: Config, run: seq<State>, k: nat, p: Policy)
    requires UniqueClaims(c) && Run(c, run) && k < |run| && p in run[k].pc
    requires Settled(c, run[0].masks) && TypesAgree(c)
    ensures !run[k].pc[p].BeforeSet?
    ensures run[k].pc[p].Unsetting? ==> run[k].pc[p].rest == {}
  {
    RunInv(c, run, k);
    var m, s := run[0].masks, run[k];
    assert PcInv(c, m, p, s.pc[p]);
    if s.pc[p].BeforeSet? {
      KeptIsNeverTouched(c, m, s, p, s.pc[p].ref);
    } else if s.pc[p].Unsetting? && s.pc[p].rest != {} {
      var key :| key in s.pc[p].rest;
      var q, r :| Claims(c, q, r, key.target);
      KeptIsNeverTouched(c, m, s, q, r);
    }
  }

  /** A complete run leaves the columns settled if no reference has a wrong type. */
  lemma FinalMasksAreSettled(c: Config, run: seq<State>)
    requires UniqueClaims(c) && Run(c, run) && AllFinished(run[|run| - 1]) && TypesAgree(c)
    ensures Settled(c, run[|run| - 1].masks)
  {
    forall q, r: nat | q in c.references && r < |c.references[q]|
      ensures Carries(run[|run| - 1].masks, c.references[q][r].target, q)
    {
      ClaimedColumnAtEnd(c, run, q, r);
    }
    forall col | !Claimed(c, col)
      ensures !(col in run[|run| - 1].masks && run[|run| - 1].masks[col] in c.references)
    {
      UnclaimedColumnAtEnd(c, run, col);
    }
  }

  // ---------------------------------------------------------------------------------------------
  // One run after the other
  // ---------------------------------------------------------------------------------------------

  /** The configuration as later runs meet it: all declared policies exist. */
  function Later(c: Config): Config {
    c.(created := {})
  }

  ghost predicate Complete(c: Config, run: seq<State>) {
    Run(c, run) && AllFinished(run[|run| - 1])
  }

  function End(run: seq<State>): Masks
    requires run != []
  {
    run[|run| - 1].masks
  }

  /** Complete runs of one configuration, each starting from what the one before left. */
  ghost predicate Chain(c: Config, runs: seq<seq<State>>) {
    && (forall i | 0 <= i < |runs| :: Complete(if i == 0 then c else Later(c), runs[i]))
    && (forall i | 0 < i < |runs| :: runs[i][0].masks == End(runs[i - 1]))
  }

  lemma LaterClaims(c: Config)
    requires UniqueClaims(c)
    ensures UniqueClaims(Later(c))
    ensures forall p, i, col :: Claims(c, p, i, col) <==> Claims(Later(c), p, i, col)
  {
    assert forall p, i, col :: Claims(c, p, i, col) <==> Claims(Later(c), p, i, col);
  }

  /** The end of one run of the chain. */
  lemma ChainEnd(c: Config, runs: seq<seq<State>>, i: nat, p: Policy, r: nat)
    requires UniqueClaims(c) && Chain(c, runs) && i < |runs| && p in c.references && r < |c.references[p]|
    ensures var col := c.references[p][r].target;
            && (Carries(End(runs[i]), col, p) <==> !Mistyped(c, runs[i][0].masks, p, r))
            && (col in End(runs[i]) <==> !Mistyped(c, runs[i][0].masks, p, r))
  {
    LaterClaims(c);
    assert Complete(if i == 0 then c else Later(c), runs[i]);
    ClaimedColumnAtEnd(if i == 0 then c else Later(c), runs[i], p, r);
  }

  /** A claimed column is masked after each of two or more runs if and only if its reference has the type
      that Snowflake reports.  With a wrong type, the first or the second run ends without a mask. */
  lemma MaskedAfterRunsExactly(c: Config, runs: seq<seq<State>>, p: Policy, r: nat)
    requires UniqueClaims(c) && Chain(c, runs) && |runs| >= 2 && p in c.references && r < |c.references[p]|
    ensures (forall i | 0 <= i < |runs| :: c.references[p][r].target in End(runs[i]))
            <==> TypeAgrees(c, c.references[p][r])
  {
    forall i | 0 <= i < |runs|
      ensures TypeAgrees(c, c.references[p][r]) ==> c.references[p][r].target in End(runs[i])
    {
      ChainEnd(c, runs, i, p, r);
    }
    ChainEnd(c, runs, 0, p, r);
    ChainEnd(c, runs, 1, p, r);
    assert runs[1][0].masks == End(runs[1 - 1]);
  }

  /** Under the right type it is also masked at every moment of every run, if it was at the start. */
  lemma {:induction false} MaskedThroughoutRuns(c: Config, runs: seq<seq<State>>, i: nat, k: nat, p: Policy, r: nat)
    requires UniqueClaims(c) && Chain(c, runs) && i < |runs| && k < |runs[i]|
    requires p in c.references && r < |c.references[p]| && TypeAgrees(c, c.references[p][r])
    requires c.references[p][r].target in runs[0][0].masks
    ensures c.references[p][r].target in runs[i][k].masks
  {
    LaterClaims(c);
    assert Complete(if i == 0 then c else Later(c), runs[i]);
    if i > 0 {
      ChainEnd(c, runs, i - 1, p, r);
      assert runs[i][0].masks == End(runs[i - 1]);
    }
    ClaimedColumnStaysMasked(if i == 0 then c else Later(c), runs[i], k, p, r);
  }

  /** No task of the run comes to a SET, and none has a reference left to remove. */
  ghost predicate Silent(run: seq<State>) {
    forall k, p | 0 <= k < |run| && p in run[k].pc ::
      !run[k].pc[p].BeforeSet? && (run[k].pc[p].Unsetting? ==> run[k].pc[p].rest == {})
  }

  lemma {:induction false} SilentChangesNothing(c: Config, run: seq<State>, k: nat)
    requires Run(c, run) && Silent(run) && k < |run|
    ensures run[k].masks == run[0].masks
  {
    if k > 0 {
      SilentChangesNothing(c, run, k - 1);
      assert Moves(c, run[k - 1], run[k - 1 + 1]);
      var p :| Step(c, run[k - 1], p, run[k]);
    }
  }

  /** From the second run on all is silent if and only if every reference has the reported type. */
  lemma LaterRunsAreSilent(c: Config, runs: seq<seq<State>>)
    requires UniqueClaims(c) && Chain(c, runs) && |runs| >= 2
    ensures (forall i | 1 <= i < |runs| :: Silent(runs[i])) <==> TypesAgree(c)
  {
    if TypesAgree(c) {
      forall i | 1 <= i < |runs|
        ensures Silent(runs[i])
      {
        SilentAfter(c, runs, i);
      }
    } else {
      var p, r: nat :| p in c.references && r < |c.references[p]| && !TypeAgrees(c, c.references[p][r]);
      MaskChanges(c, runs, p, r);
    }
  }

  lemma SilentAfter(c: Config, runs: seq<seq<State>>, i: nat)
    requires UniqueClaims(c) && Chain(c, runs) && 1 <= i < |runs| && TypesAgree(c)
    ensures Silent(runs[i])
  {
    LaterClaims(c);
    assert Complete(if i == 1 then c else Later(c), runs[i - 1]);
    FinalMasksAreSettled(if i == 1 then c else Later(c), runs[i - 1]);
    assert Complete(Later(c), runs[i]) && runs[i][0].masks == End(runs[i - 1]);
    forall k, p | 0 <= k < |runs[i]| && p in runs[i][k].pc
      ensures !runs[i][k].pc[p].BeforeSet?
      ensures runs[i][k].pc[p].Unsetting? ==> runs[i][k].pc[p].rest == {}
    {
      SecondRunIsSilent(Later(c), runs[i], k, p);
    }
  }

  /** With a wrong type the second run changes what the column carries. */
  lemma MaskChanges(c: Config, runs: seq<seq<State>>, p: Policy, r: nat)
    requires UniqueClaims(c) && Chain(c, runs) && |runs| >= 2
    requires p in c.references && r < |c.references[p]| && !TypeAgrees(c, c.references[p][r])
    ensures !Silent(runs[1])
  {
    ChainEnd(c, runs, 0, p, r);
    ChainEnd(c, runs, 1, p, r);
    assert Complete(Later(c), runs[1]) && runs[1][0].masks == End(runs[1 - 1]);
    if Silent(runs[1]) {
      SilentChangesNothing(Later(c), runs[1], |runs[1]| - 1);
    }
  }

  // ---------------------------------------------------------------------------------------------
  // Runs end
  // ---------------------------------------------------------------------------------------------

  /** How far a task is from its end, compared lexicographically. */
  ghost function Phase(c: Config, p: Policy, pc: Pc): (r: (nat, nat))
    requires p in c.references
  {
    var n := |c.references[p]|;
    match pc
    case Begin => (3, 0)
    case AtReference(i, _) => (2, if i <= n then 2 * (n - i) else 0)
    case BeforeSet(i, _, _) => (2, if i < n then 2 * (n - i) - 1 else 0)
    case Unsetting(rest) => (1, |rest|)
    case Finished => (0, 0)
    case Refused => (0, 0)
  }

  ghost predicate Closer(a: (nat, nat), b: (nat, nat)) {
    b.0 < a.0 || (b.0 == a.0 && b.1 < a.1)
  }

  lemma UnsettingComesCloser(c: Config, s: State, p: Policy, t: State)
    requires Step(c, s, p, t) && s.pc[p].Unsetting?
    ensures Closer(Phase(c, p, s.pc[p]), Phase(c, p, t.pc[p]))
  {
    var rest := s.pc[p].rest;
    if rest != {} {
      var key :| key in rest && t.pc[p] == Unsetting(rest - {key});
      assert rest == (rest - {key}) + {key};
    }
  }

  /** Every step brings its task closer to the end. */
  lemma StepComesCloser(c: Config, s: State, p: Policy, t: State)
    requires Step(c, s, p, t) && (s.pc[p].AtReference? ==> s.pc[p].next <= |c.references[p]|)
    ensures Closer(Phase(c, p, s.pc[p]), Phase(c, p, t.pc[p]))
  {
    if s.pc[p].Unsetting? {
      UnsettingComesCloser(c, s, p, t);
    }
  }

  /** In every reachable state every unfinished task can step, so a run that cannot go on is complete. */
  lemma UnfinishedTaskCanStep(c: Config, run: seq<State>, k: nat, p: Policy)
    requires UniqueClaims(c) && Run(c, run) && k < |run| && p in run[k].pc
    ensures run[k].pc[p] != Finished ==> exists t :: Step(c, run[k], p, t)
  {
    RunInv(c, run, k);
    PlainSetIsAllowed(c, run, k, p);
    var s := run[k];
    assert PcInv(c, run[0].masks, p, s.pc[p]);
    match s.pc[p]
    case Begin => assert Step(c, s, p, Started(c, s, p));
    case AtReference(i, existing) => assert Step(c, s, p, Considered(c, s, p, i, existing));
    case BeforeSet(i, existing, force) => assert Step(c, s, p, AfterSet(c, s, p, i, existing, force));
    case Unsetting(rest) =>
      if rest == {} {
        assert Step(c, s, p, s.(pc := s.pc[p := Finished]));
      } else {
        var key :| key in rest;
        assert Step(c, s, p, AfterUnset(c, s, p, rest, key));
      }
    case Finished =>
    case Refused =>
  }

  /** The failing case does occur: a single policy, already on its column, whose declared type (say
      DYNAMIC_TABLE) is not the reported one (say TABLE).  Its task sets the policy that is there
      and then removes it. */
  lemma MistypedRun(p: Policy, col: Column, declared: string, reported: string) returns (c: Config, run: seq<State>)
    requires declared != reported
    ensures c.references == map[p := [Reference(declared, col)]] && c.domainOf(col.entity) == reported
    ensures UniqueClaims(c) && Run(c, run) && AllFinished(run[|run| - 1])
    ensures run[0].masks == map[col := p] && run[|run| - 1].masks == map[]
  {
    var key := RefKey(reported, col);
    c := Config(map[p := [Reference(declared, col)]], {}, _ => reported);
    var m := map[col := p];
    assert ExistingRefs(c, m, p) == {key};
    var s0 := State(m, map[p := Begin]);
    var s1 := State(m, map[p := AtReference(0, {key})]);
    var s2 := State(m, map[p := BeforeSet(0, {key}, false)]);
    var s3 := State(m, map[p := AtReference(1, {key})]);
    var s4 := State(m, map[p := Unsetting({key})]);
    var s5 := State(map[], map[p := Unsetting({})]);
    var s6 := State(map[], map[p := Finished]);
    run := [s0, s1, s2, s3, s4, s5, s6];
    assert Moves(c, s0, s1) by { assert Step(c, s0, p, s1); }
    assert Moves(c, s1, s2) by { assert Step(c, s1, p, s2); }
    assert Moves(c, s2, s3) by { assert m[col := p] == m; assert Step(c, s2, p, s3); }
    assert Moves(c, s3, s4) by { assert Step(c, s3, p, s4); }
    assert Moves(c, s4, s5) by {
      assert {key} - {key} == {} && m - {key.target} == map[];
      assert !ClaimedByOther(c, p, key.target);
      assert key in {key} && s5 == State(s4.masks - {key.target}, s4.pc[p := Unsetting({key} - {key})]);
      assert Step(c, s4, p, s5);
    }
    assert Moves(c, s5, s6) by { assert Step(c, s5, p, s6); }
  }

  // ---------------------------------------------------------------------------------------------
  // The task itself, as one sequential program
  // ---------------------------------------------------------------------------------------------

  datatype Statement = SetPolicy(target: Column, policy: Policy, force: bool) | UnsetPolicy(target: Column)

  /** The account: which policy each column carries, and the statements issued so far. */
  class Snowflake {
    var masks: Masks
    var statements: seq<Statement>

    /** `ALTER ... SET MASKING POLICY ... [FORCE]`, refused over another policy without FORCE. */
    method Set(col: Column, policy: Policy, force: bool)
      requires force || (col in masks ==> masks[col] == policy)
      modifies this
      ensures masks == old(masks)[col := policy]
      ensures statements == old(statements) + [SetPolicy(col, policy, force)]
    {
      masks := masks[col := policy];
      statements := statements + [SetPolicy(col, policy, force)];
    }

    method Unset(col: Column)
      modifies this
      ensures masks == old(masks) - {col}
      ensures statements == old(statements) + [UnsetPolicy(col)]
    {
      masks := masks - {col};
      statements := statements + [UnsetPolicy(col)];
    }
  }

  /** A stretch of a run in which only the task of `p` moves. */
  ghost predicate Solo(c: Config, p: Policy, run: seq<State>) {
    |run| > 0 && forall k | 0 <= k < |run| - 1 :: Step(c, run[k], p, run[k + 1])
  }

  lemma SoloSnoc(c: Config, p: Policy, run: seq<State>, t: State)
    requires Solo(c, p, run) && Step(c, run[|run| - 1], p, t)
    ensures Solo(c, p, run + [t])
  {
    var all := run + [t];
    forall k | 0 <= k < |all| - 1
      ensures Step(c, all[k], p, all[k + 1])
    {
      assert all[k] == run[k];
      if k < |run| - 1 {
        assert all[k + 1] == run[k + 1];
      }
    }
  }

  /** `_is_claimed_by_other_blueprint`. */
  method IsClaimedByOtherBlueprint(c: Config, p: Policy, col: Column) returns (claimed: bool)
    ensures claimed <==> ClaimedByOther(c, p, col)
  {
    var others := c.references.Keys;
    while others != {}
      invariant others <= c.references.Keys
      invariant forall q, i: nat | q in c.references && q !in others && q != p :: !Claims(c, q, i, col)
      decreases others
    {
      var q :| q in others;
      others := others - {q};
      if q == p {
        continue;
      }
      for i := 0 to |c.references[q]|
        invariant forall j: nat | j < i :: !Claims(c, q, j, col)
      {
        if c.references[q][i].target == col {
          assert Claims(c, q, i, col);
          return true;
        }
      }
    }
    return false;
  }

  /** The statements of one step of the task of `p`: a SET when the step sets a reference, an UNSET when it
      removes one, and nothing otherwise. */
  ghost predicate Issues(c: Config, p: Policy, s: State, t: State, ss: seq<Statement>) {
    && p in c.references && p in s.pc && p in t.pc
    && match s.pc[p]
       case BeforeSet(i, _, force) =>
         && i < |c.references[p]|
         && ss == if t.pc[p].Refused? then [] else [SetPolicy(c.references[p][i].target, p, force)]
       case Unsetting(rest) =>
         if t.pc[p].Unsetting? then
           exists key | key in rest ::
             && t.pc[p].rest == rest - {key}
             && ss == if ClaimedByOther(c, p, key.target) then [] else [UnsetPolicy(key.target)]
         else ss == []
       case Begin => ss == []
       case AtReference(_, _) => ss == []
       case Finished => ss == []
       case Refused => ss == []
  }

  /** These are the statements of all steps of the run, in order. */
  ghost predicate Emits(c: Config, p: Policy, run: seq<State>, ss: seq<Statement>) {
    if |run| <= 1 then ss == []
    else
      exists n: nat :: n <= |ss| && Emits(c, p, run[..|run| - 1], ss[..n])
                       && Issues(c, p, run[|run| - 2], run[|run| - 1], ss[n..])
  }

  lemma EmitsMore(c: Config, p: Policy, run: seq<State>, t: State, ss: seq<Statement>, more: seq<Statement>)
    requires run != [] && Emits(c, p, run, ss) && Issues(c, p, run[|run| - 1], t, more)
    ensures Emits(c, p, run + [t], ss + more)
  {
    var all := run + [t];
    assert all[..|all| - 1] == run && (ss + more)[..|ss|] == ss && (ss + more)[|ss|..] == more;
  }

  /** Since `start` the log has grown by the statements of the run. */
  ghost predicate Logged(c: Config, p: Policy, run: seq<State>, start: seq<Statement>, log: seq<Statement>) {
    start <= log && Emits(c, p, run, log[|start|..])
  }

  lemma LoggedMore(c: Config, p: Policy, run: seq<State>, t: State, start: seq<Statement>, log: seq<Statement>,
                   more: seq<Statement>)
    requires run != [] && Logged(c, p, run, start, log) && Issues(c, p, run[|run| - 1], t, more)
    ensures Logged(c, p, run + [t], start, log + more)
  {
    EmitsMore(c, p, run, t, log[|start|..], more);
    assert (log + more)[|start|..] == log[|start|..] + more;
  }

  /** A step that issues nothing. */
  lemma LoggedQuiet(c: Config, p: Policy, run: seq<State>, t: State, start: seq<Statement>, log: seq<Statement>)
    requires run != [] && Logged(c, p, run, start, log) && Issues(c, p, run[|run| - 1], t, [])
    ensures Logged(c, p, run + [t], start, log)
  {
    LoggedMore(c, p, run, t, start, log, []);
    assert log + [] == log;
  }

  /** `_apply_policy_refs`: every statement it issues, and every read it makes, is a step of its task,
      from the start of the task to its end, and its statements are those of the steps; it reports a change
      exactly when it issued one. */
  method ApplyPolicyRefs(c: Config, p: Policy, db: Snowflake, ghost start: State)
    returns (appliedChange: bool, ghost run: seq<State>)
    requires p in c.references && p in start.pc && start.pc[p] == Begin
    requires start.masks == db.masks
    modifies db
    ensures Solo(c, p, run) && run[0] == start
    ensures p in run[|run| - 1].pc && run[|run| - 1].pc[p] == Finished && run[|run| - 1].masks == db.masks
    ensures Logged(c, p, run, old(db.statements), db.statements)
    ensures appliedChange <==> db.statements != old(db.statements)
  {
    var existing :=
      if p in c.created then {}
      else set col | col in db.masks && db.masks[col] == p :: RefKey(c.domainOf(col.entity), col);
    ghost var log := db.statements;
    assert log[|log|..] == [] && Emits(c, p, [start], []);
    run := Advance(c, p, [start], AtReference(0, existing), log, db);
    var wasSet, unset;
    existing, wasSet, run := SetReferences(c, p, existing, db, log, run);
    run := Advance(c, p, run, Unsetting(existing), log, db);
    unset, run := RemoveReferences(c, p, existing, db, log, run);
    run := Advance(c, p, run, Finished, log, db);
    appliedChange := wasSet || unset;
  }

  /** Every reference of the blueprint, in order. */
  method SetReferences(c: Config, p: Policy, existing: set<RefKey>, db: Snowflake,
                       ghost log: seq<Statement>, ghost run: seq<State>)
    returns (left: set<RefKey>, applied: bool, ghost next: seq<State>)
    requires p in c.references
    requires Solo(c, p, run) && Stands(p, run, db.masks, AtReference(0, existing))
    requires Logged(c, p, run, log, db.statements)
    modifies db
    ensures Solo(c, p, next) && run <= next && Stands(p, next, db.masks, AtReference(|c.references[p]|, left))
    ensures Logged(c, p, next, log, db.statements)
    ensures old(db.statements) <= db.statements && (applied <==> old(db.statements) != db.statements)
  {
    left, applied, next := existing, false, run;
    for i := 0 to |c.references[p]|
      invariant Solo(c, p, next) && run <= next && Stands(p, next, db.masks, AtReference(i, left))
      invariant Logged(c, p, next, log, db.statements)
      invariant old(db.statements) <= db.statements && (applied <==> old(db.statements) != db.statements)
    {
      var one;
      left, one, next := ApplyReference(c, p, i, left, db, log, next);
      applied := applied || one;
    }
  }

  /** The existing references that are left over. */
  method RemoveReferences(c: Config, p: Policy, existing: set<RefKey>, db: Snowflake,
                          ghost log: seq<Statement>, ghost run: seq<State>)
    returns (applied: bool, ghost next: seq<State>)
    requires p in c.references
    requires Solo(c, p, run) && Stands(p, run, db.masks, Unsetting(existing))
    requires Logged(c, p, run, log, db.statements)
    modifies db
    ensures Solo(c, p, next) && run <= next && Stands(p, next, db.masks, Unsetting({}))
    ensures Logged(c, p, next, log, db.statements)
    ensures old(db.statements) <= db.statements && (applied <==> old(db.statements) != db.statements)
  {
    var rest := existing;
    applied, next := false, run;
    while rest != {}
      invariant Solo(c, p, next) && run <= next && Stands(p, next, db.masks, Unsetting(rest))
      invariant Logged(c, p, next, log, db.statements)
      invariant old(db.statements) <= db.statements && (applied <==> old(db.statements) != db.statements)
      decreases rest
    {
      var key :| key in rest;
      var one;
      one, next := RemoveReference(c, p, key, rest, db, log, next);
      rest := rest - {key};
      applied := applied || one;
    }
  }

  /** The run has come to these masks, and the task of `p` to this place. */
  ghost predicate Stands(p: Policy, run: seq<State>, masks: Masks, pc: Pc) {
    |run| > 0 && p in run[|run| - 1].pc && run[|run| - 1].pc[p] == pc && run[|run| - 1].masks == masks
  }

  /** A step that only moves the task on. */
  ghost method Advance(c: Config, p: Policy, run: seq<State>, pc: Pc, log: seq<Statement>, db: Snowflake)
    returns (next: seq<State>)
    requires Solo(c, p, run) && p in run[|run| - 1].pc && run[|run| - 1].masks == db.masks
    requires var s := run[|run| - 1]; Step(c, s, p, s.(pc := s.pc[p := pc]))
    requires var s := run[|run| - 1]; Issues(c, p, s, s.(pc := s.pc[p := pc]), [])
    requires Logged(c, p, run, log, db.statements)
    ensures Solo(c, p, next) && run <= next && Stands(p, next, db.masks, pc)
    ensures Logged(c, p, next, log, db.statements)
  {
    var t := run[|run| - 1].(pc := run[|run| - 1].pc[p := pc]);
    SoloSnoc(c, p, run, t);
    LoggedQuiet(c, p, run, t, log, db.statements);
    next := run + [t];
  }

  /** One reference of the blueprint. */
  method ApplyReference(c: Config, p: Policy, i: nat, existing: set<RefKey>, db: Snowflake,
                        ghost log: seq<Statement>, ghost run: seq<State>)
    returns (left: set<RefKey>, applied: bool, ghost next: seq<State>)
    requires p in c.references && i < |c.references[p]|
    requires Solo(c, p, run) && Stands(p, run, db.masks, AtReference(i, existing))
    requires Logged(c, p, run, log, db.statements)
    modifies db
    ensures Solo(c, p, next) && run <= next && Stands(p, next, db.masks, AtReference(i + 1, left))
    ensures Logged(c, p, next, log, db.statements)
    ensures old(db.statements) <= db.statements && (applied <==> old(db.statements) != db.statements)
  {
    var ref := c.references[p][i];
    var key := RefKey(ref.objectType, ref.target);
    if key in existing {
      left, applied := existing - {key}, false;
      next := Advance(c, p, run, AtReference(i + 1, left), log, db);
    } else {
      var force := ref.target in db.masks && db.masks[ref.target] != p;
      ghost var before := Advance(c, p, run, BeforeSet(i, existing, force), log, db);
      ghost var issued := db.statements;
      db.Set(ref.target, p, force);
      left, applied := existing, true;
      ghost var s := State(db.masks, before[|before| - 1].pc[p := AtReference(i + 1, existing)]);
      SoloSnoc(c, p, before, s);
      LoggedMore(c, p, before, s, log, issued, [SetPolicy(ref.target, p, force)]);
      next := before + [s];
    }
  }

  /** One existing reference that the blueprint does not have. */
  method RemoveReference(c: Config, p: Policy, key: RefKey, existing: set<RefKey>, db: Snowflake,
                         ghost log: seq<Statement>, ghost run: seq<State>)
    returns (applied: bool, ghost next: seq<State>)
    requires p in c.references && key in existing
    requires Solo(c, p, run) && Stands(p, run, db.masks, Unsetting(existing))
    requires Logged(c, p, run, log, db.statements)
    modifies db
    ensures Solo(c, p, next) && run <= next && Stands(p, next, db.masks, Unsetting(existing - {key}))
    ensures Logged(c, p, next, log, db.statements)
    ensures old(db.statements) <= db.statements && (applied <==> old(db.statements) != db.statements)
  {
    ghost var issued := db.statements;
    var claimed := IsClaimedByOtherBlueprint(c, p, key.target);
    applied := !claimed;
    if !claimed {
      db.Unset(key.target);
    }
    ghost var s := State(db.masks, run[|run| - 1].pc[p := Unsetting(existing - {key})]);
    SoloSnoc(c, p, run, s);
    LoggedMore(c, p, run, s, log, issued, if claimed then [] else [UnsetPolicy(key.target)]);
    assert issued + [] == issued;
    next := run + [s];
  }
}
