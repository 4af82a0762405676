/** DROP statements over a whole run: `plan` against `apply`.

    A run visits the object types in a fixed order.  For each type the resolver lists the existing
    objects, drops the undeclared ones, then creates or compares the declared ones.  `plan` leaves
    the account unchanged, and the intention cache has to stand in for what the earlier drops and
    replacements would have removed; `apply` executes every statement and Snowflake removes it. */
module DropRun {
  import opened Basics
  import opened IntentionCache
  import opened Strings

  /** What a run depends on.  `world` is what the listings of the resolvers show, which leave out the keys
      of hybrid tables.  `rebuilt` and `columnDrops` are the outcomes of the comparisons: the
      objects that are replaced, and the columns dropped from tables that are altered. */
  datatype Setting = Setting(
    world: set<Obj>,
    keys: map<Obj, KeyInfo>,
    declared: set<Obj>,
    sandbox: set<Obj>,
    rebuilt: set<Obj>,
    columnDrops: set<(Obj, string)>)
  {
    function Key(o: Obj): KeyInfo {
      if o in keys then keys[o] else KeyInfo([], [], [])
    }

    function DatabaseOf(o: Obj): Obj {
      Obj(Database, Take(o.path, 1), Option.None)
    }

    function SchemaOf(o: Obj): Obj {
      Obj(Schema, Take(o.path, 2), Option.None)
    }

    ghost predicate Valid() {
      && (forall o | o in world || o in declared :: o.Valid())
      && (forall o | o in world && o.kind.IsConstraint() :: o in keys && ValidKey(o, keys[o]))
      // Whatever is declared has declared containers: blueprints come from schema directories.
      && (forall o | o in declared && (o.kind.Schema? || o.kind.InSchema()) :: DatabaseOf(o) in declared)
      && (forall o | o in declared && o.kind.InSchema() :: SchemaOf(o) in declared)
      // Databases and schemas are never replaced; only declared objects are compared.
      && (forall o | o in rebuilt :: o in declared && !o.kind.Database? && !o.kind.Schema?)
      && (forall c | c in columnDrops :: c.0 in declared && c.0.kind.Table? && c.0 !in rebuilt)
    }

    /** The conditions of `_resolve_drop` beyond the intention cache: nothing is dropped from a sandbox
        or from an undeclared container, which is dropped as a whole. */
    predicate MayDrop(o: Obj) {
      && o !in declared
      && (o.kind.Schema? ==> DatabaseOf(o) in declared && DatabaseOf(o) !in sandbox)
      && (o.kind.InSchema() && !o.kind.StageFile? ==> SchemaOf(o) in declared && SchemaOf(o) !in sandbox)
    }
  }

  /** The names in the cache after these objects were dropped or replaced and these columns dropped. */
  function NamesOf(objects: set<Obj>, columns: set<ColumnName>): Intentions {
    Intentions(set k | k in objects :: (k.kind, k.FullName()), set c | c in columns :: (Join(c.0, '.'), c.1))
  }

  /** `gone`: objects dropped or replaced so far.  `columns`: columns dropped so far. */
  datatype State = State(world: set<Obj>, gone: set<Obj>, columns: set<ColumnName>) {
    function Cache(): Intentions {
      NamesOf(gone, columns)
    }
  }

  /** The drop tasks of one resolver. */
  function Drops(c: Setting, s: State, kind: Kind): set<Obj> {
    set o | o in s.world && o.kind == kind && c.MayDrop(o) && !ImplicitDropIntended(s.Cache(), o, c.Key(o))
  }

  function Replaced(c: Setting, s: State, kind: Kind): set<Obj> {
    set o | o in s.world && o.kind == kind && o in c.rebuilt
  }

  function DroppedColumns(c: Setting, s: State, kind: Kind): set<ColumnName> {
    set d | d in c.columnDrops && d.0 in s.world && d.0.kind == kind :: (d.0.path, d.1)
  }

  ghost predicate Removed(objects: set<Obj>, columns: set<ColumnName>, o: Obj, key: KeyInfo) {
    || (exists k :: k in objects && Cascades(k, o, key))
    || (exists d :: d in columns && ColumnCascades(d.0, d.1, o, key))
  }

  /** What Snowflake makes of the statements of one resolver: the drops and their cascades, the cascades
      of replacements and dropped columns, and then every declared object exists. */
  ghost function Executed(c: Setting, s: State, kind: Kind): set<Obj> {
    var drops, columns := Drops(c, s, kind), DroppedColumns(c, s, kind);
    (set o | o in s.world && o !in drops && !Removed(drops + Replaced(c, s, kind), columns, o, c.Key(o)))
    + (set o | o in c.declared && o.kind == kind)
  }

  /** One resolver.  `plan` leaves the account as it is. */
  ghost function Next(c: Setting, apply: bool, s: State, kind: Kind): State {
    State(if apply then Executed(c, s, kind) else s.world,
          s.gone + Drops(c, s, kind) + Replaced(c, s, kind),
          s.columns + DroppedColumns(c, s, kind))
  }

  /** The state after the resolvers of `order`. */
  ghost function After(c: Setting, apply: bool, order: seq<Kind>): State {
    if order == [] then State(c.world, {}, {})
    else
      Next(c, apply, After(c, apply, order[..|order| - 1]), order[|order| - 1])
  }

  /** The DROP statements of the `i`-th resolver. */
  ghost function DropsAt(c: Setting, apply: bool, order: seq<Kind>, i: nat): set<Obj>
    requires i < |order|
  {
    Drops(c, After(c, apply, order[..i]), order[i])
  }

  ghost predicate Distinct(order: seq<Kind>) {
    forall i, j | 0 <= i < j < |order| :: order[i] != order[j]
  }

  // ---------------------------------------------------------------------------------------------
  // Plan and apply side by side
  // ---------------------------------------------------------------------------------------------

  /** Types whose objects take others with them. */
  predicate Container(kind: Kind) {
    kind.Database? || kind.Schema? || kind.Stage? || kind.IsTable()
  }

  ghost predicate GoneInv(c: Setting, s: State) {
    && (forall k | k in s.gone :: k in c.world && (k !in c.declared || k in c.rebuilt))
    && (forall d | d in s.columns :: ValidColumn(d))
  }

  /** What the plan state `p` and the apply state `a` have in common before the types in `done` are left. */
  ghost predicate Agree(c: Setting, p: State, a: State, done: seq<Kind>) {
    && p.world == c.world
    && p.columns == a.columns
    && (forall k: Obj | Container(k.kind) :: k in p.gone <==> k in a.gone)
    && GoneInv(c, p) && GoneInv(c, a)
    && (forall o | o in a.world && o.kind !in done :: o in c.world)
    // An undeclared object is still there unless something gone took it along.
    && (forall o | o in c.world && o !in c.declared && o.kind !in done ::
          o in a.world <==> !Removed(a.gone, a.columns, o, c.Key(o)))
    && (forall o | o in c.world && o in c.declared && Container(o.kind) :: o in a.world)
  }

  lemma CascadesAreSeenOrBlind(k: Obj, o: Obj, key: KeyInfo)
    ensures Cascades(k, o, key) <==> Seen(k, o, key) || Blind(k, o, key)
    ensures Cascades(k, o, key) ==> Container(k.kind)
    ensures Blind(k, o, key) ==> o.kind.IsConstraint()
  {
  }

  ghost predicate SomeBlind(objects: set<Obj>, o: Obj, key: KeyInfo) {
    exists k :: k in objects && Blind(k, o, key)
  }

  /** What the cache suppresses is what went away, except for the cascades it does not know about. */
  lemma SuppressedMeansRemoved(c: Setting, s: State, o: Obj)
    requires c.Valid() && GoneInv(c, s) && o in c.world
    ensures Removed(s.gone, s.columns, o, c.Key(o)) <==>
            ImplicitDropIntended(s.Cache(), o, c.Key(o)) || SomeBlind(s.gone, o, c.Key(o))
  {
    var key := c.Key(o);
    assert ValidKey(o, key);
    ImplicitMeansSeen(s.Cache(), s.gone, s.columns, o, key);
    forall k | k in s.gone
      ensures Cascades(k, o, key) <==> Seen(k, o, key) || Blind(k, o, key)
    {
      CascadesAreSeenOrBlind(k, o, key);
    }
  }

  /** Only containers count, so plan and apply suppress the same objects. */
  lemma SameSuppression(c: Setting, p: State, a: State, done: seq<Kind>, o: Obj)
    requires c.Valid() && Agree(c, p, a, done) && o in c.world
    ensures ImplicitDropIntended(p.Cache(), o, c.Key(o)) <==> ImplicitDropIntended(a.Cache(), o, c.Key(o))
    ensures SomeBlind(p.gone, o, c.Key(o)) <==> SomeBlind(a.gone, o, c.Key(o))
  {
    var key := c.Key(o);
    ImplicitMeansSeen(p.Cache(), p.gone, p.columns, o, key);
    ImplicitMeansSeen(a.Cache(), a.gone, a.columns, o, key);
    forall k
      ensures (Seen(k, o, key) || Blind(k, o, key)) ==> (k in p.gone <==> k in a.gone)
    {
      CascadesAreSeenOrBlind(k, o, key);
    }
  }

  /** The drops of one resolver: apply issues the drops of plan, except those of objects that went away
      through a cascade the cache does not know about. */
  lemma DropsCompare(c: Setting, p: State, a: State, done: seq<Kind>, kind: Kind, o: Obj)
    requires c.Valid() && Agree(c, p, a, done) && kind !in done
    ensures o in Drops(c, a, kind) <==> o in Drops(c, p, kind) && !SomeBlind(p.gone, o, c.Key(o))
  {
    if o in c.world && o.kind == kind && c.MayDrop(o) {
      SameSuppression(c, p, a, done, o);
      SuppressedMeansRemoved(c, a, o);
    }
  }

  /** The drops of a container type are the same in both. */
  lemma ContainerDropsAgree(c: Setting, p: State, a: State, done: seq<Kind>, kind: Kind)
    requires c.Valid() && Agree(c, p, a, done) && kind !in done && Container(kind)
    ensures Drops(c, p, kind) == Drops(c, a, kind) && Replaced(c, p, kind) == Replaced(c, a, kind)
  {
    forall o
      ensures o in Drops(c, p, kind) <==> o in Drops(c, a, kind)
    {
      DropsCompare(c, p, a, done, kind, o);
    }
  }

  lemma ColumnsAgree(c: Setting, p: State, a: State, done: seq<Kind>, kind: Kind)
    requires c.Valid() && Agree(c, p, a, done) && kind !in done
    ensures DroppedColumns(c, p, kind) == DroppedColumns(c, a, kind)
    ensures forall d | d in DroppedColumns(c, p, kind) :: ValidColumn(d)
  {
    if kind.Table? {
      forall d | d in c.columnDrops && d.0.kind == kind
        ensures d.0 in p.world <==> d.0 in a.world
      {
      }
    }
  }

  lemma OuterContainer(c: Setting, k: Obj, o: Obj)
    requires k.Valid() && Container(o.kind) && Inside(k, o)
    ensures (k == c.DatabaseOf(o) && k.kind.Database?) || (k == c.SchemaOf(o) && k.kind.Schema? && o.kind.InSchema())
    ensures o.kind.Schema? || o.kind.InSchema()
  {
    assert k == Obj(k.kind, k.path, Option.None);
  }

  /** A declared container is never taken along: its own containers are declared, and are not replaced. */
  lemma NotTakenAlong(c: Setting, k: Obj, o: Obj)
    requires c.Valid() && o in c.world && o in c.declared && Container(o.kind)
    requires k in c.world && (k in c.declared ==> k in c.rebuilt)
    ensures !Cascades(k, o, c.Key(o))
  {
    if Inside(k, o) {
      OuterContainer(c, k, o);
    }
  }

  lemma DeclaredContainerStays(c: Setting, s: State, kind: Kind, o: Obj)
    requires c.Valid() && o in c.world && o in c.declared && Container(o.kind)
    requires forall k | k in s.world && k.kind == kind :: k in c.world
    ensures !Removed(Drops(c, s, kind) + Replaced(c, s, kind), DroppedColumns(c, s, kind), o, c.Key(o))
  {
    forall k | k in Drops(c, s, kind) + Replaced(c, s, kind)
      ensures !Cascades(k, o, c.Key(o))
    {
      NotTakenAlong(c, k, o);
    }
  }

  lemma LastLeft(order: seq<Kind>)
    requires Distinct(order) && order != []
    ensures var done, kind := order[..|order| - 1], order[|order| - 1];
      order == done + [kind] && kind !in done && Distinct(done)
  {
  }

  lemma {:induction false} RunAgrees(c: Setting, order: seq<Kind>)
    requires c.Valid() && Distinct(order)
    ensures Agree(c, After(c, false, order), After(c, true, order), order)
    decreases |order|
  {
    if order == [] {
      StartAgrees(c);
    } else {
      var done, kind := order[..|order| - 1], order[|order| - 1];
      LastLeft(order);
      RunAgrees(c, done);
      StepAgrees(c, After(c, false, done), After(c, true, done), done, kind);
    }
  }

  lemma StartAgrees(c: Setting)
    requires c.Valid()
    ensures Agree(c, State(c.world, {}, {}), State(c.world, {}, {}), [])
  {
  }

  lemma StepAgreesGone(c: Setting, p: State, a: State, done: seq<Kind>, kind: Kind)
    requires c.Valid() && Agree(c, p, a, done) && kind !in done
    ensures var p', a' := Next(c, false, p, kind), Next(c, true, a, kind);
      && p'.columns == a'.columns
      && (forall k: Obj | Container(k.kind) :: k in p'.gone <==> k in a'.gone)
      && GoneInv(c, p') && GoneInv(c, a')
  {
    ColumnsAgree(c, p, a, done, kind);
    GoneStays(c, false, p, kind);
    GoneStays(c, true, a, kind);
    if Container(kind) {
      ContainerDropsAgree(c, p, a, done, kind);
    }
  }

  lemma GoneStays(c: Setting, apply: bool, s: State, kind: Kind)
    requires GoneInv(c, s) && forall d | d in DroppedColumns(c, s, kind) :: ValidColumn(d)
    requires forall o | o in s.world && o.kind == kind :: o in c.world
    ensures GoneInv(c, Next(c, apply, s, kind))
  {
  }

  lemma StepAgreesUndeclared(c: Setting, p: State, a: State, done: seq<Kind>, kind: Kind, o: Obj)
    requires c.Valid() && Agree(c, p, a, done) && kind !in done
    requires o in c.world && o !in c.declared && o.kind !in done + [kind]
    ensures var a' := Next(c, true, a, kind); o in a'.world <==> !Removed(a'.gone, a'.columns, o, c.Key(o))
  {
    var a' := Next(c, true, a, kind);
    RemovedUnion(a.gone, Drops(c, a, kind) + Replaced(c, a, kind), a.columns, DroppedColumns(c, a, kind), o, c.Key(o));
    assert a.gone + (Drops(c, a, kind) + Replaced(c, a, kind)) == a'.gone;
  }

  lemma StepAgrees(c: Setting, p: State, a: State, done: seq<Kind>, kind: Kind)
    requires c.Valid() && Agree(c, p, a, done) && kind !in done
    ensures Agree(c, Next(c, false, p, kind), Next(c, true, a, kind), done + [kind])
  {
    var p', a' := Next(c, false, p, kind), Next(c, true, a, kind);
    StepAgreesGone(c, p, a, done, kind);
    forall o | o in c.world && o !in c.declared && o.kind !in done + [kind]
      ensures o in a'.world <==> !Removed(a'.gone, a'.columns, o, c.Key(o))
    {
      StepAgreesUndeclared(c, p, a, done, kind, o);
    }
    forall o | o in c.world && o in c.declared && Container(o.kind)
      ensures o in a'.world
    {
      DeclaredContainerStays(c, a, kind, o);
    }
  }

  lemma RemovedUnion(g: set<Obj>, h: set<Obj>, u: set<ColumnName>, v: set<ColumnName>, o: Obj, key: KeyInfo)
    ensures Removed(g + h, u + v, o, key) <==> Removed(g, u, o, key) || Removed(h, v, o, key)
  {
    if Removed(g, u, o, key) || Removed(h, v, o, key) {
      if k :| (k in g || k in h) && Cascades(k, o, key) {
        assert k in g + h;
      } else {
        var d :| (d in u || d in v) && ColumnCascades(d.0, d.1, o, key);
        assert d in u + v;
      }
    }
  }

  // ---------------------------------------------------------------------------------------------
  // What a run guarantees
  // ---------------------------------------------------------------------------------------------

  /** For every resolver of the run, apply drops exactly what plan drops, less the keys that went away
      with a table the cache does not watch. */
  lemma ApplyDropsExactly(c: Setting, order: seq<Kind>, i: nat, o: Obj)
    requires c.Valid() && Distinct(order) && i < |order|
    ensures o in DropsAt(c, true, order, i) <==>
            o in DropsAt(c, false, order, i) && !SomeBlind(After(c, false, order[..i]).gone, o, c.Key(o))
  {
    RunAgrees(c, order[..i]);
    assert order[i] !in order[..i];
    DropsCompare(c, After(c, false, order[..i]), After(c, true, order[..i]), order[..i], order[i], o);
  }

  /** An undeclared object that its resolver may drop: a schema of a declared database, an object of a declared
      schema, neither of them a sandbox, or a file of a stage, or an object without such a container. */
  predicate IsDroppable(c: Setting, o: Obj) {
    o !in c.declared
    && match o.kind
       case Schema => Outside(c, Obj(Database, Take(o.path, 1), Option.None))
       case Database => true
       case DatabaseRole => true
       case AccountObject(_) => true
       case StageFile => true
       case _ => Outside(c, Obj(Schema, Take(o.path, 2), Option.None))
  }

  /** A declared container that is not a sandbox. */
  predicate Outside(c: Setting, container: Obj) {
    container in c.declared && container !in c.sandbox
  }

  /** Nothing in a sandbox or in an undeclared container is dropped, and nothing that is declared. */
  lemma MayDropExactly(c: Setting, o: Obj)
    ensures c.MayDrop(o) <==> IsDroppable(c, o)
  {
  }

  /** The resolvers of these types drop or replace `k`. */
  predicate GoesAway(c: Setting, done: seq<Kind>, k: Obj) {
    k in c.world && k.kind in done && (IsDroppable(c, k) || k in c.rebuilt)
  }

  /** The resolvers of these types drop this column. */
  predicate ColumnGoes(c: Setting, done: seq<Kind>, d: (Obj, string)) {
    d in c.columnDrops && d.0 in c.world && d.0.kind in done
  }

  function ColumnsGoing(c: Setting, done: seq<Kind>): set<ColumnName> {
    set d | d in c.columnDrops && ColumnGoes(c, done, d) :: (d.0.path, d.1)
  }

  /** A cascade that the cache watches takes `o` along. */
  ghost predicate SeenToGo(c: Setting, done: seq<Kind>, o: Obj) {
    || (exists k :: GoesAway(c, done, k) && Seen(k, o, c.Key(o)))
    || (exists d :: ColumnGoes(c, done, d) && ColumnCascades(d.0.path, d.1, o, c.Key(o)))
  }

  /** A cascade that the cache does not watch takes `o` along. */
  ghost predicate BlindToGo(c: Setting, done: seq<Kind>, o: Obj) {
    exists k :: GoesAway(c, done, k) && Blind(k, o, c.Key(o))
  }

  /** Nothing dropped or replaced contains a container that is up for its own drop: the schema and the
      database of such a container are declared. */
  lemma ContainerIsDropped(c: Setting, s: State, o: Obj)
    requires c.Valid() && GoneInv(c, s) && o in c.world && Container(o.kind) && IsDroppable(c, o)
    ensures !ImplicitDropIntended(s.Cache(), o, c.Key(o))
  {
    ImplicitMeansSeen(s.Cache(), s.gone, s.columns, o, c.Key(o));
    forall k | k in s.gone
      ensures !Seen(k, o, c.Key(o))
    {
      if Inside(k, o) {
        OuterContainer(c, k, o);
        OuterDeclared(c, o);
      }
    }
  }

  lemma OuterDeclared(c: Setting, o: Obj)
    requires c.Valid() && o.Valid() && Container(o.kind) && IsDroppable(c, o)
    ensures o.kind.Schema? || o.kind.InSchema() ==> c.DatabaseOf(o) in c.declared
    ensures o.kind.InSchema() ==> c.SchemaOf(o) in c.declared
  {
    if o.kind.InSchema() {
      assert c.DatabaseOf(c.SchemaOf(o)) == c.DatabaseOf(o);
    }
  }

  lemma ContainerStep(c: Setting, s: State, done: seq<Kind>, kind: Kind, k: Obj)
    requires c.Valid() && GoneInv(c, s) && s.world == c.world && Container(k.kind)
    requires k in s.gone <==> GoesAway(c, done, k)
    ensures k in Next(c, false, s, kind).gone <==> GoesAway(c, done + [kind], k)
  {
    assert k.kind in done + [kind] <==> k.kind in done || k.kind == kind;
    if k in c.world && k.kind == kind && IsDroppable(c, k) {
      ContainerIsDropped(c, s, k);
    }
  }

  /** The containers a plan has on record are those that go away. */
  lemma {:induction false} ContainersGone(c: Setting, order: seq<Kind>, k: Obj)
    requires c.Valid() && Distinct(order) && Container(k.kind)
    ensures k in After(c, false, order).gone <==> GoesAway(c, order, k)
    decreases |order|
  {
    if order == [] {
    } else {
      var done, kind := order[..|order| - 1], order[|order| - 1];
      LastLeft(order);
      ContainersGone(c, done, k);
      PlanIsSound(c, done);
      ContainerStep(c, After(c, false, done), done, kind, k);
    }
  }

  lemma PlanIsSound(c: Setting, order: seq<Kind>)
    requires c.Valid() && Distinct(order)
    ensures After(c, false, order).world == c.world && GoneInv(c, After(c, false, order))
  {
    RunAgrees(c, order);
  }

  /** The columns a plan has on record are those that go away. */
  lemma {:induction false} ColumnsGone(c: Setting, order: seq<Kind>)
    ensures After(c, false, order).columns == ColumnsGoing(c, order)
    decreases |order|
  {
    if order == [] {
    } else {
      var done, kind := order[..|order| - 1], order[|order| - 1];
      ColumnsGone(c, done);
      PlanWorld(c, done);
      assert order == done + [kind];
      OneMoreGoing(c, After(c, false, done), done, kind);
    }
  }

  lemma OneMoreGoing(c: Setting, s: State, done: seq<Kind>, kind: Kind)
    requires s.world == c.world
    ensures ColumnsGoing(c, done + [kind]) == ColumnsGoing(c, done) + DroppedColumns(c, s, kind)
  {
  }

  lemma {:induction false} PlanWorld(c: Setting, order: seq<Kind>)
    ensures After(c, false, order).world == c.world
    decreases |order|
  {
    if order != [] {
      PlanWorld(c, order[..|order| - 1]);
    }
  }

  /** Suppression and blind spots in a plan, told from the account and the configuration. */
  lemma PlanKnows(c: Setting, done: seq<Kind>, o: Obj)
    requires c.Valid() && Distinct(done) && o in c.world
    ensures ImplicitDropIntended(After(c, false, done).Cache(), o, c.Key(o)) <==> SeenToGo(c, done, o)
    ensures SomeBlind(After(c, false, done).gone, o, c.Key(o)) <==> BlindToGo(c, done, o)
  {
    var p, key := After(c, false, done), c.Key(o);
    RunAgrees(c, done);
    ImplicitMeansSeen(p.Cache(), p.gone, p.columns, o, key);
    ColumnsGone(c, done);
    SameColumns(c, done, o, key);
    forall k: Obj | Container(k.kind)
      ensures k in p.gone <==> GoesAway(c, done, k)
    {
      ContainersGone(c, done, k);
    }
    SameObjects(c, p.gone, done, o, key);
  }

  lemma SameObjects(c: Setting, gone: set<Obj>, done: seq<Kind>, o: Obj, key: KeyInfo)
    requires forall k: Obj | Container(k.kind) :: k in gone <==> GoesAway(c, done, k)
    ensures (exists k :: k in gone && Seen(k, o, key)) <==> (exists k :: GoesAway(c, done, k) && Seen(k, o, key))
    ensures SomeBlind(gone, o, key) <==> (exists k :: GoesAway(c, done, k) && Blind(k, o, key))
  {
    forall k | Seen(k, o, key) || Blind(k, o, key)
      ensures Container(k.kind)
    {
      CascadesAreSeenOrBlind(k, o, key);
    }
  }

  lemma SameColumns(c: Setting, done: seq<Kind>, o: Obj, key: KeyInfo)
    ensures (exists d :: d in ColumnsGoing(c, done) && ColumnCascades(d.0, d.1, o, key)) <==>
            (exists d :: ColumnGoes(c, done, d) && ColumnCascades(d.0.path, d.1, o, key))
  {
    if d :| ColumnGoes(c, done, d) && ColumnCascades(d.0.path, d.1, o, key) {
      assert (d.0.path, d.1) in ColumnsGoing(c, done);
    }
  }

  lemma PlanDropsExactly(c: Setting, s: State, kind: Kind, o: Obj)
    requires s.world == c.world
    ensures o in Drops(c, s, kind) <==> o in c.world && o.kind == kind && IsDroppable(c, o)
                                        && !ImplicitDropIntended(s.Cache(), o, c.Key(o))
  {
    MayDropExactly(c, o);
  }

  /** What plan and apply drop, told from the account and the configuration alone: an undeclared object
      of its type, outside sandboxes and undeclared containers, that nothing takes along; for a plan,
      nothing that the cache watches. */
  lemma DropsAreForeseen(c: Setting, order: seq<Kind>, i: nat, o: Obj)
    requires c.Valid() && Distinct(order) && i < |order|
    ensures o in DropsAt(c, false, order, i) <==>
            o in c.world && o.kind == order[i] && IsDroppable(c, o) && !SeenToGo(c, order[..i], o)
    ensures o in DropsAt(c, true, order, i) <==>
            o in DropsAt(c, false, order, i) && !BlindToGo(c, order[..i], o)
  {
    var done := order[..i];
    PlanWorld(c, done);
    PlanDropsExactly(c, After(c, false, done), order[i], o);
    ApplyDropsExactly(c, order, i, o);
    if o in c.world {
      PlanKnows(c, done, o);
    }
  }

  /** An undeclared key goes away with its table or with the table it refers to, only the cache does not
      watch tables of that type, and nothing that it does watch takes the key along. */
  ghost predicate LosesKey(c: Setting, order: seq<Kind>, i: nat, o: Obj)
    requires i < |order|
  {
    && o in c.world && o.kind == order[i] && IsDroppable(c, o)
    && BlindToGo(c, order[..i], o) && !SeenToGo(c, order[..i], o)
  }

  /** Plan and apply emit the same drops exactly when no key is lost in this sense. */
  lemma PlanIsExact(c: Setting, order: seq<Kind>)
    requires c.Valid() && Distinct(order)
    ensures (forall i | 0 <= i < |order| :: DropsAt(c, true, order, i) == DropsAt(c, false, order, i))
            <==> (forall i, o | 0 <= i < |order| :: !LosesKey(c, order, i, o))
  {
    forall i, o | 0 <= i < |order|
      ensures o in DropsAt(c, true, order, i) <==> o in DropsAt(c, false, order, i) && !LosesKey(c, order, i, o)
      ensures LosesKey(c, order, i, o) ==> o in DropsAt(c, false, order, i)
    {
      DropsAreForeseen(c, order, i, o);
    }
    forall i | 0 <= i < |order|
      ensures DropsAt(c, true, order, i) == DropsAt(c, false, order, i) <==> forall o :: !LosesKey(c, order, i, o)
    {
    }
  }

  /** What a resolver drops or replaces is foreseen to go away. */
  lemma WentAway(c: Setting, apply: bool, order: seq<Kind>, j: nat, i: nat, k: Obj)
    requires c.Valid() && Distinct(order) && j < i <= |order|
    requires k in DropsAt(c, apply, order, j) || k in Replaced(c, After(c, apply, order[..j]), order[j])
    ensures GoesAway(c, order[..i], k)
  {
    assert order[..i][j] == order[j];
    if k in DropsAt(c, apply, order, j) {
      DropsAreForeseen(c, order, j, k);
    } else {
      RunAgrees(c, order[..j]);
    }
  }

  /** No DROP of an apply names an object that an earlier drop or replacement of the same run took along,
      and no DROP of a plan does unless it is a lost key. */
  lemma NoDropAfterContainer(c: Setting, apply: bool, order: seq<Kind>, j: nat, i: nat, k: Obj, o: Obj)
    requires c.Valid() && Distinct(order) && j < i < |order|
    requires k in DropsAt(c, apply, order, j) || k in Replaced(c, After(c, apply, order[..j]), order[j])
    ensures o in DropsAt(c, apply, order, i) && Cascades(k, o, c.Key(o)) ==> !apply && LosesKey(c, order, i, o)
  {
    WentAway(c, apply, order, j, i, k);
    DropsAreForeseen(c, order, i, o);
    CascadesAreSeenOrBlind(k, o, c.Key(o));
  }

  /** Without resolvers of iceberg, dynamic, event and hybrid tables plan and apply emit the same drops. */
  lemma ExactWithoutOtherTables(c: Setting, order: seq<Kind>)
    requires c.Valid() && Distinct(order) && forall kind | kind in order :: !kind.OtherTable? && !kind.HybridTable?
    ensures forall i | 0 <= i < |order| :: DropsAt(c, true, order, i) == DropsAt(c, false, order, i)
  {
    forall i, o | 0 <= i < |order|
      ensures !LosesKey(c, order, i, o)
    {
      forall k | GoesAway(c, order[..i], k)
        ensures !Blind(k, o, c.Key(o))
      {
        assert k.kind in order;
      }
    }
    PlanIsExact(c, order);
  }

  // ---------------------------------------------------------------------------------------------
  // Which resolvers run
  // ---------------------------------------------------------------------------------------------

  /** What may keep a resolver from running: the edition of the account, the filters of the command line, and
      a resolver's wish to be left out when nothing of its type is declared. */
  datatype Scope = Scope(unavailable: set<Kind>, excluded: set<Kind>, included: set<Kind>, skippedOnEmpty: set<Kind>)

  /** `_is_skipped`. */
  predicate IsSkipped(c: Setting, scope: Scope, kind: Kind) {
    if kind in scope.unavailable || kind in scope.excluded then true
    else if scope.included != {} then kind !in scope.included
    else kind in scope.skippedOnEmpty && forall o | o in c.declared :: o.kind != kind
  }

  /** Without filters a resolver runs when its edition is there, and something is declared or it does not mind;
      a filter of included types replaces the last condition, and excluded types never run. */
  lemma RunsExactly(c: Setting, scope: Scope, kind: Kind)
    ensures !IsSkipped(c, scope, kind) <==>
      && kind !in scope.unavailable && kind !in scope.excluded
      && (kind in scope.included
          || (scope.included == {} && (kind !in scope.skippedOnEmpty || exists o :: o in c.declared && o.kind == kind)))
  {
  }

  /** The resolvers of the sequence that run. */
  function Active(c: Setting, scope: Scope, sequence: seq<Kind>): seq<Kind> {
    if sequence == [] then []
    else
      var last := sequence[|sequence| - 1];
      Active(c, scope, sequence[..|sequence| - 1]) + if IsSkipped(c, scope, last) then [] else [last]
  }

  lemma {:induction false} InActive(c: Setting, scope: Scope, sequence: seq<Kind>, kind: Kind)
    ensures kind in Active(c, scope, sequence) <==> kind in sequence && !IsSkipped(c, scope, kind)
  {
    if sequence != [] {
      InActive(c, scope, sequence[..|sequence| - 1], kind);
      assert sequence == sequence[..|sequence| - 1] + [sequence[|sequence| - 1]];
    }
  }

  /** So what holds of every order of distinct types holds of the resolvers that run. */
  lemma {:induction false} ActiveIsDistinct(c: Setting, scope: Scope, sequence: seq<Kind>)
    requires Distinct(sequence)
    ensures Distinct(Active(c, scope, sequence))
  {
    if sequence != [] {
      LastLeft(sequence);
      ActiveIsDistinct(c, scope, sequence[..|sequence| - 1]);
      InActive(c, scope, sequence[..|sequence| - 1], sequence[|sequence| - 1]);
    }
  }

  lemma ActiveStep(c: Setting, scope: Scope, sequence: seq<Kind>, i: nat)
    requires i < |sequence|
    ensures Active(c, scope, sequence[..i + 1]) ==
      Active(c, scope, sequence[..i]) + if IsSkipped(c, scope, sequence[i]) then [] else [sequence[i]]
  {
    assert sequence[..i + 1][..i] == sequence[..i];
  }

  /** Tables of unwatched types take nothing along that the cache would see. */
  lemma NothingSeen(c: Setting, done: seq<Kind>, o: Obj)
    requires c.Valid() && forall j | 0 <= j < |done| :: BeforeTables(done[j])
    requires forall k | k in c.world && (k.kind.Database? || k.kind.Schema?) :: k in c.declared
    ensures !SeenToGo(c, done, o)
  {
    forall k | GoesAway(c, done, k)
      ensures !Seen(k, o, c.Key(o))
    {
      assert k.kind.OtherTable?;
    }
    forall d
      ensures !ColumnGoes(c, done, d)
    {
    }
  }

  predicate BeforeTables(kind: Kind) {
    kind.Database? || kind.Schema? || kind.OtherTable?
  }

  lemma LostTable(c: Setting, order: seq<Kind>, i: nat, table: Obj)
    requires c.Valid() && Distinct(order) && i < |order| && order[i] == table.kind
    requires forall j | 0 <= j < i :: BeforeTables(order[j])
    requires forall k | k in c.world && (k.kind.Database? || k.kind.Schema?) :: k in c.declared
    requires table in c.world && table.kind.OtherTable? && IsDroppable(c, table)
    ensures table in DropsAt(c, true, order, i)
  {
    NothingSeen(c, order[..i], table);
    NoBlindTable(c, order[..i], table);
    DropsAreForeseen(c, order, i, table);
  }

  lemma LostKey(c: Setting, order: seq<Kind>, t: nat, i: nat, table: Obj, key: Obj)
    requires c.Valid() && Distinct(order) && t < i < |order| && order[i] == key.kind && order[t] == table.kind
    requires forall j | 0 <= j < i :: BeforeTables(order[j])
    requires forall k | k in c.world && (k.kind.Database? || k.kind.Schema?) :: k in c.declared
    requires table in c.world && table.kind.OtherTable? && IsDroppable(c, table)
    requires key in c.world && key.kind.IsConstraint() && IsDroppable(c, key) && Blind(table, key, c.Key(key))
    ensures key in DropsAt(c, false, order, i) && key !in DropsAt(c, true, order, i)
  {
    NothingSeen(c, order[..i], key);
    assert order[..i][t] == table.kind;
    assert GoesAway(c, order[..i], table);
    DropsAreForeseen(c, order, i, key);
  }

  /** Where no iceberg, dynamic, event or hybrid table is declared, and no filter asks for their resolvers, these
      are skipped, and plan and apply emit the same drops. */
  lemma ExactWhenSkipped(c: Setting, scope: Scope, sequence: seq<Kind>)
    requires c.Valid() && Distinct(sequence) && scope.included == {}
    requires forall kind | kind in sequence && (kind.OtherTable? || kind.HybridTable?) :: kind in scope.skippedOnEmpty
    requires forall o | o in c.declared :: !o.kind.OtherTable? && !o.kind.HybridTable?
    ensures var order := Active(c, scope, sequence);
      forall i | 0 <= i < |order| :: DropsAt(c, true, order, i) == DropsAt(c, false, order, i)
  {
    ActiveIsDistinct(c, scope, sequence);
    forall kind | kind in Active(c, scope, sequence)
      ensures !kind.OtherTable? && !kind.HybridTable?
    {
      InActive(c, scope, sequence, kind);
    }
    ExactWithoutOtherTables(c, Active(c, scope, sequence));
  }

  /** A sequence of four resolvers: the containers, one type of tables, one type of keys. */
  predicate TablesThenKeys(order: seq<Kind>, tables: Kind, keys: Kind) {
    && |order| == 4 && order[0] == Database && order[1] == Schema
    && order[2] == tables && tables.OtherTable? && order[3] == keys && keys.IsConstraint()
  }

  lemma FourAreDistinct(order: seq<Kind>, tables: Kind, keys: Kind)
    requires TablesThenKeys(order, tables, keys)
    ensures Distinct(order) && forall j | 0 <= j < 3 :: BeforeTables(order[j])
  {
  }

  /** The failing case: an undeclared table of a type that the cache does not watch goes away with a key.
      The plan drops the table and then the key; the apply drops the table only. */
  lemma LostKeyRun(c: Setting, order: seq<Kind>, table: Obj, key: Obj)
    requires c.Valid() && table in c.world && key in c.world && IsDroppable(c, table) && IsDroppable(c, key)
    requires forall k | k in c.world && (k.kind.Database? || k.kind.Schema?) :: k in c.declared
    requires TablesThenKeys(order, table.kind, key.kind) && Blind(table, key, c.Key(key))
    ensures table in DropsAt(c, true, order, 2)
    ensures key in DropsAt(c, false, order, 3) && key !in DropsAt(c, true, order, 3)
  {
    FourAreDistinct(order, table.kind, key.kind);
    LostTable(c, order, 2, table);
    LostKey(c, order, 2, 3, table, key);
  }

  lemma NoBlindTable(c: Setting, done: seq<Kind>, o: Obj)
    requires !o.kind.IsConstraint()
    ensures !BlindToGo(c, done, o)
  {
  }

  function IcebergTable(path: seq<string>): Obj {
    Obj(OtherTable("ICEBERG_TABLE"), path, Option.None)
  }

  predicate ValidNames(path: seq<string>, more: seq<string>) {
    |path| == 3 && forall p | p in path + more :: Free(p, '.') && Free(p, '(')
  }

  /** An account with an undeclared iceberg table and a key.  The schema is declared, and so is another iceberg
      table, which keeps the resolver of iceberg tables from being skipped. */
  function LostSetting(path: seq<string>, other: string, key: Obj, info: KeyInfo): Setting
    requires |path| == 3
  {
    var declared := {Obj(Database, path[..1], Option.None), Obj(Schema, path[..2], Option.None),
                     IcebergTable(path[..2] + [other])};
    Setting(declared + {IcebergTable(path), key}, map[key := info], declared, {}, {}, {})
  }

  lemma LostSettingIsValid(path: seq<string>, other: string, key: Obj, info: KeyInfo)
    requires ValidNames(path, [other])
    requires key.Valid() && key.kind.IsConstraint() && Take(key.path, 2) == path[..2] && ValidKey(key, info)
    ensures LostSetting(path, other, key, info).Valid()
  {
    var c := LostSetting(path, other, key, info);
    LostSettingObjects(path, other, key, info);
    LostSettingContainers(path, other, key, info);
    assert forall o | o in c.declared :: o in c.world && !o.kind.IsConstraint();
    assert forall o | o in c.world && o.kind.IsConstraint() :: o == key;
    assert c.keys[key] == info && c.rebuilt == {} && c.columnDrops == {};
  }

  lemma LostSettingMayDrop(path: seq<string>, other: string, key: Obj, info: KeyInfo)
    requires |path| == 3 && other != path[2]
    requires |key.path| == 3 && key.kind.IsConstraint() && Take(key.path, 2) == path[..2]
    ensures var c := LostSetting(path, other, key, info);
            IsDroppable(c, IcebergTable(path)) && IsDroppable(c, key) && c.Key(key) == info
  {
    var c, schema := LostSetting(path, other, key, info), Obj(Schema, path[..2], Option.None);
    OtherTableIsOther(path, other);
    assert schema in c.declared && c.sandbox == {};
    assert c.SchemaOf(IcebergTable(path)) == schema && c.SchemaOf(key) == schema;
  }

  lemma OtherTableIsOther(path: seq<string>, other: string)
    requires |path| == 3 && other != path[2]
    ensures IcebergTable(path[..2] + [other]) != IcebergTable(path)
  {
    assert (path[..2] + [other])[2] == other;
  }

  lemma LostSettingObjects(path: seq<string>, other: string, key: Obj, info: KeyInfo)
    requires ValidNames(path, [other]) && key.Valid()
    ensures forall o | o in LostSetting(path, other, key, info).world :: o.Valid()
  {
    forall p | p in path[..1] || p in path[..2] || p in path || p in path[..2] + [other]
      ensures Free(p, '.') && Free(p, '(')
    {
      assert p in path + [other];
    }
  }

  lemma LostSettingContainers(path: seq<string>, other: string, key: Obj, info: KeyInfo)
    requires |path| == 3 && |key.path| == 3 && Take(key.path, 2) == path[..2]
    ensures var c := LostSetting(path, other, key, info);
      && (forall o | o in c.world && (o.kind.Schema? || o.kind.InSchema()) :: c.DatabaseOf(o) in c.declared)
      && (forall o | o in c.world && o.kind.InSchema() :: c.SchemaOf(o) in c.declared)
  {
    var c := LostSetting(path, other, key, info);
    var kept := IcebergTable(path[..2] + [other]);
    assert path[..2][..1] == path[..1] && key.path[..2][..1] == key.path[..1];
    assert kept.path[..2] == path[..2] && kept.path[..1] == path[..1];
  }

  /** No filters; resolvers of iceberg tables are skipped where none is declared. */
  function NoFilters(): Scope {
    Scope({}, {}, {}, {OtherTable("ICEBERG_TABLE")})
  }

  /** With that table declared the resolvers of the example all run. */
  lemma LostSettingRuns(path: seq<string>, other: string, key: Obj, info: KeyInfo, sequence: seq<Kind>)
    requires |path| == 3 && TablesThenKeys(sequence, IcebergTable(path).kind, key.kind)
    ensures Active(LostSetting(path, other, key, info), NoFilters(), sequence) == sequence
  {
    var c := LostSetting(path, other, key, info);
    assert IcebergTable(path[..2] + [other]) in c.declared;
    forall j | 0 <= j < |sequence|
      ensures !IsSkipped(c, NoFilters(), sequence[j])
    {
    }
    ActiveWhenNoneSkipped(c, NoFilters(), sequence);
  }

  lemma {:induction false} ActiveWhenNoneSkipped(c: Setting, scope: Scope, sequence: seq<Kind>)
    requires forall j | 0 <= j < |sequence| :: !IsSkipped(c, scope, sequence[j])
    ensures Active(c, scope, sequence) == sequence
  {
    if sequence != [] {
      var rest, last := sequence[..|sequence| - 1], sequence[|sequence| - 1];
      ActiveWhenNoneSkipped(c, scope, rest);
      assert Active(c, scope, sequence) == rest + [last];
    }
  }

  /** The plan over these resolvers lists the key, and the apply does not drop it. */
  ghost predicate KeyIsLostIn(c: Setting, order: seq<Kind>, key: Obj) {
    c.Valid() && |order| == 4 && key in DropsAt(c, false, order, 3) && key !in DropsAt(c, true, order, 3)
  }

  ghost predicate KeyIsLost(path: seq<string>, other: string, key: Obj, info: KeyInfo, sequence: seq<Kind>)
    requires |path| == 3
  {
    var c := LostSetting(path, other, key, info);
    KeyIsLostIn(c, Active(c, NoFilters(), sequence), key)
  }

  lemma LostSettingHas(path: seq<string>, other: string, key: Obj, info: KeyInfo)
    requires |path| == 3 && key.kind.IsConstraint()
    ensures var c := LostSetting(path, other, key, info);
      && IcebergTable(path) in c.world && key in c.world
      && forall k | k in c.world && (k.kind.Database? || k.kind.Schema?) :: k in c.declared
  {
  }

  lemma LostKeyIn(c: Setting, order: seq<Kind>, table: Obj, key: Obj)
    requires c.Valid() && table in c.world && key in c.world && IsDroppable(c, table) && IsDroppable(c, key)
    requires forall k | k in c.world && (k.kind.Database? || k.kind.Schema?) :: k in c.declared
    requires TablesThenKeys(order, table.kind, key.kind) && Blind(table, key, c.Key(key))
    ensures KeyIsLostIn(c, order, key)
  {
    LostKeyRun(c, order, table, key);
  }

  lemma LostSettingLoses(path: seq<string>, other: string, key: Obj, info: KeyInfo, sequence: seq<Kind>)
    requires ValidNames(path, [other]) && other != path[2]
    requires key.Valid() && key.kind.IsConstraint() && Take(key.path, 2) == path[..2] && ValidKey(key, info)
    requires Blind(IcebergTable(path), key, info) && TablesThenKeys(sequence, IcebergTable(path).kind, key.kind)
    ensures KeyIsLost(path, other, key, info, sequence)
  {
    LostSettingIsValid(path, other, key, info);
    LostSettingMayDrop(path, other, key, info);
    LostSettingHas(path, other, key, info);
    LostSettingRuns(path, other, key, info, sequence);
    LostKeyIn(LostSetting(path, other, key, info), sequence, IcebergTable(path), key);
  }

  /** It occurs: the primary key of an undeclared iceberg table. */
  lemma LostKeySetting(path: seq<string>, other: string, sequence: seq<Kind>)
    requires ValidNames(path, [other]) && other != path[2]
    requires TablesThenKeys(sequence, IcebergTable(path).kind, PrimaryKey)
    ensures KeyIsLost(path, other, Obj(PrimaryKey, path, Option.None), KeyInfo(["ID"], [], []), sequence)
  {
    assert forall p | p in path :: p in path + [other];
    LostSettingLoses(path, other, Obj(PrimaryKey, path, Option.None), KeyInfo(["ID"], [], []), sequence);
  }

  /** ... and an undeclared foreign key of another table of the schema that refers to it. */
  lemma LostReferenceSetting(path: seq<string>, other: string, from: string, sequence: seq<Kind>)
    requires ValidNames(path, [other, from]) && other != path[2]
    requires TablesThenKeys(sequence, IcebergTable(path).kind, ForeignKey)
    ensures KeyIsLost(path, other, Obj(ForeignKey, path[..2] + [from], Some("REF_ID")),
              KeyInfo(["REF_ID"], path, ["ID"]), sequence)
  {
    var key := Obj(ForeignKey, path[..2] + [from], Some("REF_ID"));
    assert forall p | p in path || p in key.path || p in path + [other] :: p in path + [other, from];
    assert key.path[..2] == path[..2];
    LostSettingLoses(path, other, key, KeyInfo(["REF_ID"], path, ["ID"]), sequence);
  }

  // ---------------------------------------------------------------------------------------------
  // The resolver
  // ---------------------------------------------------------------------------------------------

  function OfKind(objects: set<Obj>, kind: Kind): (s: set<Obj>)
    ensures forall o :: o in s <==> o in objects && o.kind == kind
  {
    set o | o in objects && o.kind == kind
  }

  /** What is left of `world` after these drops, and the cascades of these objects and columns. */
  ghost function Left(c: Setting, world: set<Obj>, drops: set<Obj>, objects: set<Obj>, columns: set<ColumnName>):
    set<Obj>
  {
    set o | o in world && o !in drops && !Removed(objects, columns, o, c.Key(o))
  }

  lemma LeftMore(c: Setting, world: set<Obj>, drops: set<Obj>, objects: set<Obj>, columns: set<ColumnName>,
                 drops': set<Obj>, objects': set<Obj>, columns': set<ColumnName>)
    ensures Left(c, Left(c, world, drops, objects, columns), drops', objects', columns')
            == Left(c, world, drops + drops', objects + objects', columns + columns')
  {
    forall o
      ensures Removed(objects + objects', columns + columns', o, c.Key(o)) <==>
              Removed(objects, columns, o, c.Key(o)) || Removed(objects', columns', o, c.Key(o))
    {
      RemovedUnion(objects, objects', columns, columns', o, c.Key(o));
    }
  }

  /** An object never removes one of its own type. */
  lemma OtherTypeOnly(k: Obj, o: Obj, key: KeyInfo)
    requires k.kind == o.kind
    ensures !Cascades(k, o, key)
  {
  }

  function ColumnsOf(c: Setting, o: Obj): set<ColumnName> {
    set d | d in c.columnDrops && d.0 == o :: (o.path, d.1)
  }

  /** Objects of the type being resolved survive the replacements and column drops of that type. */
  lemma SameTypeStays(c: Setting, kind: Kind, world: set<Obj>, more: set<Obj>, objects: set<Obj>,
                      columns: set<ColumnName>)
    requires forall o | o in more || o in objects :: o.kind == kind
    requires columns != {} ==> kind.Table?
    ensures Left(c, world + more, {}, objects, columns) == Left(c, world, {}, objects, columns) + more
  {
  }

  /** The replaced ones among these blueprints. */
  function Compared(c: Setting, existing: set<Obj>, blueprints: set<Obj>): set<Obj> {
    set o | o in blueprints && o in existing && o in c.rebuilt
  }

  function ComparedColumns(c: Setting, existing: set<Obj>, blueprints: set<Obj>): set<ColumnName> {
    set d | d in c.columnDrops && d.0 in existing && d.0 in blueprints :: (d.0.path, d.1)
  }

  /** What is left of `world`, and there again or there now, once these blueprints are compared. */
  ghost function ComparedWorld(c: Setting, existing: set<Obj>, world: set<Obj>, blueprints: set<Obj>): set<Obj> {
    Left(c, world, {}, Compared(c, existing, blueprints), ComparedColumns(c, existing, blueprints)) + blueprints
  }

  /** After these blueprints are compared or created. */
  ghost function ComparedNow(c: Setting, executes: bool, existing: set<Obj>, s: State, blueprints: set<Obj>): State {
    State(if executes then ComparedWorld(c, existing, s.world, blueprints) else s.world,
          s.gone + Compared(c, existing, blueprints),
          s.columns + ComparedColumns(c, existing, blueprints))
  }

  /** After these objects are dropped. */
  ghost function DroppedNow(c: Setting, executes: bool, s: State, drops: set<Obj>): State {
    State(if executes then Left(c, s.world, drops, drops, {}) else s.world, s.gone + drops, s.columns)
  }

  lemma DroppedMoreNow(c: Setting, executes: bool, s: State, drops: set<Obj>, o: Obj)
    ensures DroppedNow(c, executes, DroppedNow(c, executes, s, drops), {o}) == DroppedNow(c, executes, s, drops + {o})
  {
    LeftMore(c, s.world, drops, drops, {}, {o}, {o}, {});
    var none: set<ColumnName> := {};
    assert none + none == none;
  }

  lemma NothingNow(c: Setting, executes: bool, existing: set<Obj>, s: State)
    ensures DroppedNow(c, executes, s, {}) == s && ComparedNow(c, executes, existing, s, {}) == s
  {
    assert Left(c, s.world, {}, {}, {}) == s.world;
    assert Compared(c, existing, {}) == {} && ComparedColumns(c, existing, {}) == {};
  }

  /** The effect of one more blueprint. */
  lemma ComparedMoreNow(c: Setting, executes: bool, kind: Kind, existing: set<Obj>, s: State, more: set<Obj>, o: Obj)
    requires c.Valid() && o.kind == kind && forall k | k in more :: k.kind == kind
    ensures ComparedNow(c, executes, existing, ComparedNow(c, executes, existing, s, more), {o})
         == ComparedNow(c, executes, existing, s, more + {o})
    ensures o in s.world ==> o in ComparedNow(c, executes, existing, s, more).world
  {
    SplitCompared(c, existing, more, o);
    var first, last := ComparedNow(c, executes, existing, s, more), ComparedNow(c, executes, existing, s, more + {o});
    assert first.gone + Compared(c, existing, {o}) == last.gone;
    assert first.columns + ComparedColumns(c, existing, {o}) == last.columns;
    ComparedMore(c, kind, existing, s.world, more, o);
  }

  lemma ComparedMore(c: Setting, kind: Kind, existing: set<Obj>, world: set<Obj>, more: set<Obj>, o: Obj)
    requires c.Valid() && o.kind == kind && forall k | k in more :: k.kind == kind
    ensures ComparedWorld(c, existing, ComparedWorld(c, existing, world, more), {o})
            == ComparedWorld(c, existing, world, more + {o})
    ensures o in world ==> o in ComparedWorld(c, existing, world, more)
  {
    SplitCompared(c, existing, more, o);
    OneTypeCompared(c, kind, existing, more);
    OneTypeCompared(c, kind, existing, {o});
    LeftCompared(c, kind, world, more, o, Compared(c, existing, more), ComparedColumns(c, existing, more),
      Compared(c, existing, {o}), ComparedColumns(c, existing, {o}));
    SameTypeLeft(c, kind, world, o, Compared(c, existing, more), ComparedColumns(c, existing, more));
  }

  lemma OneTypeCompared(c: Setting, kind: Kind, existing: set<Obj>, more: set<Obj>)
    requires c.Valid() && forall k | k in more :: k.kind == kind
    ensures forall k | k in Compared(c, existing, more) :: k.kind == kind
    ensures ComparedColumns(c, existing, more) != {} ==> kind.Table?
  {
    if d :| d in ComparedColumns(c, existing, more) {
      var e :| e in c.columnDrops && e.0 in existing && e.0 in more && d == (e.0.path, e.1);
    }
  }

  lemma LeftCompared(c: Setting, kind: Kind, world: set<Obj>, more: set<Obj>, o: Obj, objects: set<Obj>,
                     cols: set<ColumnName>, last: set<Obj>, lastCols: set<ColumnName>)
    requires o.kind == kind && forall k | k in more || k in last :: k.kind == kind
    requires lastCols != {} ==> kind.Table?
    ensures Left(c, Left(c, world, {}, objects, cols) + more, {}, last, lastCols) + {o}
         == Left(c, world, {}, objects + last, cols + lastCols) + (more + {o})
  {
    SameTypeStays(c, kind, Left(c, world, {}, objects, cols), more, last, lastCols);
    LeftMore(c, world, {}, objects, cols, {}, last, lastCols);
    var none: set<Obj> := {};
    assert none + none == none;
  }

  lemma SameTypeLeft(c: Setting, kind: Kind, world: set<Obj>, o: Obj, objects: set<Obj>,
                     columns: set<ColumnName>)
    requires o.kind == kind && (forall k | k in objects :: k.kind == kind) && (columns != {} ==> kind.Table?)
    ensures o in world ==> o in Left(c, world, {}, objects, columns)
  {
  }

  lemma SplitCompared(c: Setting, existing: set<Obj>, more: set<Obj>, o: Obj)
    ensures Compared(c, existing, more + {o}) == Compared(c, existing, more) + Compared(c, existing, {o})
    ensures ComparedColumns(c, existing, more + {o})
         == ComparedColumns(c, existing, more) + ComparedColumns(c, existing, {o})
  {
  }

  /** One run: the account it works on, the cache, and the DROP statements it has emitted.  With
      `executes` every statement reaches the account; otherwise it is only suggested. */
  class Engine {
    const executes: bool
    const cache: Cache
    var world: set<Obj>
    var dropped: seq<Obj>
    ghost var gone: set<Obj>
    ghost var columns: set<ColumnName>

    ghost predicate Valid()
      reads this, cache
    {
      cache.Contents() == NamesOf(gone, columns)
    }

    ghost function Now(): State
      reads this
    {
      State(world, gone, columns)
    }

    constructor (c: Setting, executes: bool)
      ensures Valid() && fresh(cache) && Now() == State(c.world, {}, {}) && dropped == [] && this.executes == executes
    {
      this.executes := executes;
      cache := new Cache();
      world, dropped := c.world, [];
      gone, columns := {}, {};
    }

    /** Snowflake removes what goes away with `k`, and `k` itself when it is dropped. */
    method Execute(c: Setting, k: Obj, isDrop: bool)
      modifies this`world
      ensures world == if executes then Left(c, old(world), if isDrop then {k} else {}, {k}, {}) else old(world)
    {
      if executes {
        world := set o | o in world && !(isDrop && o == k) && !Cascades(k, o, c.Key(o));
      }
    }

    method ExecuteColumnDrop(c: Setting, table: seq<string>, column: string)
      modifies this`world
      ensures world == if executes then Left(c, old(world), {}, {}, {(table, column)}) else old(world)
    {
      if executes {
        world := set o | o in world && !ColumnCascades(table, column, o, c.Key(o));
      }
    }

    /** `drop_object` and its bookkeeping in `_process_tasks`. */
    method DropObject(c: Setting, o: Obj)
      requires Valid()
      modifies this, cache
      ensures Valid() && dropped == old(dropped) + [o]
      ensures Now() == DroppedNow(c, executes, old(Now()), {o})
    {
      Execute(c, o, true);
      cache.AddObjectDropIntention(o.kind, o.FullName());
      dropped := dropped + [o];
      gone := gone + {o};
    }

    /** `_resolve_drop`, collecting the tasks: undeclared objects that nothing else takes along. */
    method CollectDrops(c: Setting, kind: Kind, existing: seq<Obj>) returns (tasks: seq<Obj>)
      requires Valid()
      requires forall o :: o in existing <==> o in world && o.kind == kind
      ensures forall o :: o in tasks <==> o in Drops(c, Now(), kind)
    {
      tasks := [];
      for i := 0 to |existing|
        invariant forall o :: o in tasks <==> o in existing[..i] && o in Drops(c, Now(), kind)
      {
        var o := existing[i];
        assert existing[..i + 1] == existing[..i] + [o] && o in existing;
        if c.MayDrop(o) && !cache.CheckImplicitDropIntention(o, c.Key(o)) {
          tasks := tasks + [o];
        }
      }
      assert existing[..|existing|] == existing;
    }

    /** `_resolve_drop`: first the tasks are collected, then they run. */
    method ResolveDrop(c: Setting, kind: Kind, existing: seq<Obj>) returns (tasks: seq<Obj>)
      requires Valid()
      requires forall o :: o in existing <==> o in world && o.kind == kind
      modifies this, cache
      ensures Valid() && dropped == old(dropped) + tasks
      ensures forall o :: o in tasks <==> o in Drops(c, old(Now()), kind)
      ensures forall o | o in tasks :: o in old(world) && o.kind == kind && IsDroppable(c, o)
      ensures Now() == DroppedNow(c, executes, old(Now()), Drops(c, old(Now()), kind))
    {
      ghost var start := Now();
      tasks := CollectDrops(c, kind, existing);
      ghost var done: set<Obj> := {};
      NothingNow(c, executes, {}, start);
      for i := 0 to |tasks|
        invariant Valid() && dropped == old(dropped) + tasks[..i]
        invariant done == SetOf(tasks[..i])
        invariant Now() == DroppedNow(c, executes, start, done)
      {
        var o := tasks[i];
        DroppedMoreNow(c, executes, start, done, o);
        DropObject(c, o);
        done := done + {o};
        assert tasks[..i + 1] == tasks[..i] + [o];
      }
      assert tasks[..|tasks|] == tasks;
      assert done == Drops(c, start, kind);
    }

    /** `compare_object` ending in REPLACE, and its bookkeeping in `_process_tasks`. */
    method ReplaceObject(c: Setting, o: Obj)
      requires Valid()
      modifies this`world, this`gone, cache
      ensures Valid() && gone == old(gone) + {o}
      ensures world == if executes then Left(c, old(world), {}, {o}, {}) else old(world)
    {
      Execute(c, o, false);
      cache.AddObjectDropIntention(o.kind, o.FullName());
      gone := gone + {o};
    }

    /** One dropped column of an altered table, and its intention. */
    method DropColumn(c: Setting, d: ColumnName)
      requires Valid()
      modifies this`world, this`columns, cache
      ensures Valid() && columns == old(columns) + {d}
      ensures world == if executes then Left(c, old(world), {}, {}, {d}) else old(world)
    {
      ExecuteColumnDrop(c, d.0, d.1);
      cache.AddColumnDropIntention(Join(d.0, '.'), d.1);
      columns := columns + {d};
    }

    /** `compare_object` ending in ALTER: the dropped columns. */
    method DropColumns(c: Setting, cols: set<ColumnName>)
      requires Valid()
      modifies this`world, this`columns, cache
      ensures Valid() && columns == old(columns) + cols
      ensures world == if executes then Left(c, old(world), {}, {}, cols) else old(world)
    {
      assert Left(c, world, {}, {}, {}) == world;
      ghost var done: set<ColumnName> := {};
      var rest := cols;
      while rest != {}
        invariant Valid() && columns == old(columns) + done
        invariant done + rest == cols
        invariant world == if executes then Left(c, old(world), {}, {}, done) else old(world)
        decreases rest
      {
        var d :| d in rest;
        rest := rest - {d};
        LeftMore(c, old(world), {}, {}, done, {}, {}, {d});
        DropColumn(c, d);
        done := done + {d};
      }
    }

    /** What `compare_object` does to an existing object: replace it, or drop columns from it, or neither. */
    method CompareObject(c: Setting, o: Obj)
      requires Valid() && c.Valid()
      modifies this`world, this`gone, this`columns, cache
      ensures Valid()
      ensures gone == old(gone) + if o in c.rebuilt then {o} else {}
      ensures columns == old(columns) + ColumnsOf(c, o)
      ensures world ==
              if executes then Left(c, old(world), {}, if o in c.rebuilt then {o} else {}, ColumnsOf(c, o))
              else old(world)
    {
      if o in c.rebuilt {
        assert ColumnsOf(c, o) == {};
        ReplaceObject(c, o);
      } else {
        DropColumns(c, ColumnsOf(c, o));
      }
    }

    /** One blueprint: compared when its object exists, created otherwise. */
    method CompareOrCreate(c: Setting, existing: set<Obj>, o: Obj)
      requires Valid() && c.Valid()
      requires executes && o in existing ==> o in world
      modifies this`world, this`gone, this`columns, cache
      ensures Valid() && Now() == ComparedNow(c, executes, existing, old(Now()), {o})
    {
      if o in existing {
        if executes {
          ExistingCompared(c, existing, world, o);
        } else {
          ExistingCompared(c, existing, {o}, o);
        }
        CompareObject(c, o);
      } else {
        NewCompared(c, existing, world, o);
        if executes {
          world := world + {o};
        }
      }
    }

    /** `_resolve_create_compare`, over the blueprints of one type in any order. */
    method ResolveCreateCompare(c: Setting, kind: Kind, existing: set<Obj>, blueprints: seq<Obj>)
      requires Valid() && c.Valid()
      requires forall o | o in blueprints :: o.kind == kind
      requires executes ==> forall o | o in existing && o in blueprints :: o in world
      modifies this`world, this`gone, this`columns, cache
      ensures Valid() && Now() == ComparedNow(c, executes, existing, old(Now()), SetOf(blueprints))
    {
      ghost var start := Now();
      ghost var more: set<Obj> := {};
      NothingNow(c, executes, existing, start);
      for i := 0 to |blueprints|
        invariant Valid()
        invariant more == SetOf(blueprints[..i])
        invariant Now() == ComparedNow(c, executes, existing, start, more)
      {
        var o := blueprints[i];
        assert blueprints[..i + 1] == blueprints[..i] + [o] && o in blueprints;
        ComparedMoreNow(c, executes, kind, existing, start, more, o);
        CompareOrCreate(c, existing, o);
        more := more + {o};
      }
      assert blueprints[..|blueprints|] == blueprints;
    }

    /** `resolve`: a resolver that is not skipped is one step of the run. */
    method Resolve(c: Setting, scope: Scope, kind: Kind) returns (tasks: seq<Obj>)
      requires Valid() && c.Valid()
      modifies this, cache
      ensures Valid()
      ensures Now() == if IsSkipped(c, scope, kind) then old(Now()) else Next(c, executes, old(Now()), kind)
      ensures dropped == old(dropped) + tasks
      ensures forall o :: o in tasks <==> !IsSkipped(c, scope, kind) && o in Drops(c, old(Now()), kind)
    {
      if IsSkipped(c, scope, kind) {
        return [];
      }
      tasks := ResolveKind(c, kind);
    }

    method ResolveKind(c: Setting, kind: Kind) returns (tasks: seq<Obj>)
      requires Valid() && c.Valid()
      modifies this, cache
      ensures Valid() && Now() == Next(c, executes, old(Now()), kind)
      ensures dropped == old(dropped) + tasks && forall o :: o in tasks <==> o in Drops(c, old(Now()), kind)
    {
      var existing := OfKind(world, kind);
      var blueprints := OfKind(c.declared, kind);
      var existingList := Listing(existing);
      var blueprintList := Listing(blueprints);
      DeclaredStay(c, Now(), kind, existing, blueprints);
      StepComposes(c, executes, Now(), kind);
      tasks := ResolveDrop(c, kind, existingList);
      ResolveCreateCompare(c, kind, existing, blueprintList);
    }
  }

  /** The drops of a type leave its declared objects alone. */
  lemma DeclaredStay(c: Setting, s: State, kind: Kind, existing: set<Obj>, blueprints: set<Obj>)
    requires existing == OfKind(s.world, kind)
    requires blueprints == OfKind(c.declared, kind)
    ensures existing * blueprints <= Left(c, s.world, Drops(c, s, kind), Drops(c, s, kind), {})
  {
    forall o, k | o in blueprints && k in Drops(c, s, kind)
      ensures !Cascades(k, o, c.Key(o))
    {
      OtherTypeOnly(k, o, c.Key(o));
    }
  }

  lemma ExistingCompared(c: Setting, existing: set<Obj>, world: set<Obj>, o: Obj)
    requires c.Valid() && o in existing && o in world
    ensures Compared(c, existing, {o}) == if o in c.rebuilt then {o} else {}
    ensures ComparedColumns(c, existing, {o}) == ColumnsOf(c, o)
    ensures ComparedWorld(c, existing, world, {o})
         == Left(c, world, {}, if o in c.rebuilt then {o} else {}, ColumnsOf(c, o))
  {
    var objects := if o in c.rebuilt then {o} else {};
    assert Compared(c, existing, {o}) == objects;
    assert ComparedColumns(c, existing, {o}) == ColumnsOf(c, o);
    KeptWhenCompared(c, world, o);
  }

  lemma KeptWhenCompared(c: Setting, world: set<Obj>, o: Obj)
    requires c.Valid() && o in world
    ensures o in Left(c, world, {}, if o in c.rebuilt then {o} else {}, ColumnsOf(c, o))
  {
    OtherTypeOnly(o, o, c.Key(o));
  }

  lemma NewCompared(c: Setting, existing: set<Obj>, world: set<Obj>, o: Obj)
    requires o !in existing
    ensures Compared(c, existing, {o}) == {} && ComparedColumns(c, existing, {o}) == {}
    ensures ComparedWorld(c, existing, world, {o}) == world + {o}
  {
    assert Compared(c, existing, {o}) == {} && ComparedColumns(c, existing, {o}) == {};
    assert Left(c, world, {}, {}, {}) == world;
  }

  lemma ComparedIsReplaced(c: Setting, s: State, kind: Kind)
    requires c.Valid()
    ensures Compared(c, OfKind(s.world, kind), OfKind(c.declared, kind)) == Replaced(c, s, kind)
    ensures ComparedColumns(c, OfKind(s.world, kind), OfKind(c.declared, kind)) == DroppedColumns(c, s, kind)
  {
  }

  lemma ExecutedIsLeft(c: Setting, s: State, kind: Kind)
    ensures var drops := Drops(c, s, kind);
            Executed(c, s, kind) ==
            Left(c, s.world, drops, drops + Replaced(c, s, kind), DroppedColumns(c, s, kind))
            + OfKind(c.declared, kind)
  {
  }

  /** The drop phase and the create and compare phase together are one step of the run. */
  lemma StepComposes(c: Setting, executes: bool, s: State, kind: Kind)
    requires c.Valid()
    ensures ComparedNow(c, executes, OfKind(s.world, kind), DroppedNow(c, executes, s, Drops(c, s, kind)),
              OfKind(c.declared, kind))
            == Next(c, executes, s, kind)
  {
    var drops := Drops(c, s, kind);
    ComparedIsReplaced(c, s, kind);
    ExecutedIsLeft(c, s, kind);
    LeftMore(c, s.world, drops, drops, {}, {}, Replaced(c, s, kind), DroppedColumns(c, s, kind));
    assert drops + {} == drops && {} + DroppedColumns(c, s, kind) == DroppedColumns(c, s, kind);
  }

  method Listing(s: set<Obj>) returns (list: seq<Obj>)
    ensures SetOf(list) == s
  {
    list := [];
    var rest := s;
    while rest != {}
      invariant rest <= s && SetOf(list) == s - rest
      decreases rest
    {
      var o :| o in rest;
      rest := rest - {o};
      list := list + [o];
    }
  }

  /** One of the resolvers drops `o`. */
  ghost predicate DroppedIn(c: Setting, executes: bool, order: seq<Kind>, o: Obj) {
    exists i :: 0 <= i < |order| && o in DropsAt(c, executes, order, i)
  }

  lemma DroppedMore(c: Setting, executes: bool, order: seq<Kind>, kind: Kind, o: Obj)
    ensures DroppedIn(c, executes, order + [kind], o)
       <==> DroppedIn(c, executes, order, o) || o in Drops(c, After(c, executes, order), kind)
  {
    var all := order + [kind];
    assert all[..|order|] == order;
    forall i | 0 <= i < |order|
      ensures DropsAt(c, executes, all, i) == DropsAt(c, executes, order, i)
    {
      assert all[..i] == order[..i];
    }
    if DroppedIn(c, executes, order, o) {
      var i :| 0 <= i < |order| && o in DropsAt(c, executes, order, i);
      assert o in DropsAt(c, executes, all, i);
    }
    assert DropsAt(c, executes, all, |order|) == Drops(c, After(c, executes, order), kind);
  }

  lemma AfterMore(c: Setting, executes: bool, order: seq<Kind>, kind: Kind)
    ensures After(c, executes, order + [kind]) == Next(c, executes, After(c, executes, order), kind)
  {
    assert (order + [kind])[..|order|] == order;
  }

  /** A drop of the run, told from the account and the configuration. */
  ghost predicate IsForeseen(c: Setting, executes: bool, order: seq<Kind>, o: Obj) {
    exists i :: 0 <= i < |order| && o.kind == order[i] && o in c.world && IsDroppable(c, o)
                && !SeenToGo(c, order[..i], o) && !(executes && BlindToGo(c, order[..i], o))
  }

  lemma DroppedIsDroppable(c: Setting, executes: bool, order: seq<Kind>, o: Obj)
    requires DroppedIn(c, executes, order, o)
    ensures IsDroppable(c, o)
  {
    var i :| 0 <= i < |order| && o in DropsAt(c, executes, order, i);
    MayDropExactly(c, o);
  }

  lemma DroppedIsForeseen(c: Setting, executes: bool, order: seq<Kind>, o: Obj)
    requires c.Valid() && Distinct(order)
    ensures DroppedIn(c, executes, order, o) <==> IsForeseen(c, executes, order, o)
  {
    forall i | 0 <= i < |order|
      ensures o in DropsAt(c, executes, order, i) <==>
              o.kind == order[i] && o in c.world && IsDroppable(c, o)
              && !SeenToGo(c, order[..i], o) && !(executes && BlindToGo(c, order[..i], o))
    {
      DropsAreForeseen(c, order, i, o);
    }
  }

  /** A whole run, one resolver after the other, is the run the theorems above speak about, over the
      resolvers that are not skipped: it drops the existing objects that are droppable and that nothing takes
      along, as far as a plan can know. */
  method Run(c: Setting, scope: Scope, executes: bool, sequence: seq<Kind>) returns (engine: Engine)
    requires c.Valid()
    ensures engine.Valid() && engine.Now() == After(c, executes, Active(c, scope, sequence))
    ensures forall o | o in engine.dropped :: IsDroppable(c, o)
    ensures Distinct(sequence) ==>
              forall o :: o in engine.dropped <==> IsForeseen(c, executes, Active(c, scope, sequence), o)
  {
    engine := RunAll(c, scope, executes, sequence);
    var order := Active(c, scope, sequence);
    forall o | o in engine.dropped
      ensures IsDroppable(c, o)
    {
      DroppedIsDroppable(c, executes, order, o);
    }
    if Distinct(sequence) {
      ActiveIsDistinct(c, scope, sequence);
      forall o
        ensures o in engine.dropped <==> IsForeseen(c, executes, order, o)
      {
        DroppedIsForeseen(c, executes, order, o);
      }
    }
  }

  method RunAll(c: Setting, scope: Scope, executes: bool, sequence: seq<Kind>) returns (engine: Engine)
    requires c.Valid()
    ensures engine.Valid() && engine.Now() == After(c, executes, Active(c, scope, sequence))
    ensures forall o :: o in engine.dropped <==> DroppedIn(c, executes, Active(c, scope, sequence), o)
  {
    engine := new Engine(c, executes);
    ghost var order: seq<Kind> := [];
    for i := 0 to |sequence|
      invariant engine.Valid() && engine.executes == executes && fresh(engine) && fresh(engine.cache)
      invariant order == Active(c, scope, sequence[..i]) && engine.Now() == After(c, executes, order)
      invariant forall o :: o in engine.dropped <==> DroppedIn(c, executes, order, o)
    {
      ActiveStep(c, scope, sequence, i);
      var tasks := engine.Resolve(c, scope, sequence[i]);
      if !IsSkipped(c, scope, sequence[i]) {
        forall o
          ensures DroppedIn(c, executes, order + [sequence[i]], o) <==> DroppedIn(c, executes, order, o) || o in tasks
        {
          DroppedMore(c, executes, order, sequence[i], o);
        }
        AfterMore(c, executes, order, sequence[i]);
        order := order + [sequence[i]];
      }
    }
    assert sequence[..|sequence|] == sequence;
  }
}
