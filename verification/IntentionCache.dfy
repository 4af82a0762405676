/** Drop intentions: what the resolvers so far are going to drop or replace, kept as printed names.

    The second half relates the string checks of the cache to what Snowflake itself removes when an
    object goes away. */
module IntentionCache {
  import opened Basics
  import opened Strings

  /** The object types that matter to the cache.  `OtherTable` stands for the table types that can
      carry keys but that the cache does not look at (iceberg, dynamic and event tables). */
  datatype Kind =
    | Database | Schema | DatabaseRole
    | Stage | StageFile
    | Table | ExternalTable | HybridTable | OtherTable(tableType: string)
    | PrimaryKey | UniqueKey | ForeignKey | CheckConstraint
    | SchemaObject(objectType: string)
    | AccountObject(objectType: string)
  {
    predicate IsConstraint() {
      PrimaryKey? || UniqueKey? || ForeignKey? || CheckConstraint?
    }

    predicate IsTable() {
      Table? || ExternalTable? || HybridTable? || OtherTable?
    }

    predicate InSchema() {
      !Database? && !Schema? && !DatabaseRole? && !AccountObject?
    }

    function PathLength(): nat {
      if Database? || AccountObject? then 1 else if Schema? || DatabaseRole? then 2 else 3
    }
  }

  /** An object: its type, the parts of its dotted name, and what its full name shows in parentheses
      (argument types, key columns, a constraint name or a file path). */
  datatype Obj = Obj(kind: Kind, path: seq<string>, arg: Option<string>) {
    function FullName(): string {
      Join(path, '.') + match arg case None => "" case Some(a) => "(" + a + ")"
    }

    /** Names are identifiers: no dots or parentheses inside a part. */
    predicate Valid() {
      && |path| == kind.PathLength()
      && (forall p | p in path :: Free(p, '.') && Free(p, '('))
      && (kind.Database? || kind.Schema? || kind.Stage? || kind.IsTable() ==> arg.None?)
    }
  }

  /** The columns of a key, and for a foreign key what it refers to. */
  datatype KeyInfo = KeyInfo(columns: seq<string>, refTable: seq<string>, refColumns: seq<string>)

  /** A column, with the path of its table. */
  type ColumnName = (seq<string>, string)

  datatype Intentions = Intentions(objects: set<(Kind, string)>, columns: set<(string, string)>)

  function Take(s: seq<string>, n: nat): seq<string> {
    if n <= |s| then s[..n] else s
  }

  /** `check_parent_object_drop_intention`. */
  predicate ParentDropIntended(t: Intentions, kind: Kind, fullName: string) {
    ContainerDropIntended(t, kind, Split(Before(fullName, '('), '.'))
  }

  predicate ContainerDropIntended(t: Intentions, kind: Kind, parts: seq<string>) {
    var databaseName := Join(Take(parts, 1), '.');
    var schemaName := Join(Take(parts, 2), '.');
    var schemaObjectName := Join(Take(parts, 3), '.');
    || ((kind.Schema? || kind.DatabaseRole? || kind.InSchema()) && (Database, databaseName) in t.objects)
    || (kind.InSchema() && (Schema, schemaName) in t.objects)
    || (kind.StageFile? && (Stage, schemaObjectName) in t.objects)
    || (kind.IsConstraint()
        && (|| (Table, schemaObjectName) in t.objects
            || (ExternalTable, schemaObjectName) in t.objects
            || (HybridTable, schemaObjectName) in t.objects))
  }

  predicate ColumnDropIntended(t: Intentions, table: string, columns: seq<string>) {
    exists col | col in columns :: (table, col) in t.columns
  }

  /** `_check_implicit_drop_intention`, with its primary, unique and foreign key overrides. */
  predicate ImplicitDropIntended(t: Intentions, o: Obj, key: KeyInfo) {
    var name, table := o.FullName(), Join(o.path, '.');
    var refTable := Join(key.refTable, '.');
    || ParentDropIntended(t, o.kind, name)
    || (o.kind.PrimaryKey? && ColumnDropIntended(t, name, key.columns))
    || (o.kind.UniqueKey? && ColumnDropIntended(t, table, key.columns))
    || (o.kind.ForeignKey?
        && (|| (Table, refTable) in t.objects
            || ParentDropIntended(t, Table, refTable)
            || (ExternalTable, refTable) in t.objects
            || ParentDropIntended(t, ExternalTable, refTable)
            || ColumnDropIntended(t, table, key.columns)
            || ColumnDropIntended(t, refTable, key.refColumns)))
  }

  /** The cache shared by all resolvers of a run. */
  class Cache {
    var objectDropIntention: set<(Kind, string)>
    var columnDropIntention: set<(string, string)>

    function Contents(): Intentions
      reads this
    {
      Intentions(objectDropIntention, columnDropIntention)
    }

    constructor ()
      ensures Contents() == Intentions({}, {})
    {
      objectDropIntention, columnDropIntention := {}, {};
    }

    method AddObjectDropIntention(kind: Kind, fullName: string)
      modifies this
      ensures Contents() == Intentions(old(objectDropIntention) + {(kind, fullName)}, old(columnDropIntention))
    {
      objectDropIntention := objectDropIntention + {(kind, fullName)};
    }

    method AddColumnDropIntention(table: string, column: string)
      modifies this
      ensures Contents() == Intentions(old(objectDropIntention), old(columnDropIntention) + {(table, column)})
    {
      columnDropIntention := columnDropIntention + {(table, column)};
    }

    predicate CheckImplicitDropIntention(o: Obj, key: KeyInfo)
      reads this
    {
      ImplicitDropIntended(Contents(), o, key)
    }
  }

  // ---------------------------------------------------------------------------------------------
  // What Snowflake removes on its own
  // ---------------------------------------------------------------------------------------------

  /** `o` lives inside `k`. */
  predicate Inside(k: Obj, o: Obj) {
    || (k.kind.Database? && (o.kind.Schema? || o.kind.DatabaseRole? || o.kind.InSchema()) && k.path == Take(o.path, 1))
    || (k.kind.Schema? && o.kind.InSchema() && k.path == Take(o.path, 2))
    || (k.kind.Stage? && o.kind.StageFile? && k.path == o.path)
    || (k.kind.IsTable() && o.kind.IsConstraint() && k.path == o.path)
  }

  /** Tables take along what has their path and is a key or a CHECK constraint, and nothing else. */
  lemma TablesContainConstraints(table: Obj, o: Obj)
    requires table.kind.IsTable()
    ensures Inside(table, o) <==>
      o.kind in {PrimaryKey, UniqueKey, ForeignKey, CheckConstraint} && o.path == table.path
  {
  }

  /** `k` is the table that `o` refers to, or contains it. */
  predicate ReferredFrom(k: Obj, o: Obj, key: KeyInfo) {
    && o.kind.ForeignKey?
    && (|| (k.kind.IsTable() && k.path == key.refTable)
        || (k.kind.Database? && k.path == Take(key.refTable, 1))
        || (k.kind.Schema? && k.path == Take(key.refTable, 2)))
  }

  /** Dropping or replacing `k` removes `o`. */
  predicate Cascades(k: Obj, o: Obj, key: KeyInfo) {
    Inside(k, o) || ReferredFrom(k, o, key)
  }

  /** Dropping column `col` of `table` removes `o`. */
  predicate ColumnCascades(table: seq<string>, col: string, o: Obj, key: KeyInfo) {
    || ((o.kind.PrimaryKey? || o.kind.UniqueKey? || o.kind.ForeignKey?) && table == o.path && col in key.columns)
    || (o.kind.ForeignKey? && table == key.refTable && col in key.refColumns)
  }

  /** The cascades the cache does not know about: keys of tables of the other types, and foreign keys
      that refer to such a table or to a hybrid table. */
  predicate Blind(k: Obj, o: Obj, key: KeyInfo) {
    || (k.kind.OtherTable? && o.kind.IsConstraint() && k.path == o.path)
    || ((k.kind.OtherTable? || k.kind.HybridTable?) && o.kind.ForeignKey? && k.path == key.refTable)
  }

  /** The cascades the cache knows about. */
  predicate Seen(k: Obj, o: Obj, key: KeyInfo) {
    || (Inside(k, o) && !k.kind.OtherTable?)
    || (ReferredFrom(k, o, key) && !k.kind.OtherTable? && !k.kind.HybridTable?)
  }

  /** The cache holds the printed names of exactly these objects and columns. */
  ghost predicate Holds(t: Intentions, objects: set<Obj>, columns: set<ColumnName>) {
    && t.objects == (set k | k in objects :: (k.kind, k.FullName()))
    && t.columns == (set c | c in columns :: (Join(c.0, '.'), c.1))
  }

  predicate ValidKey(o: Obj, key: KeyInfo) {
    && o.Valid()
    && (o.kind.PrimaryKey? ==> o.arg.None?)
    && (o.kind.ForeignKey? ==> |key.refTable| == 3 && forall p | p in key.refTable :: Free(p, '.') && Free(p, '('))
  }

  predicate ValidColumn(c: ColumnName) {
    |c.0| == 3 && forall p | p in c.0 :: Free(p, '.')
  }

  lemma JoinInjective(a: seq<string>, b: seq<string>)
    requires |a| > 0 && |b| > 0
    requires forall p | p in a :: Free(p, '.')
    requires forall p | p in b :: Free(p, '.')
    ensures Join(a, '.') == Join(b, '.') <==> a == b
  {
    SplitJoin(a, '.');
    SplitJoin(b, '.');
  }

  /** Parsing a printed name gives back the parts of the dotted name. */
  lemma NameParts(path: seq<string>, suffix: string)
    requires |path| > 0 && forall p | p in path :: Free(p, '.') && Free(p, '(')
    requires suffix == "" || suffix[0] == '('
    ensures Split(Before(Join(path, '.') + suffix, '('), '.') == path
  {
    JoinFree(path, '.', '(');
    BeforeConcat(Join(path, '.'), suffix, '(');
    assert Before(suffix, '(') == "";
    assert Join(path, '.') + "" == Join(path, '.');
    SplitJoin(path, '.');
  }

  /** A container is in the cache under its printed name exactly when it is one of the objects. */
  lemma HoldsContainer(t: Intentions, objects: set<Obj>, columns: set<ColumnName>, kind: Kind, path: seq<string>)
    requires Holds(t, objects, columns) && forall k | k in objects :: k.Valid()
    requires kind.Database? || kind.Schema? || kind.Stage? || kind.IsTable()
    requires |path| == kind.PathLength() && forall p | p in path :: Free(p, '.') && Free(p, '(')
    ensures (kind, Join(path, '.')) in t.objects <==> Obj(kind, path, None) in objects
  {
    var o := Obj(kind, path, None);
    assert o.FullName() == Join(path, '.');
    if (kind, Join(path, '.')) in t.objects {
      var k :| k in objects && (k.kind, k.FullName()) == (kind, Join(path, '.'));
      assert k.FullName() == Join(k.path, '.');
      JoinInjective(k.path, path);
      assert k == o;
    }
  }

  lemma HoldsColumn(t: Intentions, objects: set<Obj>, columns: set<ColumnName>, table: seq<string>, cols: seq<string>)
    requires Holds(t, objects, columns) && forall c | c in columns :: ValidColumn(c)
    requires |table| == 3 && forall p | p in table :: Free(p, '.')
    ensures ColumnDropIntended(t, Join(table, '.'), cols) <==> exists c | c in columns :: c.0 == table && c.1 in cols
  {
    if ColumnDropIntended(t, Join(table, '.'), cols) {
      var col :| col in cols && (Join(table, '.'), col) in t.columns;
      var c :| c in columns && (Join(c.0, '.'), c.1) == (Join(table, '.'), col);
      JoinInjective(c.0, table);
    }
    if c :| c in columns && c.0 == table && c.1 in cols {
      assert (Join(c.0, '.'), c.1) in t.columns;
    }
  }

  /** The containers of an object with the given type and dotted name that the cache looks at. */
  predicate Watched(k: Obj, kind: Kind, path: seq<string>) {
    || (k.kind.Database? && (kind.Schema? || kind.DatabaseRole? || kind.InSchema()) && k.path == Take(path, 1))
    || (k.kind.Schema? && kind.InSchema() && k.path == Take(path, 2))
    || (k.kind.Stage? && kind.StageFile? && k.path == path)
    || ((k.kind.Table? || k.kind.ExternalTable? || k.kind.HybridTable?) && kind.IsConstraint() && k.path == path)
  }

  ghost predicate HasContainer(objects: set<Obj>, kind: Kind, path: seq<string>) {
    || ((kind.Schema? || kind.DatabaseRole? || kind.InSchema()) && Obj(Database, Take(path, 1), None) in objects)
    || (kind.InSchema() && Obj(Schema, Take(path, 2), None) in objects)
    || (kind.StageFile? && Obj(Stage, path, None) in objects)
    || (kind.IsConstraint()
        && (|| Obj(Table, path, None) in objects
            || Obj(ExternalTable, path, None) in objects
            || Obj(HybridTable, path, None) in objects))
  }

  lemma NamedMeansContainer(t: Intentions, objects: set<Obj>, columns: set<ColumnName>, kind: Kind, path: seq<string>)
    requires Holds(t, objects, columns) && forall k | k in objects :: k.Valid()
    requires |path| == kind.PathLength() && forall p | p in path :: Free(p, '.') && Free(p, '(')
    ensures ContainerDropIntended(t, kind, path) <==> HasContainer(objects, kind, path)
  {
    HoldsContainer(t, objects, columns, Database, Take(path, 1));
    if kind.Schema? || kind.InSchema() {
      HoldsContainer(t, objects, columns, Schema, Take(path, 2));
    }
    if kind.StageFile? {
      HoldsContainer(t, objects, columns, Stage, path);
    } else if kind.IsConstraint() {
      HoldsContainer(t, objects, columns, Table, path);
      HoldsContainer(t, objects, columns, ExternalTable, path);
      HoldsContainer(t, objects, columns, HybridTable, path);
    }
    assert |path| == 3 ==> Take(path, 3) == path;
  }

  /** The string check finds exactly the dropped containers. */
  lemma ParentMeansContainer(t: Intentions, objects: set<Obj>, columns: set<ColumnName>,
                             kind: Kind, path: seq<string>, suffix: string)
    requires Holds(t, objects, columns) && forall k | k in objects :: k.Valid()
    requires |path| == kind.PathLength() && forall p | p in path :: Free(p, '.') && Free(p, '(')
    requires suffix == "" || suffix[0] == '('
    ensures ParentDropIntended(t, kind, Join(path, '.') + suffix) <==> HasContainer(objects, kind, path)
  {
    NameParts(path, suffix);
    NamedMeansContainer(t, objects, columns, kind, path);
  }

  lemma ContainerMeansWatched(objects: set<Obj>, kind: Kind, path: seq<string>)
    requires forall k | k in objects :: k.Valid()
    ensures HasContainer(objects, kind, path) <==> exists k :: k in objects && Watched(k, kind, path)
  {
    if HasContainer(objects, kind, path) {
      if (kind.Schema? || kind.DatabaseRole? || kind.InSchema()) && Obj(Database, Take(path, 1), None) in objects {
        assert Watched(Obj(Database, Take(path, 1), None), kind, path);
      } else if kind.InSchema() && Obj(Schema, Take(path, 2), None) in objects {
        assert Watched(Obj(Schema, Take(path, 2), None), kind, path);
      } else if kind.StageFile? && Obj(Stage, path, None) in objects {
        assert Watched(Obj(Stage, path, None), kind, path);
      } else if Obj(Table, path, None) in objects {
        assert Watched(Obj(Table, path, None), kind, path);
      } else if Obj(ExternalTable, path, None) in objects {
        assert Watched(Obj(ExternalTable, path, None), kind, path);
      } else {
        assert Watched(Obj(HybridTable, path, None), kind, path);
      }
    }
    if k :| k in objects && Watched(k, kind, path) {
      assert k == Obj(k.kind, k.path, None);
    }
  }

  lemma SeenWithoutReference(objects: set<Obj>, o: Obj, key: KeyInfo)
    requires o.Valid() && !o.kind.ForeignKey?
    ensures forall k | k in objects :: Seen(k, o, key) <==> Watched(k, o.kind, o.path)
  {
  }

  lemma SeenWithReference(objects: set<Obj>, o: Obj, key: KeyInfo)
    requires o.Valid() && o.kind.ForeignKey?
    ensures forall k | k in objects :: Seen(k, o, key) <==>
              || Watched(k, o.kind, o.path)
              || Watched(k, Table, key.refTable)
              || ((k.kind.Table? || k.kind.ExternalTable?) && k.path == key.refTable)
  {
  }

  /** The extra conditions of a foreign key: its referenced table, or a container of that table. */
  ghost predicate ReferenceGone(t: Intentions, key: KeyInfo) {
    var refTable := Join(key.refTable, '.');
    || (Table, refTable) in t.objects
    || ParentDropIntended(t, Table, refTable)
    || (ExternalTable, refTable) in t.objects
    || ParentDropIntended(t, ExternalTable, refTable)
  }

  lemma ReferenceGoneMeans(t: Intentions, objects: set<Obj>, columns: set<ColumnName>, key: KeyInfo)
    requires Holds(t, objects, columns) && forall k | k in objects :: k.Valid()
    requires |key.refTable| == 3 && forall p | p in key.refTable :: Free(p, '.') && Free(p, '(')
    ensures ReferenceGone(t, key) <==>
            exists k :: k in objects && (Watched(k, Table, key.refTable)
                                         || ((k.kind.Table? || k.kind.ExternalTable?) && k.path == key.refTable))
  {
    var path := key.refTable;
    assert Join(path, '.') + "" == Join(path, '.');
    ParentMeansContainer(t, objects, columns, Table, path, "");
    ParentMeansContainer(t, objects, columns, ExternalTable, path, "");
    ContainerMeansWatched(objects, Table, path);
    HoldsContainer(t, objects, columns, Table, path);
    HoldsContainer(t, objects, columns, ExternalTable, path);
    assert HasContainer(objects, Table, path) == HasContainer(objects, ExternalTable, path);
    if ReferenceGone(t, key) && !HasContainer(objects, Table, path) {
      assert Obj(Table, path, None) in objects || Obj(ExternalTable, path, None) in objects;
    }
    if k :| k in objects && (k.kind.Table? || k.kind.ExternalTable?) && k.path == path {
      assert k == Obj(k.kind, path, None);
    }
  }

  /** What `_check_implicit_drop_intention` answers, on objects instead of names: the object goes away
      with a dropped object, or with a dropped column, that the cache knows about. */
  lemma ImplicitMeansSeen(t: Intentions, objects: set<Obj>, columns: set<ColumnName>, o: Obj, key: KeyInfo)
    requires Holds(t, objects, columns)
    requires (forall k | k in objects :: k.Valid()) && (forall c | c in columns :: ValidColumn(c)) && ValidKey(o, key)
    ensures ImplicitDropIntended(t, o, key) <==>
            || (exists k :: k in objects && Seen(k, o, key))
            || (exists c :: c in columns && ColumnCascades(c.0, c.1, o, key))
  {
    var suffix := match o.arg case None => "" case Some(a) => "(" + a + ")";
    ParentMeansContainer(t, objects, columns, o.kind, o.path, suffix);
    ContainerMeansWatched(objects, o.kind, o.path);
    if o.kind.PrimaryKey? || o.kind.UniqueKey? || o.kind.ForeignKey? {
      assert o.kind.PrimaryKey? ==> o.FullName() == Join(o.path, '.') by {
        assert Join(o.path, '.') + "" == Join(o.path, '.');
      }
      HoldsColumn(t, objects, columns, o.path, key.columns);
    }
    if o.kind.ForeignKey? {
      HoldsColumn(t, objects, columns, key.refTable, key.refColumns);
      ReferenceGoneMeans(t, objects, columns, key);
      SeenWithReference(objects, o, key);
    } else {
      SeenWithoutReference(objects, o, key);
    }
  }
}
