/** What one resolver does with each name, and the two passes over functions: `resolve`,
    `_resolve_drop` on its three levels, `_resolve_create_compare`, and the batches of `FunctionResolver` and
    `ViewDependentFunctionResolver`. */
module ObjectRuns {
  import opened Basics
  import opened Batching
  import IntentionCache
  import opened Strings

  datatype Action = Skip | Create | Compare | Drop

  datatype Task = Task(name: Name, action: Action)

  datatype Database = Database(isSandbox: bool)

  datatype Schema = Schema(isUnmanaged: bool, isSandbox: bool)

  /** `".".join(full_name.split(".")[:count])` */
  function Prefix(n: Name, count: nat): Name {
    var parts := Split(n, '.');
    Join(if |parts| > count then parts[..count] else parts, '.')
  }

  /** What a resolver resolves: things of the account, schemas, or things in schemas. */
  datatype Level = OfAccount | OfSchemas | OfObjects

  /** The declared containers. */
  datatype Containers = Containers(databases: map<Name, Database>, schemas: map<Name, Schema>)

  /** The names a resolver works on, the objects that have them, and the drop intentions of the resolvers before. */
  datatype Names = Names(
    level: Level, containers: Containers, existing: map<Name, IntentionCache.Obj>,
    keys: map<Name, IntentionCache.KeyInfo>, blueprints: set<Name>, cache: IntentionCache.Intentions)
  {
    /** `_check_implicit_drop_intention`. */
    predicate IsImplied(n: Name)
      requires n in existing
    {
      var key := if n in keys then keys[n] else IntentionCache.KeyInfo([], [], []);
      IntentionCache.ImplicitDropIntended(cache, existing[n], key)
    }

    /** `_is_unmanaged_blueprint`: a schema by itself, an object by its schema. */
    predicate IsUnmanaged(n: Name) {
      !level.OfAccount? && Prefix(n, 2) in containers.schemas && containers.schemas[Prefix(n, 2)].isUnmanaged
    }

    /** In a sandbox, or in a container without a blueprint, which goes away with its own drop. */
    predicate IsLeftAlone(n: Name) {
      match level
      case OfAccount => false
      case OfSchemas => Prefix(n, 1) in containers.databases ==> containers.databases[Prefix(n, 1)].isSandbox
      case OfObjects => Prefix(n, 2) in containers.schemas ==> containers.schemas[Prefix(n, 2)].isSandbox
    }

    predicate IsDropped(n: Name) {
      n in existing && n !in blueprints && !IsImplied(n) && !IsLeftAlone(n)
    }

    function ActionFor(n: Name): Action {
      if IsUnmanaged(n) then Skip else if n in existing then Compare else Create
    }
  }

  /** Of a dotted name these are the database, and the schema.  The last part may show arguments. */
  lemma PrefixOfName(parts: seq<string>)
    requires |parts| >= 2 && forall p | p in parts :: Free(p, '.')
    ensures Prefix(Join(parts, '.'), 1) == parts[0]
    ensures Prefix(Join(parts, '.'), 2) == parts[0] + "." + parts[1]
  {
    SplitJoin(parts, '.');
    assert parts[..1] == [parts[0]];
    assert parts[..2] == [parts[0], parts[1]];
    assert |parts| == 2 ==> parts == [parts[0], parts[1]];
    JoinTwo(parts[0], parts[1]);
  }

  lemma JoinTwo(a: string, b: string)
    ensures Join([a, b], '.') == a + "." + b
  {
  }

  /** Every name is the name of at most one task. */
  ghost predicate Once(log: seq<Task>) {
    forall i: nat, j: nat | i < j < |log| :: log[i].name != log[j].name
  }

  predicate Mentions(log: seq<Task>, n: Name) {
    exists t | t in log :: t.name == n
  }

  lemma OnceAppend(log: seq<Task>, t: Task)
    requires Once(log) && !Mentions(log, t.name)
    ensures Once(log + [t])
  {
    forall i: nat, j: nat | i < j < |log + [t]|
      ensures (log + [t])[i].name != (log + [t])[j].name
    {
      if j == |log| {
        assert log[i] in log;
      }
    }
  }

  class Resolver {
    const names: Names
    var log: seq<Task>
    var resolvedObjects: map<Name, Action>

    constructor (names: Names)
      ensures this.names == names && log == [] && resolvedObjects == map[]
    {
      this.names := names;
      log, resolvedObjects := [], map[];
    }

    /** The log and the results agree, and no name comes twice. */
    ghost predicate Valid()
      reads this
    {
      && Once(log)
      && (forall t | t in log :: t.name in resolvedObjects && resolvedObjects[t.name] == t.action)
      && (forall n | n in resolvedObjects :: Task(n, resolvedObjects[n]) in log)
    }

    method Process(n: Name, action: Action)
      requires Valid() && n !in resolvedObjects
      modifies this
      ensures Valid() && log == old(log) + [Task(n, action)]
    {
      OnceAppend(log, Task(n, action));
      log := log + [Task(n, action)];
      resolvedObjects := resolvedObjects[n := action];
    }

    method ResolveDrop()
      requires Valid() && log == []
      modifies this
      ensures Valid() && forall t :: t in log <==> names.IsDropped(t.name) && t.action == Drop
    {
      var todo := names.existing.Keys;
      while todo != {}
        invariant Valid() && todo <= names.existing.Keys
        invariant forall t :: t in log <==> names.IsDropped(t.name) && t.action == Drop && t.name !in todo
        decreases |todo|
      {
        var n :| n in todo;
        todo := todo - {n};
        if n in names.blueprints || names.IsImplied(n) {
          continue;
        }
        if names.IsLeftAlone(n) {
          continue;
        }
        assert n !in resolvedObjects;
        Process(n, Drop);
      }
    }

    method ResolveBatch(batch: seq<Name>)
      requires Valid()
      requires forall n | n in batch :: n !in resolvedObjects
      modifies this
      ensures Valid() && old(log) <= log
      ensures forall t :: t in log <==> t in old(log) || (t.name in batch && t.action == names.ActionFor(t.name))
    {
      var todo := set n | n in batch;
      while todo != {}
        invariant Valid() && old(log) <= log && forall n | n in todo :: n in batch && n !in resolvedObjects
        invariant forall t :: t in log <==>
          t in old(log) || (t.name in batch && t.name !in todo && t.action == names.ActionFor(t.name))
        decreases |todo|
      {
        var n :| n in todo;
        todo := todo - {n};
        if names.IsUnmanaged(n) {
          Process(n, Skip);
        } else if n in names.existing {
          Process(n, Compare);
        } else {
          Process(n, Create);
        }
      }
    }

    method ResolveCreateCompare(batches: seq<seq<Name>>)
      requires Valid()
      requires forall k, n | 0 <= k < |batches| && n in batches[k] :: n !in resolvedObjects
      requires forall j, k, n | 0 <= j < k < |batches| && n in batches[j] :: n !in batches[k]
      modifies this
      ensures Valid() && old(log) <= log
      ensures forall t :: t in log <==>
        t in old(log) || (InBatches(batches, t.name) && t.action == names.ActionFor(t.name))
    {
      for k := 0 to |batches|
        invariant Valid() && old(log) <= log
        invariant forall t :: t in log <==>
          t in old(log) || (InBatches(batches[..k], t.name) && t.action == names.ActionFor(t.name))
      {
        forall n | n in batches[k]
          ensures n !in resolvedObjects
        {
        }
        InBatchesStep(batches, k);
        ResolveBatch(batches[k]);
      }
      assert batches[..|batches|] == batches;
    }

    /** `resolve`: every name gets exactly one result.  Undeclared names are dropped or left alone, and
        of the declared ones those in batches are skipped, compared or created. */
    method Resolve(batches: seq<seq<Name>>, drops: bool)
      requires Valid() && log == []
      requires forall k, n | 0 <= k < |batches| && n in batches[k] :: n in names.blueprints
      requires forall j, k, n | 0 <= j < k < |batches| && n in batches[j] :: n !in batches[k]
      modifies this
      ensures Valid()
      ensures forall t :: t in log <==>
        || (InBatches(batches, t.name) && t.action == names.ActionFor(t.name))
        || (drops && names.IsDropped(t.name) && t.action == Drop)
    {
      if drops {
        ResolveDrop();
      }
      forall k, n | 0 <= k < |batches| && n in batches[k]
        ensures n !in resolvedObjects
      {
      }
      ResolveCreateCompare(batches);
    }
  }

  predicate InBatches(batches: seq<seq<Name>>, n: Name) {
    exists k: nat :: k < |batches| && n in batches[k]
  }

  lemma InBatchesStep(batches: seq<seq<Name>>, k: nat)
    requires k < |batches|
    ensures forall n :: InBatches(batches[..k + 1], n) <==> InBatches(batches[..k], n) || n in batches[k]
  {
    forall n
      ensures InBatches(batches[..k + 1], n) <==> InBatches(batches[..k], n) || n in batches[k]
    {
      if InBatches(batches[..k + 1], n) {
        var j: nat :| j < |batches[..k + 1]| && n in batches[..k + 1][j];
        assert j < k ==> n in batches[..k][j];
      }
      if InBatches(batches[..k], n) {
        var j: nat :| j < |batches[..k]| && n in batches[..k][j];
        assert n in batches[..k + 1][j];
      }
      if n in batches[k] {
        assert n in batches[..k + 1][k];
      }
    }
  }

  /** The name is in a declared schema that is flagged as unmanaged, or is that schema. */
  predicate InUnmanagedSchema(names: Names, n: Name) {
    var schema := Prefix(n, 2);
    && (names.level == OfSchemas || names.level == OfObjects)
    && schema in names.containers.schemas && names.containers.schemas[schema].isUnmanaged
  }

  /** Its container, if it has one, is declared and is not a sandbox. */
  predicate InOpenContainer(names: Names, n: Name) {
    var databases, schemas := names.containers.databases, names.containers.schemas;
    && (names.level == OfSchemas ==> Prefix(n, 1) in databases && !databases[Prefix(n, 1)].isSandbox)
    && (names.level == OfObjects ==> Prefix(n, 2) in schemas && !schemas[Prefix(n, 2)].isSandbox)
  }

  /** The columns of a key and what it refers to; nothing for other objects. */
  function KeyOf(names: Names, n: Name): IntentionCache.KeyInfo {
    if n in names.keys then names.keys[n] else IntentionCache.KeyInfo([], [], [])
  }

  /** A whole run of a resolver with dependency batches: the blueprints are split, and every name gets its one
      result. */
  method RunResolver(names: Names, b: Blueprints) returns (log: seq<Task>)
    requires b.Valid() && names.blueprints == SetOf(b.names)
    ensures Once(log)
    ensures forall n :: Task(n, Skip) in log <==> n in b.names && InUnmanagedSchema(names, n)
    ensures forall n :: Task(n, Compare) in log <==>
      n in b.names && !InUnmanagedSchema(names, n) && n in names.existing
    ensures forall n :: Task(n, Create) in log <==>
      n in b.names && !InUnmanagedSchema(names, n) && n !in names.existing
    ensures forall n :: Task(n, Drop) in log <==>
      && n !in b.names && n in names.existing && InOpenContainer(names, n)
      && !IntentionCache.ImplicitDropIntended(names.cache, names.existing[n], KeyOf(names, n))
  {
    log := RunBatches(names, b);
  }

  method RunBatches(names: Names, b: Blueprints) returns (log: seq<Task>)
    requires b.Valid() && names.blueprints == SetOf(b.names)
    ensures Once(log)
    ensures forall t :: t in log <==>
        || (t.name in b.names && t.action == names.ActionFor(t.name))
        || (names.IsDropped(t.name) && t.action == Drop)
  {
    var batches := SplitBlueprintsIntoBatches(b);
    var resolver := new Resolver(names);
    forall n
      ensures InBatches(batches, n) <==> n in b.names
    {
      assert n in SetOf(b.names) <==> exists k :: 0 <= k < |batches| && n in batches[k];
    }
    forall k, n | 0 <= k < |batches| && n in batches[k]
      ensures n in SetOf(b.names)
    {
    }
    resolver.Resolve(batches, true);
    log := resolver.log;
  }

  // ---------------------------------------------------------------------------------------------
  // Functions, before and after views
  // ---------------------------------------------------------------------------------------------

  /** A resolver among those that functions and views have. */
  datatype Pass = Functions | Views | DeferredFunctions

  datatype Entry = Entry(pass: Pass, task: Task)

  function Tagged(pass: Pass, log: seq<Task>): (entries: seq<Entry>)
    ensures |entries| == |log| && forall i: nat | i < |log| :: entries[i] == Entry(pass, log[i])
  {
    seq(|log|, i requires 0 <= i < |log| => Entry(pass, log[i]))
  }

  /** The tasks of one pass all come before those of another. */
  ghost predicate Before(log: seq<Entry>, first: Pass, second: Pass) {
    forall i: nat, j: nat | i < |log| && j < |log| && log[i].pass == first && log[j].pass == second :: i < j
  }

  lemma InTagged(pass: Pass, log: seq<Task>, e: Entry)
    ensures e in Tagged(pass, log) <==> e.pass == pass && e.task in log
  {
    if e.pass == pass && e.task in log {
      var i: nat :| i < |log| && log[i] == e.task;
      assert Tagged(pass, log)[i] == e;
    }
  }

  lemma Ordered(a: seq<Task>, b: seq<Task>, c: seq<Task>)
    ensures var log := Tagged(Functions, a) + Tagged(Views, b) + Tagged(DeferredFunctions, c);
      && Before(log, Functions, Views) && Before(log, Views, DeferredFunctions)
      && Before(log, Functions, DeferredFunctions)
  {
  }

  /** What the passes of functions and views are given.  Every resolver lists the account when its turn comes,
      and finds the drop intentions of the resolvers before it. */
  datatype Passes = Passes(functions: Names, views: Names, deferredFunctions: Names)

  /** The second pass has the deferred functions only. */
  predicate ValidPasses(p: Passes, declared: seq<Name>, deferred: set<Name>, views: Blueprints) {
    && p.functions.blueprints == SetOf(declared) && p.views.blueprints == SetOf(views.names)
    && p.deferredFunctions.blueprints == deferred
  }

  /** The two passes over functions, with the views between them.  The second one is left out if no function
      waits for a view.  A declared function gets its one result in the pass it belongs to, and only
      undeclared functions are dropped, all of them before the views. */
  method RunFunctions(p: Passes, declared: seq<Name>, deferred: set<Name>, views: Blueprints)
    returns (log: seq<Entry>)
    requires views.Valid() && ValidPasses(p, declared, deferred, views) && deferred <= SetOf(declared)
    requires forall i: nat, j: nat | i < j < |declared| :: declared[i] != declared[j]
    ensures forall t :: Entry(Functions, t) in log <==>
      || (t.name in declared && t.name !in deferred && t.action == p.functions.ActionFor(t.name))
      || (p.functions.IsDropped(t.name) && t.action == Drop)
    ensures forall t :: Entry(Views, t) in log <==>
      || (t.name in views.names && t.action == p.views.ActionFor(t.name))
      || (p.views.IsDropped(t.name) && t.action == Drop)
    ensures forall t :: Entry(DeferredFunctions, t) in log <==>
      t.name in deferred && t.action == p.deferredFunctions.ActionFor(t.name)
    ensures Before(log, Functions, Views) && Before(log, Views, DeferredFunctions)
    ensures Before(log, Functions, DeferredFunctions)
    ensures forall i: nat, j: nat | i < j < |log| && log[i].pass == log[j].pass :: log[i].task.name != log[j].task.name
  {
    var first := RunFirst(p.functions, declared, deferred);
    var between := RunBatches(p.views, views);
    var second := RunDeferred(p.deferredFunctions, declared, deferred);
    log := Tagged(Functions, first) + Tagged(Views, between) + Tagged(DeferredFunctions, second);
    Ordered(first, between, second);
    OncePerPass(first, between, second);
    forall e
      ensures e in log <==>
        || (e.pass == Functions && e.task in first) || (e.pass == Views && e.task in between)
        || (e.pass == DeferredFunctions && e.task in second)
    {
      InTagged(Functions, first, e);
      InTagged(Views, between, e);
      InTagged(DeferredFunctions, second, e);
    }
  }

  lemma OncePerPass(a: seq<Task>, b: seq<Task>, c: seq<Task>)
    requires Once(a) && Once(b) && Once(c)
    ensures var log := Tagged(Functions, a) + Tagged(Views, b) + Tagged(DeferredFunctions, c);
      forall i: nat, j: nat | i < j < |log| && log[i].pass == log[j].pass :: log[i].task.name != log[j].task.name
  {
  }

  /** `FunctionResolver`: all functions are declared to it, and those that wait for no view are its batch. */
  method RunFirst(names: Names, declared: seq<Name>, deferred: set<Name>) returns (log: seq<Task>)
    requires names.blueprints == SetOf(declared)
    requires forall i: nat, j: nat | i < j < |declared| :: declared[i] != declared[j]
    ensures Once(log)
    ensures forall t :: t in log <==>
      || (t.name in declared && t.name !in deferred && t.action == names.ActionFor(t.name))
      || (names.IsDropped(t.name) && t.action == Drop)
  {
    var functions := new Resolver(names);
    var batch := Filter(declared, SetOf(declared) - deferred);
    OneBatch(batch);
    functions.Resolve([batch], true);
    log := functions.log;
  }

  /** `ViewDependentFunctionResolver`: skipped without blueprints, and drops nothing. */
  method RunDeferred(names: Names, declared: seq<Name>, deferred: set<Name>) returns (log: seq<Task>)
    requires names.blueprints == deferred <= SetOf(declared)
    requires forall i: nat, j: nat | i < j < |declared| :: declared[i] != declared[j]
    ensures Once(log)
    ensures forall t :: t in log <==> t.name in deferred && t.action == names.ActionFor(t.name)
  {
    log := [];
    if deferred != {} {
      var functions := new Resolver(names);
      var batch := Filter(declared, deferred);
      OneBatch(batch);
      functions.Resolve([batch], false);
      log := functions.log;
    }
  }

  lemma OneBatch(batch: seq<Name>)
    ensures forall n :: InBatches([batch], n) <==> n in batch
  {
    forall n
      ensures InBatches([batch], n) <==> n in batch
    {
      assert [batch][0] == batch;
    }
  }
}
