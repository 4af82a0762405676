/** The guard of applies: no apply writes an object backwards in the history of the configuration.

    Every apply reads the latest stamp of each object once, at load, and appends its own stamps once,
    at flush.  Applies of different clones are serialised; the log of stamps is what they share. */
module RevisionGuard {
  import opened Basics

  type Sha = string
  type Name = string

  /** The commits somebody knows, with their parents. */
  type Commits = map<Sha, set<Sha>>

  ghost predicate Lineage(g: Commits, p: seq<Sha>) {
    |p| > 0 && forall i | 0 <= i < |p| - 1 :: p[i] in g && p[i + 1] in g[p[i]]
  }

  /** `a` is `b` or an ancestor of it. */
  ghost predicate Ancestor(g: Commits, a: Sha, b: Sha) {
    exists p :: Lineage(g, p) && p[0] == b && p[|p| - 1] == a
  }

  /** A clone knows a part of the history, maybe with some parents cut off. */
  ghost predicate PartOf(clone: Commits, g: Commits) {
    forall x | x in clone :: x in g && clone[x] <= g[x]
  }

  /** What git answers in a clone: `None` when the recorded commit is not there. */
  ghost function Answer(clone: Commits, recorded: Sha, head: Sha): Option<bool> {
    if recorded !in clone then None else Some(head in clone && Ancestor(clone, recorded, head))
  }

  lemma Reflexive(g: Commits, a: Sha)
    ensures Ancestor(g, a, a)
  {
    assert Lineage(g, [a]) && [a][0] == a && [a][|[a]| - 1] == a;
  }

  lemma Transitive(g: Commits, a: Sha, b: Sha, c: Sha)
    requires Ancestor(g, a, b) && Ancestor(g, b, c)
    ensures Ancestor(g, a, c)
  {
    var p :| Lineage(g, p) && p[0] == c && p[|p| - 1] == b;
    var q :| Lineage(g, q) && q[0] == b && q[|q| - 1] == a;
    var r := p + q[1..];
    forall i | 0 <= i < |r| - 1
      ensures r[i] in g && r[i + 1] in g[r[i]]
    {
      if i >= |p| - 1 {
        assert r[i] == q[i - (|p| - 1)] && r[i + 1] == q[i + 1 - (|p| - 1)];
      } else {
        assert r[i] == p[i] && r[i + 1] == p[i + 1];
      }
    }
    assert Lineage(g, r) && r[0] == c && r[|r| - 1] == a;
  }

  /** What a clone can prove holds in the whole history. */
  lemma CloneIsSound(clone: Commits, g: Commits, a: Sha, b: Sha)
    requires PartOf(clone, g) && Ancestor(clone, a, b)
    ensures Ancestor(g, a, b)
  {
    var p :| Lineage(clone, p) && p[0] == b && p[|p| - 1] == a;
    assert Lineage(g, p);
  }

  // ---------------------------------------------------------------------------------------------
  // The guard
  // ---------------------------------------------------------------------------------------------

  /** An object.  Objects of different types can share a full name: a table and its primary key, a
      function and a procedure, a table and a stage. */
  datatype ObjectId = ObjectId(objectType: string, name: Name)

  /** A row of the revision table. */
  datatype Stamp = Stamp(id: ObjectId, sha: Sha, overrideReason: Option<string>)

  /** What the check does: return, return with a warning (on plan), or raise. */
  datatype Outcome = Proceed | WouldRefuse | Refuse

  /** The latest stamp of each full name.  The view over the revision table is not part of this model; it
      is taken to show one row per full name, the latest, as the guard keeps one row per full name. */
  function Latest(log: seq<Stamp>): map<Name, Sha> {
    if log == [] then map[] else Latest(log[..|log| - 1])[log[|log| - 1].id.name := log[|log| - 1].sha]
  }

  predicate Recorded(result: ResolveResult) {
    result == CREATE || result == REPLACE
  }

  /** The verdict on one full name, without the cache. */
  function Verdict(enabled: bool, stamps: map<Name, Sha>, head: Sha, reason: Option<string>, execute: bool,
                   git: Sha -> Option<bool>, name: Name): Outcome
  {
    if !enabled || name !in stamps || stamps[name] == "" || stamps[name] == head || reason.Some? then Proceed
    else if git(stamps[name]) == Some(true) then Proceed
    else if execute then Refuse
    else WouldRefuse
  }

  class Guard {
    const head: Sha
    const overrideReason: Option<string>
    const executeSafeDdl: bool
    const git: Sha -> Option<bool>

    var enabled: bool
    var stamps: map<Name, Sha>
    var records: seq<ObjectId>
    var ancestryCache: map<Sha, Option<bool>>

    /** Every cached verdict is the one git would give now. */
    ghost predicate Valid()
      reads this
    {
      forall sha | sha in ancestryCache :: ancestryCache[sha] == git(sha)
    }

    constructor (head: Sha, overrideReason: Option<string>, executeSafeDdl: bool, git: Sha -> Option<bool>)
      ensures Valid() && !enabled && records == [] && stamps == map[]
      ensures this.head == head && this.overrideReason == overrideReason
      ensures this.executeSafeDdl == executeSafeDdl && this.git == git
    {
      // An empty reason counts as none; the caller passes it as None.
      this.head, this.overrideReason, this.executeSafeDdl, this.git := head, overrideReason, executeSafeDdl, git;
      enabled, stamps, records, ancestryCache := false, map[], [], map[];
    }

    /** `load`: reads the stamps, or leaves the guard disabled. */
    method Load(hasDatabase: bool, isResolvable: bool, isReadable: bool, log: seq<Stamp>)
      requires Valid() && !enabled
      modifies this`enabled, this`stamps
      ensures enabled == (hasDatabase && isResolvable && isReadable)
      ensures stamps == if enabled then Latest(log) else old(stamps)
    {
      if !hasDatabase || !isResolvable || !isReadable {
        return;
      }
      stamps := map[];
      for i := 0 to |log|
        invariant stamps == Latest(log[..i])
      {
        stamps := stamps[log[i].id.name := log[i].sha];
        assert log[..i + 1][..i] == log[..i];
      }
      assert log[..|log|] == log;
      enabled := true;
    }

    /** `_ancestry`: the cache never changes the answer. */
    method Ancestry(recorded: Sha) returns (result: Option<bool>)
      requires Valid()
      modifies this`ancestryCache
      ensures Valid() && result == git(recorded)
    {
      if recorded in ancestryCache {
        return ancestryCache[recorded];
      }
      result := git(recorded);
      ancestryCache := ancestryCache[recorded := result];
    }

    /** `check`: stamps are looked up by full name, whatever the type of the object. */
    method Check(id: ObjectId) returns (outcome: Outcome)
      requires Valid()
      modifies this`ancestryCache
      ensures Valid()
      ensures outcome == Verdict(enabled, stamps, head, overrideReason, executeSafeDdl, git, id.name)
    {
      if !enabled {
        return Proceed;
      }
      if id.name !in stamps {
        return Proceed;
      }
      var recorded := stamps[id.name];
      if recorded == "" || recorded == head {
        return Proceed;
      }
      if overrideReason.Some? {
        return Proceed;
      }
      var verdict := Ancestry(recorded);
      if verdict == Some(true) {
        return Proceed;
      }
      if !executeSafeDdl {
        return WouldRefuse;
      }
      return Refuse;
    }

    /** `record`: only results that mean the body was written. */
    method Record(id: ObjectId, result: ResolveResult)
      modifies this`records
      ensures records == old(records) + if enabled && Recorded(result) then [id] else []
    {
      if !enabled || !Recorded(result) {
        return;
      }
      records := records + [id];
    }

    /** `flush`: one insert of all records, and nothing on plan. */
    method Flush(log: seq<Stamp>) returns (log': seq<Stamp>)
      ensures log' == log + if executeSafeDdl then Stamps(records, head, overrideReason) else []
    {
      if records == [] || !executeSafeDdl {
        return log;
      }
      log' := log;
      for i := 0 to |records|
        invariant log' == log + Stamps(records[..i], head, overrideReason)
      {
        log' := log' + [Stamp(records[i], head, overrideReason)];
        assert records[..i + 1][..i] == records[..i];
      }
      assert records[..|records|] == records;
    }
  }

  function Stamps(ids: seq<ObjectId>, head: Sha, reason: Option<string>): (s: seq<Stamp>)
    ensures |s| == |ids| && forall i | 0 <= i < |s| :: s[i] == Stamp(ids[i], head, reason)
  {
    if ids == [] then [] else Stamps(ids[..|ids| - 1], head, reason) + [Stamp(ids[|ids| - 1], head, reason)]
  }

  // ---------------------------------------------------------------------------------------------
  // A whole apply or plan
  // ---------------------------------------------------------------------------------------------

  /** One object to resolve, and the result its create or compare would have. */
  datatype Task = Task(id: ObjectId, result: ResolveResult)

  /** One invocation: the clone it runs from, its settings, and its tasks in the order they happen to run. */
  datatype Invocation = Invocation(
    clone: Commits, head: Sha, overrideReason: Option<string>, execute: bool,
    hasDatabase: bool, isResolvable: bool, isReadable: bool, tasks: seq<Task>)
  {
    predicate Enabled() {
      hasDatabase && isResolvable && isReadable
    }

    /** A working copy that can answer questions has a revision. */
    predicate Valid() {
      isResolvable ==> head != ""
    }
  }

  function VerdictOf(v: Invocation, log: seq<Stamp>, git: Sha -> Option<bool>, name: Name): Outcome {
    Verdict(v.Enabled(), if v.Enabled() then Latest(log) else map[], v.head, v.overrideReason, v.execute, git, name)
  }

  /** The objects stamped by the tasks: those that were not refused and wrote the body. */
  function Written(v: Invocation, log: seq<Stamp>, git: Sha -> Option<bool>, tasks: seq<Task>): (ids: seq<ObjectId>)
    ensures forall id | id in ids :: VerdictOf(v, log, git, id.name) != Refuse
  {
    if tasks == [] then []
    else
      var t := tasks[|tasks| - 1];
      Written(v, log, git, tasks[..|tasks| - 1])
      + if v.Enabled() && VerdictOf(v, log, git, t.id.name) != Refuse && Recorded(t.result) then [t.id] else []
  }

  function AfterInvocation(v: Invocation, log: seq<Stamp>, git: Sha -> Option<bool>): seq<Stamp> {
    log + if v.execute then Stamps(Written(v, log, git, v.tasks), v.head, v.overrideReason) else []
  }

  ghost predicate GitOf(v: Invocation, git: Sha -> Option<bool>) {
    forall sha :: git(sha) == Answer(v.clone, sha, v.head)
  }

  /** The objects of the tasks that are refused, or of those that are not. */
  function Refused(v: Invocation, log: seq<Stamp>, git: Sha -> Option<bool>, refused: bool,
                   tasks: seq<Task>): seq<ObjectId>
  {
    if tasks == [] then []
    else
      var t := tasks[|tasks| - 1];
      Refused(v, log, git, refused, tasks[..|tasks| - 1])
      + if (VerdictOf(v, log, git, t.id.name) == Refuse) == refused then [t.id] else []
  }

  lemma {:induction false} RefusedMeans(v: Invocation, log: seq<Stamp>, git: Sha -> Option<bool>, refused: bool,
                                        tasks: seq<Task>, id: ObjectId)
    ensures id in Refused(v, log, git, refused, tasks) <==>
            Asked(tasks, id) && (VerdictOf(v, log, git, id.name) == Refuse) == refused
    decreases |tasks|
  {
    if tasks != [] {
      var t := tasks[|tasks| - 1];
      RefusedMeans(v, log, git, refused, tasks[..|tasks| - 1], id);
      assert tasks == tasks[..|tasks| - 1] + [t];
    }
  }

  ghost predicate Asked(tasks: seq<Task>, id: ObjectId) {
    exists t :: t in tasks && t.id == id
  }

  lemma EachOnce(v: Invocation, log: seq<Stamp>, git: Sha -> Option<bool>)
    ensures var refused, ddl := Refused(v, log, git, true, v.tasks), Refused(v, log, git, false, v.tasks);
      && (forall id :: id in refused <==> Asked(v.tasks, id) && VerdictOf(v, log, git, id.name) == Refuse)
      && (forall id :: id in ddl <==> Asked(v.tasks, id) && id !in refused)
      && (forall id | id in refused :: v.execute && id !in Written(v, log, git, v.tasks))
  {
    forall id
      ensures id in Refused(v, log, git, true, v.tasks) <==>
              Asked(v.tasks, id) && VerdictOf(v, log, git, id.name) == Refuse
      ensures id in Refused(v, log, git, false, v.tasks) <==>
              Asked(v.tasks, id) && VerdictOf(v, log, git, id.name) != Refuse
    {
      RefusedMeans(v, log, git, true, v.tasks, id);
      RefusedMeans(v, log, git, false, v.tasks, id);
    }
  }

  /** Some task creates or replaces the object. */
  ghost predicate WritesBody(tasks: seq<Task>, id: ObjectId) {
    exists t :: t in tasks && t.id == id && (t.result == CREATE || t.result == REPLACE)
  }

  lemma {:induction false} InWritten(v: Invocation, log: seq<Stamp>, git: Sha -> Option<bool>, tasks: seq<Task>,
                                     id: ObjectId)
    ensures id in Written(v, log, git, tasks) <==>
            v.Enabled() && VerdictOf(v, log, git, id.name) != Refuse && WritesBody(tasks, id)
    decreases |tasks|
  {
    if tasks != [] {
      InWritten(v, log, git, tasks[..|tasks| - 1], id);
      assert tasks == tasks[..|tasks| - 1] + [tasks[|tasks| - 1]];
    }
  }

  /** The stamps of an invocation. */
  lemma NewStamps(v: Invocation, log: seq<Stamp>, git: Sha -> Option<bool>, refused: seq<ObjectId>)
    requires forall id :: id in refused <==> Asked(v.tasks, id) && VerdictOf(v, log, git, id.name) == Refuse
    ensures log <= AfterInvocation(v, log, git)
    ensures forall s :: s in AfterInvocation(v, log, git)[|log|..] <==>
              && s.sha == v.head && s.overrideReason == v.overrideReason
              && v.execute && v.hasDatabase && v.isResolvable && v.isReadable
              && s.id !in refused && WritesBody(v.tasks, s.id)
  {
    var stamps := if v.execute then Stamps(Written(v, log, git, v.tasks), v.head, v.overrideReason) else [];
    assert AfterInvocation(v, log, git)[|log|..] == stamps;
    forall s
      ensures s in stamps <==>
              && s.sha == v.head && s.overrideReason == v.overrideReason
              && v.execute && v.hasDatabase && v.isResolvable && v.isReadable
              && s.id !in refused && WritesBody(v.tasks, s.id)
    {
      InWritten(v, log, git, v.tasks, s.id);
      if v.execute {
        InStamps(Written(v, log, git, v.tasks), v.head, v.overrideReason, s);
      }
    }
  }

  lemma InStamps(ids: seq<ObjectId>, head: Sha, reason: Option<string>, s: Stamp)
    ensures s in Stamps(ids, head, reason) <==> s.id in ids && s.sha == head && s.overrideReason == reason
  {
    if s.id in ids && s.sha == head && s.overrideReason == reason {
      var i: nat :| i < |ids| && ids[i] == s.id;
      assert Stamps(ids, head, reason)[i] == s;
    }
  }

  /** Results that write no body leave the log as it was. */
  lemma {:induction false} OtherResultsLeaveNoStamp(v: Invocation, log: seq<Stamp>, git: Sha -> Option<bool>)
    requires forall t | t in v.tasks :: t.result != CREATE && t.result != REPLACE
    ensures AfterInvocation(v, log, git) == log
  {
    if Written(v, log, git, v.tasks) != [] {
      InWritten(v, log, git, v.tasks, Written(v, log, git, v.tasks)[0]);
    }
    assert log + [] == log;
  }

  /** The guard is loaded from `log` for this invocation. */
  ghost predicate Serves(guard: Guard, v: Invocation, log: seq<Stamp>, git: Sha -> Option<bool>)
    reads guard
  {
    && guard.Valid()
    && guard.enabled == v.Enabled() && guard.stamps == (if v.Enabled() then Latest(log) else map[])
    && guard.head == v.head && guard.overrideReason == v.overrideReason
    && guard.executeSafeDdl == v.execute && guard.git == git
  }

  /** The entry points of all resolvers of one invocation: check, then create or compare, then record.
      Every object of the tasks is either refused, and gets no DDL and no stamp, or gets its DDL; a plan
      refuses none. */
  method Invoke(v: Invocation, log: seq<Stamp>, git: Sha -> Option<bool>)
    returns (log': seq<Stamp>, ddl: seq<ObjectId>, refused: seq<ObjectId>)
    ensures log' == AfterInvocation(v, log, git)
    ensures forall id :: id in refused <==> Asked(v.tasks, id) && VerdictOf(v, log, git, id.name) == Refuse
    ensures forall id :: id in ddl <==> Asked(v.tasks, id) && id !in refused
    ensures forall id | id in refused :: v.execute && id !in Written(v, log, git, v.tasks)
    ensures log <= log'
    ensures forall s :: s in log'[|log|..] <==>
              && s.sha == v.head && s.overrideReason == v.overrideReason
              && v.execute && v.hasDatabase && v.isResolvable && v.isReadable
              && s.id !in refused && WritesBody(v.tasks, s.id)
  {
    var guard := new Guard(v.head, v.overrideReason, v.execute, git);
    guard.Load(v.hasDatabase, v.isResolvable, v.isReadable, log);
    ddl, refused := RunTasks(guard, v, log, git);
    EachOnce(v, log, git);
    log' := guard.Flush(log);
    NewStamps(v, log, git, refused);
  }

  /** All entry points, in the order of the tasks. */
  method RunTasks(guard: Guard, v: Invocation, log: seq<Stamp>, git: Sha -> Option<bool>)
    returns (ddl: seq<ObjectId>, refused: seq<ObjectId>)
    requires Serves(guard, v, log, git) && guard.records == []
    modifies guard`ancestryCache, guard`records
    ensures Serves(guard, v, log, git) && guard.records == Written(v, log, git, v.tasks)
    ensures ddl == Refused(v, log, git, false, v.tasks) && refused == Refused(v, log, git, true, v.tasks)
  {
    ddl, refused := [], [];
    for i := 0 to |v.tasks|
      invariant Serves(guard, v, log, git)
      invariant guard.records == Written(v, log, git, v.tasks[..i])
      invariant ddl == Refused(v, log, git, false, v.tasks[..i])
      invariant refused == Refused(v, log, git, true, v.tasks[..i])
    {
      var id := v.tasks[i].id;
      assert v.tasks[..i + 1][..i] == v.tasks[..i];
      var outcome := CheckAndRecord(guard, v, log, git, v.tasks[i]);
      if outcome == Refuse {
        refused := refused + [id];
      } else {
        ddl := ddl + [id];
      }
    }
    assert v.tasks[..|v.tasks|] == v.tasks;
  }

  /** One entry point. */
  method CheckAndRecord(guard: Guard, v: Invocation, log: seq<Stamp>, git: Sha -> Option<bool>, task: Task)
    returns (outcome: Outcome)
    requires Serves(guard, v, log, git)
    modifies guard`ancestryCache, guard`records
    ensures Serves(guard, v, log, git) && outcome == VerdictOf(v, log, git, task.id.name)
    ensures guard.records == old(guard.records)
            + if v.Enabled() && outcome != Refuse && Recorded(task.result) then [task.id] else []
  {
    outcome := guard.Check(task.id);
    if outcome != Refuse {
      guard.Record(task.id, task.result);
    }
  }

  // ---------------------------------------------------------------------------------------------
  // The stamp log over any number of serialised invocations
  // ---------------------------------------------------------------------------------------------

  /** Stamps `i` and `j` are consecutive stamps of one full name. */
  ghost predicate Adjacent(log: seq<Stamp>, i: nat, j: nat) {
    i < j < |log| && log[i].id.name == log[j].id.name && forall k | i < k < j :: log[k].id.name != log[i].id.name
  }

  ghost predicate Forward(g: Commits, s: Stamp, t: Stamp) {
    Ancestor(g, s.sha, t.sha) || t.overrideReason.Some?
  }

  /** Every stamp has a revision, and every full name moves forward in history from stamp to stamp unless
      the later stamp carries a reason. */
  ghost predicate Monotonic(g: Commits, log: seq<Stamp>) {
    && (forall i | 0 <= i < |log| :: log[i].sha != "")
    && (forall i: nat, j: nat | Adjacent(log, i, j) :: Forward(g, log[i], log[j]))
  }

  /** The latest stamp of a full name is its last one in the log. */
  lemma {:induction false} LatestIsLast(log: seq<Stamp>, i: nat)
    requires i < |log| && forall k | i < k < |log| :: log[k].id.name != log[i].id.name
    ensures log[i].id.name in Latest(log) && Latest(log)[log[i].id.name] == log[i].sha
    decreases |log|
  {
    if i < |log| - 1 {
      LatestIsLast(log[..|log| - 1], i);
    }
  }

  lemma AdjacentInPrefix(log: seq<Stamp>, s: Stamp, i: nat, j: nat)
    requires Adjacent(log + [s], i, j) && j < |log|
    ensures Adjacent(log, i, j)
  {
    forall k | i < k < j
      ensures log[k].id.name != log[i].id.name
    {
      assert (log + [s])[k] == log[k];
    }
  }

  lemma AppendKeepsMonotonic(g: Commits, log: seq<Stamp>, s: Stamp)
    requires Monotonic(g, log) && s.sha != ""
    requires s.id.name in Latest(log) ==> Ancestor(g, Latest(log)[s.id.name], s.sha) || s.overrideReason.Some?
    ensures Monotonic(g, log + [s])
  {
    var all := log + [s];
    forall i: nat, j: nat | Adjacent(all, i, j)
      ensures Forward(g, all[i], all[j])
    {
      if j < |log| {
        AdjacentInPrefix(log, s, i, j);
      } else {
        assert forall k | i < k < |log| :: all[k] == log[k];
        LatestIsLast(log, i);
      }
    }
  }

  /** A check that lets an enabled apply write vouches for the step in the whole history. */
  lemma CheckedStep(g: Commits, v: Invocation, log: seq<Stamp>, git: Sha -> Option<bool>, n: Name)
    requires PartOf(v.clone, g) && GitOf(v, git) && v.Enabled() && v.execute
    requires VerdictOf(v, log, git, n) != Refuse && n in Latest(log) && Latest(log)[n] != ""
    ensures Ancestor(g, Latest(log)[n], v.head) || v.overrideReason.Some?
  {
    var recorded := Latest(log)[n];
    if recorded == v.head {
      Reflexive(g, recorded);
    } else if v.overrideReason.None? {
      assert git(recorded) == Some(true);
      CloneIsSound(v.clone, g, recorded, v.head);
    }
  }

  lemma {:induction false} LatestHasSha(log: seq<Stamp>)
    requires forall i | 0 <= i < |log| :: log[i].sha != ""
    ensures forall n | n in Latest(log) :: Latest(log)[n] != ""
  {
    if log != [] {
      LatestHasSha(log[..|log| - 1]);
    }
  }

  /** New stamps leave every full name at its old revision or at the one being applied. */
  lemma {:induction false} LatestOfStamps(log: seq<Stamp>, ids: seq<ObjectId>, head: Sha, reason: Option<string>,
                                          n: Name)
    requires n in Latest(log + Stamps(ids, head, reason))
    ensures var sha := Latest(log + Stamps(ids, head, reason))[n];
      sha == head || (n in Latest(log) && sha == Latest(log)[n])
    decreases |ids|
  {
    if ids == [] {
      assert log + [] == log;
    } else {
      var rest, last := ids[..|ids| - 1], ids[|ids| - 1];
      var before := log + Stamps(rest, head, reason);
      assert log + Stamps(ids, head, reason) == before + [Stamp(last, head, reason)];
      assert (before + [Stamp(last, head, reason)])[..|before|] == before;
      if n != last.name {
        LatestOfStamps(log, rest, head, reason, n);
      }
    }
  }

  lemma {:induction false} StampsKeepMonotonic(g: Commits, v: Invocation, log: seq<Stamp>,
                                               git: Sha -> Option<bool>, ids: seq<ObjectId>)
    requires PartOf(v.clone, g) && GitOf(v, git) && v.Valid() && Monotonic(g, log)
    requires ids != [] ==> v.Enabled() && v.execute
    requires forall id | id in ids :: VerdictOf(v, log, git, id.name) != Refuse
    ensures Monotonic(g, log + Stamps(ids, v.head, v.overrideReason))
    decreases |ids|
  {
    if ids == [] {
      assert log + [] == log;
    } else {
      var rest, id := ids[..|ids| - 1], ids[|ids| - 1];
      var before := log + Stamps(rest, v.head, v.overrideReason);
      var s := Stamp(id, v.head, v.overrideReason);
      StampsKeepMonotonic(g, v, log, git, rest);
      assert log + Stamps(ids, v.head, v.overrideReason) == before + [s];
      if id.name in Latest(before) {
        StampedStep(g, v, log, git, rest, id.name);
      }
      AppendKeepsMonotonic(g, before, s);
    }
  }

  /** The same when other objects were stamped since the check. */
  lemma StampedStep(g: Commits, v: Invocation, log: seq<Stamp>, git: Sha -> Option<bool>, ids: seq<ObjectId>, n: Name)
    requires PartOf(v.clone, g) && GitOf(v, git) && v.Enabled() && v.execute && Monotonic(g, log)
    requires VerdictOf(v, log, git, n) != Refuse && n in Latest(log + Stamps(ids, v.head, v.overrideReason))
    ensures Ancestor(g, Latest(log + Stamps(ids, v.head, v.overrideReason))[n], v.head) || v.overrideReason.Some?
  {
    LatestOfStamps(log, ids, v.head, v.overrideReason, n);
    Reflexive(g, v.head);
    if n in Latest(log) {
      LatestHasSha(log);
      CheckedStep(g, v, log, git, n);
    }
  }

  lemma {:induction false} NothingWrittenWhenDisabled(v: Invocation, log: seq<Stamp>, git: Sha -> Option<bool>,
                                                      tasks: seq<Task>)
    requires !v.Enabled()
    ensures Written(v, log, git, tasks) == []
    decreases |tasks|
  {
    if tasks != [] {
      NothingWrittenWhenDisabled(v, log, git, tasks[..|tasks| - 1]);
    }
  }

  /** One invocation, plan or apply, with the guard enabled or disabled, keeps the log monotonic. */
  lemma InvocationKeepsMonotonic(g: Commits, v: Invocation, log: seq<Stamp>, git: Sha -> Option<bool>)
    requires PartOf(v.clone, g) && GitOf(v, git) && v.Valid() && Monotonic(g, log)
    ensures Monotonic(g, AfterInvocation(v, log, git))
  {
    if v.execute {
      if !v.Enabled() {
        NothingWrittenWhenDisabled(v, log, git, v.tasks);
      }
      StampsKeepMonotonic(g, v, log, git, Written(v, log, git, v.tasks));
    } else {
      assert log + [] == log;
    }
  }

  /** The log after a sequence of serialised invocations, each with the git of its own clone. */
  ghost function History(vs: seq<(Invocation, Sha -> Option<bool>)>): seq<Stamp> {
    if vs == [] then []
    else AfterInvocation(vs[|vs| - 1].0, History(vs[..|vs| - 1]), vs[|vs| - 1].1)
  }

  /** Whatever the clones hold and however they are interleaved, no full name is ever stamped backwards or
      sideways without a recorded reason. */
  lemma {:induction false} HistoryIsMonotonic(g: Commits, vs: seq<(Invocation, Sha -> Option<bool>)>)
    requires forall v | v in vs :: PartOf(v.0.clone, g) && GitOf(v.0, v.1) && v.0.Valid()
    ensures Monotonic(g, History(vs))
    decreases |vs|
  {
    if vs != [] {
      var before := vs[..|vs| - 1];
      assert forall v | v in before :: v in vs;
      HistoryIsMonotonic(g, before);
      assert vs[|vs| - 1] in vs;
      InvocationKeepsMonotonic(g, vs[|vs| - 1].0, History(vs[..|vs| - 1]), vs[|vs| - 1].1);
    }
  }

  /** Between two stamps of a full name written without a reason after the first, the later revision
      descends from the earlier one. */
  lemma {:induction false} LaterDescendsFromEarlier(g: Commits, log: seq<Stamp>, i: nat, j: nat)
    requires Monotonic(g, log) && i <= j < |log| && log[i].id.name == log[j].id.name
    requires forall k | i < k <= j && log[k].id.name == log[i].id.name :: log[k].overrideReason.None?
    ensures Ancestor(g, log[i].sha, log[j].sha)
    decreases j - i
  {
    if i == j {
      Reflexive(g, log[i].sha);
    } else {
      var k := Previous(log, i, j);
      LaterDescendsFromEarlier(g, log, i, k);
      assert Adjacent(log, k, j);
      Transitive(g, log[i].sha, log[k].sha, log[j].sha);
    }
  }

  /** The stamp of the same full name just before stamp `j`. */
  lemma {:induction false} Previous(log: seq<Stamp>, i: nat, j: nat) returns (k: nat)
    requires i < j < |log| && log[i].id.name == log[j].id.name
    ensures i <= k && Adjacent(log, k, j)
  {
    k := j - 1;
    while log[k].id.name != log[j].id.name
      invariant i <= k < j && forall m | k < m < j :: log[m].id.name != log[j].id.name
      decreases k
    {
      k := k - 1;
    }
  }

  /** The invocations that execute. */
  function Applies(vs: seq<(Invocation, Sha -> Option<bool>)>): seq<(Invocation, Sha -> Option<bool>)> {
    if vs == [] then []
    else Applies(vs[..|vs| - 1]) + if vs[|vs| - 1].0.execute then [vs[|vs| - 1]] else []
  }

  /** A plan anywhere in the history could be left out. */
  lemma {:induction false} PlanLeavesNoTrace(
    before: seq<(Invocation, Sha -> Option<bool>)>, plan: (Invocation, Sha -> Option<bool>),
    after: seq<(Invocation, Sha -> Option<bool>)>)
    requires !plan.0.execute
    ensures History(before + [plan] + after) == History(before + after)
    decreases |after|
  {
    if after == [] {
      assert before + [plan] + after == before + [plan] && before + after == before;
      assert (before + [plan])[..|before|] == before;
    } else {
      var rest := after[..|after| - 1];
      PlanLeavesNoTrace(before, plan, rest);
      assert (before + [plan] + after)[..|before| + 1 + |rest|] == before + [plan] + rest;
      assert (before + after)[..|before| + |rest|] == before + rest;
    }
  }

  /** Plans between the applies leave no trace: every stamp is what it would be without them. */
  lemma {:induction false} PlansLeaveNoTrace(vs: seq<(Invocation, Sha -> Option<bool>)>)
    ensures History(Applies(vs)) == History(vs) && forall v | v in Applies(vs) :: v.0.execute
    decreases |vs|
  {
    if vs != [] {
      var before, last := vs[..|vs| - 1], vs[|vs| - 1];
      PlansLeaveNoTrace(before);
      if last.0.execute {
        assert (Applies(before) + [last])[..|Applies(before)|] == Applies(before);
      } else {
        assert Applies(before) + [] == Applies(before) && History(before) + [] == History(before);
      }
    }
  }

  /** The answer of the guard in every case.  It stands against an object exactly when it is enabled, no reason
      is given, the full name has a stamp, and the clone cannot show that the recorded revision is the one being
      applied or an ancestor of it; an apply then refuses, and a plan only warns. */
  lemma RefusesExactlyUnproven(g: Commits, v: Invocation, log: seq<Stamp>, git: Sha -> Option<bool>, n: Name)
    requires GitOf(v, git) && v.Valid() && Monotonic(g, log)
    ensures var stands := v.hasDatabase && v.isResolvable && v.isReadable && v.overrideReason.None? && n in Latest(log)
              && Latest(log)[n] != v.head
              && !(Latest(log)[n] in v.clone && Ancestor(v.clone, Latest(log)[n], v.head));
      && (VerdictOf(v, log, git, n) == Refuse <==> stands && v.execute)
      && (VerdictOf(v, log, git, n) == WouldRefuse <==> stands && !v.execute)
  {
    LatestHasSha(log);
  }

  // ---------------------------------------------------------------------------------------------
  // Objects that share a full name
  // ---------------------------------------------------------------------------------------------

  /** An apply that is not overridden may write an object of this full name over `log`. */
  ghost predicate MayWrite(g: Commits, v: Invocation, git: Sha -> Option<bool>, log: seq<Stamp>, n: Name) {
    && PartOf(v.clone, g) && GitOf(v, git) && v.Valid()
    && v.Enabled() && v.execute && v.overrideReason.None?
    && VerdictOf(v, log, git, n) != Refuse
  }

  ghost predicate NextMoveIsForward(g: Commits, log: seq<Stamp>, i: nat)
    requires i < |log|
  {
    forall v: Invocation, git: Sha -> Option<bool> | MayWrite(g, v, git, log, log[i].id.name) ::
      Ancestor(g, log[i].sha, v.head)
  }

  /** Whichever apply writes it next, the object of stamp `i` moves forward from there if and only if the
      latest stamp of its full name, its own or that of another object, descends from stamp `i`. */
  lemma ObjectMovesForwardExactly(g: Commits, log: seq<Stamp>, i: nat)
    requires Monotonic(g, log) && i < |log|
    ensures log[i].id.name in Latest(log)
    ensures NextMoveIsForward(g, log, i) <==> Ancestor(g, log[i].sha, Latest(log)[log[i].id.name])
  {
    StampedIsLatest(log, i);
    LatestHasSha(log);
    var n, latest := log[i].id.name, Latest(log)[log[i].id.name];
    if NextMoveIsForward(g, log, i) {
      LatestMayBeWritten(g, log, log[i].id);
      assert MayWrite(g, ApplyOne(g, latest, None, log[i].id, CREATE), GitIn(g, latest), log, n);
    }
    if Ancestor(g, log[i].sha, latest) {
      forall v: Invocation, git: Sha -> Option<bool> | MayWrite(g, v, git, log, n)
        ensures Ancestor(g, log[i].sha, v.head)
      {
        CheckedStep(g, v, log, git, n);
        Transitive(g, log[i].sha, latest, v.head);
      }
    }
  }

  lemma {:induction false} StampedIsLatest(log: seq<Stamp>, i: nat)
    requires i < |log|
    ensures log[i].id.name in Latest(log)
    decreases |log|
  {
    if i < |log| - 1 {
      StampedIsLatest(log[..|log| - 1], i);
    }
  }

  /** The recorded revision itself may always be applied again. */
  lemma LatestMayBeWritten(g: Commits, log: seq<Stamp>, id: ObjectId)
    requires id.name in Latest(log) && Latest(log)[id.name] != ""
    ensures var head := Latest(log)[id.name];
      MayWrite(g, ApplyOne(g, head, None, id, CREATE), GitIn(g, head), log, id.name)
  {
    InvokedFromClone(g, Stamp(id, Latest(log)[id.name], None), CREATE);
  }

  /** Stamps `i` and `j` are consecutive stamps of one object. */
  ghost predicate AdjacentOfObject(log: seq<Stamp>, i: nat, j: nat) {
    i < j < |log| && log[i].id == log[j].id && forall k | i < k < j :: log[k].id != log[i].id
  }

  /** Another object of the same full name was stamped with a reason between stamps `i` and `j`. */
  ghost predicate ReasonBetween(log: seq<Stamp>, i: nat, j: nat)
    requires i < j < |log|
  {
    exists k :: i < k < j && log[k].id.name == log[i].id.name && log[k].overrideReason.Some?
  }

  /** An object moves forward too, unless another object of its full name was written with a reason in
      between.  The guard then compares with that other stamp. */
  lemma ObjectMovesForward(g: Commits, log: seq<Stamp>, i: nat, j: nat)
    requires Monotonic(g, log) && AdjacentOfObject(log, i, j)
    ensures Forward(g, log[i], log[j]) || ReasonBetween(log, i, j)
  {
    if !ReasonBetween(log, i, j) && log[j].overrideReason.None? {
      LaterDescendsFromEarlier(g, log, i, j);
    }
  }

  ghost predicate NamesAreUnique(log: seq<Stamp>) {
    forall i, j | 0 <= i < |log| && 0 <= j < |log| && log[i].id.name == log[j].id.name :: log[i].id == log[j].id
  }

  /** Where full names tell objects apart, every object moves forward. */
  lemma UniqueNamesMoveForward(g: Commits, log: seq<Stamp>, i: nat, j: nat)
    requires Monotonic(g, log) && NamesAreUnique(log) && AdjacentOfObject(log, i, j)
    ensures Forward(g, log[i], log[j])
  {
    assert Adjacent(log, i, j);
  }

  /** What git answers, as a function of the recorded revision. */
  ghost function GitIn(clone: Commits, head: Sha): Sha -> Option<bool> {
    (recorded: Sha) => Answer(clone, recorded, head)
  }

  /** An apply that writes one object, from a clone with the history `g`. */
  function ApplyOne(g: Commits, head: Sha, reason: Option<string>, id: ObjectId, result: ResolveResult): Invocation {
    Invocation(g, head, reason, true, true, true, true, [Task(id, result)])
  }

  lemma WrittenByOne(v: Invocation, log: seq<Stamp>, git: Sha -> Option<bool>, t: Task)
    requires v.Enabled() && Recorded(t.result)
    ensures Written(v, log, git, [t]) == if VerdictOf(v, log, git, t.id.name) == Refuse then [] else [t.id]
  {
    assert [t][..0] == [];
    assert Written(v, log, git, [t][..0]) == [];
  }

  lemma StampsOfOne(id: ObjectId, head: Sha, reason: Option<string>)
    ensures Stamps([id], head, reason) == [Stamp(id, head, reason)] && Stamps([], head, reason) == []
  {
  }

  /** It appends its stamp, unless it is refused. */
  lemma ApplyOneWrites(g: Commits, head: Sha, reason: Option<string>, id: ObjectId, result: ResolveResult,
                       log: seq<Stamp>)
    requires Recorded(result)
    ensures var v, git := ApplyOne(g, head, reason, id, result), GitIn(g, head);
            AfterInvocation(v, log, git) ==
            if VerdictOf(v, log, git, id.name) == Refuse then log else log + [Stamp(id, head, reason)]
  {
    WrittenByOne(ApplyOne(g, head, reason, id, result), log, GitIn(g, head), Task(id, result));
    StampsOfOne(id, head, reason);
    assert log + [] == log;
  }

  /** Commit C is a child of B, and A is unrelated to both. */
  function SharedNameCommits(): Commits {
    map["A" := {}, "B" := {}, "C" := {"B"}]
  }

  lemma {:induction false} AncestorsOfC(p: seq<Sha>, i: nat)
    requires Lineage(SharedNameCommits(), p) && p[0] == "C" && i < |p|
    ensures p[i] == "C" || p[i] == "B"
  {
    if i > 0 {
      AncestorsOfC(p, i - 1);
      assert p[i - 1 + 1] in SharedNameCommits()[p[i - 1]];
    }
  }

  lemma UnrelatedToC()
    ensures Ancestor(SharedNameCommits(), "B", "C") && !Ancestor(SharedNameCommits(), "A", "C")
  {
    var g := SharedNameCommits();
    assert Lineage(g, ["C", "B"]) && ["C", "B"][0] == "C" && ["C", "B"][1] == "B";
    forall p | Lineage(g, p) && p[0] == "C"
      ensures p[|p| - 1] != "A"
    {
      AncestorsOfC(p, |p| - 1);
    }
  }

  function TableId(name: Name): ObjectId {
    ObjectId("TABLE", name)
  }

  /** The log of the run below. */
  function SharedNameLog(name: Name): seq<Stamp> {
    [Stamp(TableId(name), "A", None), Stamp(ObjectId("PRIMARY_KEY", name), "B", Some("restore")),
     Stamp(TableId(name), "C", None)]
  }

  /** It does so over no stamp, with a reason, or over an ancestor of its head. */
  lemma ApplyOneStamps(g: Commits, head: Sha, reason: Option<string>, id: ObjectId, result: ResolveResult,
                       log: seq<Stamp>)
    requires Recorded(result)
    requires id.name !in Latest(log) || reason.Some?
             || (Latest(log)[id.name] in g && head in g && Ancestor(g, Latest(log)[id.name], head))
    ensures AfterInvocation(ApplyOne(g, head, reason, id, result), log, GitIn(g, head))
         == log + [Stamp(id, head, reason)]
  {
    ApplyOneWrites(g, head, reason, id, result, log);
  }

  lemma SharedNameSteps(name: Name)
    ensures var g, log := SharedNameCommits(), SharedNameLog(name);
      && AfterInvocation(ApplyOne(g, "A", None, TableId(name), CREATE), [], GitIn(g, "A")) == log[..1]
      && AfterInvocation(ApplyOne(g, "B", Some("restore"), log[1].id, CREATE), log[..1], GitIn(g, "B")) == log[..2]
      && AfterInvocation(ApplyOne(g, "C", None, TableId(name), REPLACE), log[..2], GitIn(g, "C")) == log
  {
    var g, log := SharedNameCommits(), SharedNameLog(name);
    assert log[..1] == [] + [log[0]] && log[..2] == log[..1] + [log[1]] && log == log[..2] + [log[2]];
    ApplyOneStamps(g, "A", None, TableId(name), CREATE, []);
    ApplyOneStamps(g, "B", Some("restore"), log[1].id, CREATE, log[..1]);
    UnrelatedToC();
    LatestIsLast(log[..2], 1);
    ApplyOneStamps(g, "C", None, TableId(name), REPLACE, log[..2]);
  }

  ghost function Invoked(g: Commits, s: Stamp, result: ResolveResult): (Invocation, Sha -> Option<bool>) {
    (ApplyOne(g, s.sha, s.overrideReason, s.id, result), GitIn(g, s.sha))
  }

  ghost predicate FromClone(g: Commits, v: (Invocation, Sha -> Option<bool>)) {
    v.0.clone == g && GitOf(v.0, v.1) && v.0.Valid()
  }

  lemma InvokedFromClone(g: Commits, s: Stamp, result: ResolveResult)
    requires s.sha != ""
    ensures FromClone(g, Invoked(g, s, result))
  {
  }

  /** The failing case: a table is stamped at A, its primary key at B with a reason, and the table again
      at C.  The guard compares C with B, and the table goes from A to C without a reason of its own. */
  lemma SharedNameRun(name: Name) returns (vs: seq<(Invocation, Sha -> Option<bool>)>)
    ensures forall i | 0 <= i < |vs| :: FromClone(SharedNameCommits(), vs[i])
    ensures History(vs) == SharedNameLog(name) && AdjacentOfObject(History(vs), 0, 2)
    ensures !Forward(SharedNameCommits(), History(vs)[0], History(vs)[2])
  {
    var g, log := SharedNameCommits(), SharedNameLog(name);
    vs := [Invoked(g, log[0], CREATE), Invoked(g, log[1], CREATE), Invoked(g, log[2], REPLACE)];
    forall i | 0 <= i < |vs|
      ensures FromClone(g, vs[i])
    {
      var result := if i < 2 then CREATE else REPLACE;
      InvokedFromClone(g, log[i], result);
      assert vs[i] == Invoked(g, log[i], result);
    }
    HistoryOfThree(vs);
    SharedNameSteps(name);
    UnrelatedToC();
  }

  lemma HistoryOfThree(vs: seq<(Invocation, Sha -> Option<bool>)>)
    requires |vs| == 3
    ensures History(vs) ==
            AfterInvocation(vs[2].0, AfterInvocation(vs[1].0, AfterInvocation(vs[0].0, [], vs[0].1), vs[1].1), vs[2].1)
  {
    assert vs[..2][..1] == vs[..1] && vs[..1][..0] == [];
    assert History(vs[..1]) == AfterInvocation(vs[0].0, [], vs[0].1);
  }

  lemma RefusedVerdict(name: Name)
    ensures var g := SharedNameCommits();
            VerdictOf(ApplyOne(g, "C", None, TableId(name), CREATE), [Stamp(ObjectId("STAGE", name), "A", None)],
              GitIn(g, "C"), name) == Refuse
  {
    UnrelatedToC();
    assert Latest([Stamp(ObjectId("STAGE", name), "A", None)])[name] == "A";
  }

  /** ... and a table that nobody has stamped is refused, because a stage of its full name was. */
  lemma RefusedForAnother(name: Name) returns (v: Invocation, git: Sha -> Option<bool>, log: seq<Stamp>)
    ensures FromClone(SharedNameCommits(), (v, git)) && v.overrideReason.None?
    ensures log == [Stamp(ObjectId("STAGE", name), "A", None)] && v.tasks == [Task(TableId(name), CREATE)]
    ensures VerdictOf(v, log, git, name) == Refuse && AfterInvocation(v, log, git) == log
  {
    var g, s := SharedNameCommits(), Stamp(TableId(name), "C", None);
    v, git := ApplyOne(g, "C", None, TableId(name), CREATE), GitIn(g, "C");
    log := [Stamp(ObjectId("STAGE", name), "A", None)];
    assert FromClone(g, (v, git)) by {
      InvokedFromClone(g, s, CREATE);
      assert (v, git) == Invoked(g, s, CREATE);
    }
    RefusedVerdict(name);
    ApplyOneWrites(g, "C", None, TableId(name), CREATE, log);
  }
}
