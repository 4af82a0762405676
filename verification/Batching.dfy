/** Dependency batching of blueprints, as done by `_split_blueprints_into_batches`.

    A resolver walks its blueprints in batches: a blueprint joins a batch once every name it
    depends on sits in an earlier batch, and when no blueprint can join, all the remaining ones
    form one last fallback batch.  The specification below never mentions the loop: it speaks of
    chains of dependencies only. */
module Batching {
  import opened Basics

  type Name = string

  /** What a resolver holds: its blueprint names in dictionary order, and for each of them the
      names it depends on.  A blueprint without dependencies has an empty set. */
  datatype Blueprints = Blueprints(names: seq<Name>, dependsOn: map<Name, set<Name>>) {
    /** Dictionary keys are distinct, and every key has a (maybe empty) dependency set. */
    ghost predicate Valid() {
      && (forall i, j | 0 <= i < j < |names| :: names[i] != names[j])
      && (forall n :: n in names <==> n in dependsOn)
    }
  }

  /** A walk along dependencies: every name but the last is declared and depends on the next. */
  ghost predicate Chain(b: Blueprints, p: seq<Name>) {
    && |p| > 0
    && forall i | 0 <= i < |p| - 1 :: p[i] in b.dependsOn && p[i + 1] in b.dependsOn[p[i]]
  }

  ghost predicate ChainFrom(b: Blueprints, n: Name, p: seq<Name>) {
    Chain(b, p) && p[0] == n
  }

  /** Some chain from `n` ends in a name that is not declared. */
  ghost predicate ReachesUndeclared(b: Blueprints, n: Name) {
    exists p :: ChainFrom(b, n, p) && p[|p| - 1] !in b.dependsOn
  }

  /** Some chain from `n` visits a name twice. */
  ghost predicate ReachesCycle(b: Blueprints, n: Name) {
    exists p, i, j :: ChainFrom(b, n, p) && 0 <= i < j < |p| && p[i] == p[j]
  }

  ghost predicate Unresolvable(b: Blueprints, n: Name) {
    ReachesUndeclared(b, n) || ReachesCycle(b, n)
  }

  /** The longest chain from `n` has exactly `k` steps. */
  ghost predicate LongestChain(b: Blueprints, n: Name, k: nat) {
    && (exists p :: ChainFrom(b, n, p) && |p| == k + 1)
    && (forall p | ChainFrom(b, n, p) :: |p| <= k + 1)
  }

  // ---------------------------------------------------------------------------------------------
  // The allocation levels, and what they mean in terms of chains
  // ---------------------------------------------------------------------------------------------

  /** The names whose dependencies all lie in `settled`. */
  ghost function Ready(b: Blueprints, settled: set<Name>): set<Name> {
    set n | n in b.dependsOn && b.dependsOn[n] <= settled
  }

  /** The names settled after `k` ordinary batches. */
  ghost function Level(b: Blueprints, k: nat): set<Name>
    requires b.Valid()
  {
    if k == 0 then {} else Ready(b, Level(b, k - 1))
  }

  lemma {:induction false} LevelGrows(b: Blueprints, k: nat)
    requires b.Valid()
    ensures Level(b, k) <= Level(b, k + 1)
  {
    if k > 0 {
      LevelGrows(b, k - 1);
    }
  }

  lemma {:induction false} LevelMonotone(b: Blueprints, j: nat, k: nat)
    requires b.Valid() && j <= k
    ensures Level(b, j) <= Level(b, k)
    decreases k - j
  {
    if j < k {
      LevelGrows(b, j);
      LevelMonotone(b, j + 1, k);
    }
  }

  /** Along a chain the level drops by at least one per step, and only declared names are met. */
  lemma {:induction false} ChainDescends(b: Blueprints, p: seq<Name>, k: nat, i: nat)
    requires b.Valid() && Chain(b, p) && p[0] in Level(b, k) && i < |p|
    ensures i < k && p[i] in Level(b, k - i)
  {
    if i > 0 {
      ChainDescends(b, p, k, i - 1);
      assert p[i] in b.dependsOn[p[i - 1]];
    }
  }

  lemma ConsChain(b: Blueprints, n: Name, p: seq<Name>)
    requires Chain(b, p) && n in b.dependsOn && p[0] in b.dependsOn[n]
    ensures ChainFrom(b, n, [n] + p)
  {
    var q := [n] + p;
    forall i | 0 <= i < |q| - 1
      ensures q[i] in b.dependsOn && q[i + 1] in b.dependsOn[q[i]]
    {
      if i > 0 {
        assert q[i] == p[i - 1] && q[i + 1] == p[i];
      }
    }
  }

  /** `n` is settled within `k` batches exactly when no chain from it is longer than `k` names
      and none leaves the declared names. */
  lemma {:induction false} LevelMeansBounded(b: Blueprints, n: Name, k: nat)
    requires b.Valid()
    ensures n in Level(b, k) <==>
            !ReachesUndeclared(b, n) && forall p | ChainFrom(b, n, p) :: |p| <= k
    decreases k
  {
    if n in Level(b, k) {
      forall p | ChainFrom(b, n, p)
        ensures |p| <= k && p[|p| - 1] in b.dependsOn
      {
        ChainDescends(b, p, k, |p| - 1);
      }
    } else if !ReachesUndeclared(b, n) && forall p | ChainFrom(b, n, p) :: |p| <= k {
      assert ChainFrom(b, n, [n]);
      assert [n][|[n]| - 1] == n;
      assert k > 0;
      forall d | d in b.dependsOn[n]
        ensures d in Level(b, k - 1)
      {
        forall q | ChainFrom(b, d, q)
          ensures |q| <= k - 1 && q[|q| - 1] in b.dependsOn
        {
          ConsChain(b, n, q);
          assert ([n] + q)[|[n] + q| - 1] == q[|q| - 1];
        }
        LevelMeansBounded(b, d, k - 1);
      }
      assert false;
    }
  }

  /** A name that first appears at level `k + 1` has a chain of exactly `k` steps. */
  lemma {:induction false} FreshNameHasChain(b: Blueprints, n: Name, k: nat) returns (p: seq<Name>)
    requires b.Valid() && n in Level(b, k + 1) && n !in Level(b, k)
    ensures ChainFrom(b, n, p) && |p| == k + 1
    decreases k
  {
    if k == 0 {
      p := [n];
    } else {
      var d :| d in b.dependsOn[n] && d !in Level(b, k - 1);
      var q := FreshNameHasChain(b, d, k - 1);
      ConsChain(b, n, q);
      p := [n] + q;
    }
  }

  lemma FreshNameIsLongest(b: Blueprints, n: Name, k: nat)
    requires b.Valid() && n in Level(b, k + 1) && n !in Level(b, k)
    ensures LongestChain(b, n, k)
  {
    var p := FreshNameHasChain(b, n, k);
    LevelMeansBounded(b, n, k + 1);
  }

  /** Allocated names reach neither a cycle nor an undeclared name. */
  lemma LevelIsResolvable(b: Blueprints, n: Name, k: nat)
    requires b.Valid() && n in Level(b, k)
    ensures !Unresolvable(b, n)
  {
    LevelMeansBounded(b, n, k);
    forall p, i, j | ChainFrom(b, n, p) && 0 <= i < j < |p|
      ensures p[i] != p[j]
    {
      if p[i] == p[j] {
        ChainDescends(b, p, k, i);
        Pump(b, p, i, j, k - i);
      }
    }
  }

  /** A name that returns to itself is in no level. */
  lemma {:induction false} Pump(b: Blueprints, p: seq<Name>, i: nat, j: nat, k: nat)
    requires b.Valid() && Chain(b, p) && i < j < |p| && p[i] == p[j]
    ensures p[i] !in Level(b, k)
  {
    if p[i] in Level(b, k) {
      var tail := p[i..];
      forall m | 0 <= m < |tail| - 1
        ensures tail[m] in b.dependsOn && tail[m + 1] in b.dependsOn[tail[m]]
      {
        assert tail[m] == p[i + m] && tail[m + 1] == p[i + m + 1];
      }
      ChainDescends(b, tail, k, j - i);
      Pump(b, p, i, j, k - (j - i));
    }
  }

  // ---------------------------------------------------------------------------------------------
  // When allocation stops
  // ---------------------------------------------------------------------------------------------

  /** No further name can join. */
  ghost predicate Stuck(b: Blueprints, settled: set<Name>) {
    forall n | n in b.dependsOn && n !in settled :: !(b.dependsOn[n] <= settled)
  }

  /** From a name left over when allocation is stuck there are chains of any length outside the
      settled names, unless one leaves the declared names. */
  lemma {:induction false} StuckChain(b: Blueprints, settled: set<Name>, n: Name, len: nat)
    returns (p: seq<Name>)
    requires b.Valid() && Stuck(b, settled) && n !in settled && len > 0
    ensures ChainFrom(b, n, p)
    ensures p[|p| - 1] !in b.dependsOn || (|p| == len && forall m :: m in p ==> m in b.dependsOn)
    decreases len
  {
    if n !in b.dependsOn || len == 1 {
      p := [n];
    } else {
      var d :| d in b.dependsOn[n] && d !in settled;
      var q := StuckChain(b, settled, d, len - 1);
      ConsChain(b, n, q);
      p := [n] + q;
    }
  }

  /** Pigeonhole: a sequence drawn from a finite set and longer than it repeats an element. */
  lemma {:induction false} Pigeonhole(p: seq<Name>, s: set<Name>) returns (i: nat, j: nat)
    requires |p| > |s| && forall n :: n in p ==> n in s
    ensures i < j < |p| && p[i] == p[j]
    decreases |p|
  {
    var last := p[|p| - 1];
    var rest := p[..|p| - 1];
    if last in rest {
      i :| 0 <= i < |rest| && rest[i] == last;
      j := |p| - 1;
    } else {
      assert last in s;
      assert forall n :: n in rest ==> n in p;
      i, j := Pigeonhole(rest, s - {last});
    }
  }

  lemma StuckIsUnresolvable(b: Blueprints, settled: set<Name>, n: Name)
    requires b.Valid() && Stuck(b, settled) && n !in settled
    ensures Unresolvable(b, n)
  {
    var p := StuckChain(b, settled, n, |b.dependsOn.Keys| + 1);
    if p[|p| - 1] in b.dependsOn {
      var i, j := Pigeonhole(p, b.dependsOn.Keys);
    }
  }

  // ---------------------------------------------------------------------------------------------
  // The method
  // ---------------------------------------------------------------------------------------------

  /** The names of `s` that satisfy membership in `keep`, in their order in `s`. */
  function Filter(s: seq<Name>, keep: set<Name>): (r: seq<Name>)
    ensures forall n :: n in r <==> n in s && n in keep
  {
    if s == [] then []
    else if s[0] in keep then [s[0]] + Filter(s[1..], keep)
    else Filter(s[1..], keep)
  }

  lemma {:induction false} FilterSnoc(s: seq<Name>, n: Name, keep: set<Name>)
    ensures Filter(s + [n], keep) == Filter(s, keep) + if n in keep then [n] else []
  {
    if s == [] {
      assert s + [n] == [n];
    } else {
      assert (s + [n])[1..] == s[1..] + [n];
      FilterSnoc(s[1..], n, keep);
    }
  }

  lemma {:induction false} FilterTwice(s: seq<Name>, a: set<Name>, c: set<Name>)
    ensures Filter(Filter(s, a), c) == Filter(s, a * c)
  {
    if s != [] {
      FilterTwice(s[1..], a, c);
      if s[0] in a {
        assert Filter(s, a)[1..] == Filter(s[1..], a);
      }
    }
  }

  lemma {:induction false} FilterAgrees(s: seq<Name>, a: set<Name>, c: set<Name>)
    requires forall n | n in s :: n in a <==> n in c
    ensures Filter(s, a) == Filter(s, c)
  {
    if s != [] {
      FilterAgrees(s[1..], a, c);
    }
  }

  lemma {:induction false} FilterAll(s: seq<Name>, keep: set<Name>)
    requires forall n | n in s :: n in keep
    ensures Filter(s, keep) == s
  {
    if s != [] {
      FilterAll(s[1..], keep);
    }
  }

  /** What the batches mean: a resolvable name sits at the index equal to its longest dependency
      chain; the unresolvable names, and nothing else, form one fallback batch, the last one. */
  ghost predicate Layered(b: Blueprints, batches: seq<seq<Name>>) {
    && (forall k, n | 0 <= k < |batches| && n in batches[k] && !Unresolvable(b, n) :: LongestChain(b, n, k))
    && (forall k, n | 0 <= k < |batches| && n in batches[k] && Unresolvable(b, n) :: k == |batches| - 1)
    && (forall n, m | |batches| > 0 && n in batches[|batches| - 1] && m in b.names && Unresolvable(b, n) ::
          m in batches[|batches| - 1] <==> Unresolvable(b, m))
  }

  /** The ordinary batches so far are the differences of successive levels. */
  ghost predicate ByLevel(b: Blueprints, batches: seq<seq<Name>>)
    requires b.Valid()
  {
    forall k, n | 0 <= k < |batches| && n in batches[k] :: n in Level(b, k + 1) && n !in Level(b, k)
  }

  lemma ByLevelSnoc(b: Blueprints, batches: seq<seq<Name>>, batch: seq<Name>)
    requires b.Valid() && ByLevel(b, batches)
    requires forall n | n in batch :: n in Level(b, |batches| + 1) && n !in Level(b, |batches|)
    ensures ByLevel(b, batches + [batch])
  {
    var all := batches + [batch];
    forall k, n | 0 <= k < |all| && n in all[k]
      ensures n in Level(b, k + 1) && n !in Level(b, k)
    {
      if k < |batches| {
        assert all[k] == batches[k];
      } else {
        assert all[k] == batch;
      }
    }
  }

  lemma ByLevelIsLayered(b: Blueprints, batches: seq<seq<Name>>)
    requires b.Valid() && ByLevel(b, batches)
    ensures Layered(b, batches)
    ensures forall k, n | 0 <= k < |batches| && n in batches[k] :: !Unresolvable(b, n)
  {
    forall k, n | 0 <= k < |batches| && n in batches[k]
      ensures AtLongest(b, n, k)
    {
      NewInLevel(b, n, k);
    }
    LongestIsLayered(b, batches);
  }

  /** A resolvable name, and the index its batch should have. */
  ghost predicate AtLongest(b: Blueprints, n: Name, k: nat) {
    LongestChain(b, n, k) && !Unresolvable(b, n)
  }

  lemma LongestIsLayered(b: Blueprints, batches: seq<seq<Name>>)
    requires forall k, n | 0 <= k < |batches| && n in batches[k] :: AtLongest(b, n, k)
    ensures Layered(b, batches)
    ensures forall k, n | 0 <= k < |batches| && n in batches[k] :: !Unresolvable(b, n)
  {
    forall k, n | 0 <= k < |batches| && n in batches[k]
      ensures LongestChain(b, n, k) && !Unresolvable(b, n)
    {
      assert AtLongest(b, n, k);
    }
  }

  lemma NewInLevel(b: Blueprints, n: Name, k: nat)
    requires b.Valid() && n in Level(b, k + 1) && n !in Level(b, k)
    ensures AtLongest(b, n, k)
  {
    FreshNameIsLongest(b, n, k);
    LevelIsResolvable(b, n, k + 1);
  }

  /** Appending the leftovers of a stuck allocation as the fallback batch keeps the layering. */
  lemma FallbackIsLayered(b: Blueprints, batches: seq<seq<Name>>, rest: seq<Name>, settled: set<Name>)
    requires b.Valid() && ByLevel(b, batches)
    requires Stuck(b, settled) && settled == Level(b, |batches|)
    requires forall n :: n in rest <==> n in b.names && n !in settled
    ensures Layered(b, batches + [rest])
  {
    ByLevelIsLayered(b, batches);
    forall n | n in b.names
      ensures n in rest <==> Unresolvable(b, n)
    {
      if n in settled {
        LevelIsResolvable(b, n, |batches|);
      } else {
        StuckIsUnresolvable(b, settled, n);
      }
    }
  }

  lemma {:induction false} FilterNone(s: seq<Name>, keep: set<Name>)
    requires forall n | n in s :: n !in keep
    ensures Filter(s, keep) == []
  {
    if s != [] {
      FilterNone(s[1..], keep);
    }
  }

  lemma CoversSnoc(batches: seq<seq<Name>>, batch: seq<Name>, settled: set<Name>)
    requires Covers(batches, settled)
    ensures Covers(batches + [batch], settled + SetOf(batch))
  {
    var all := batches + [batch];
    forall n | n in settled || n in batch
      ensures exists k :: 0 <= k < |all| && n in all[k]
    {
      if n in settled {
        var k :| 0 <= k < |batches| && n in batches[k];
        assert n in all[k];
      } else {
        assert n in all[|batches|];
      }
    }
  }

  lemma DisjointSnoc(b: Blueprints, batches: seq<seq<Name>>, batch: seq<Name>, settled: set<Name>, keep: set<Name>)
    requires Disjoint(b, batches) && Covers(batches, settled)
    requires batch != [] && batch == Filter(b.names, keep) && keep !! settled
    ensures Disjoint(b, batches + [batch])
  {
    FilterAgrees(b.names, keep, SetOf(batch));
  }

  /** The batches together hold exactly the given names. */
  ghost predicate Covers(batches: seq<seq<Name>>, names: set<Name>) {
    forall n :: n in names <==> exists k :: 0 <= k < |batches| && n in batches[k]
  }

  /** Each batch keeps dictionary order and is not empty, and no two share a name. */
  ghost predicate Disjoint(b: Blueprints, batches: seq<seq<Name>>) {
    && (forall k | 0 <= k < |batches| :: batches[k] != [] && batches[k] == Filter(b.names, SetOf(batches[k])))
    && (forall j, k, n | 0 <= j < k < |batches| && n in batches[j] :: n !in batches[k])
  }

  /** What holds between two rounds of allocation: the shape of the batches ... */
  ghost predicate Shape(b: Blueprints, batches: seq<seq<Name>>, settled: set<Name>, remaining: seq<Name>) {
    && remaining == Filter(b.names, SetOf(b.names) - settled)
    && settled <= SetOf(b.names)
    && Disjoint(b, batches)
    && Covers(batches, settled)
  }

  /** ... and, as long as names remain, that every batch so far was an ordinary one. */
  ghost predicate Ordinary(b: Blueprints, batches: seq<seq<Name>>, settled: set<Name>)
    requires b.Valid()
  {
    ByLevel(b, batches) && settled == Level(b, |batches|)
  }

  ghost function Left(remaining: seq<Name>, batch: seq<Name>): seq<Name> {
    Filter(remaining, SetOf(remaining) - SetOf(batch))
  }

  /** Deleting the batch from the remaining names leaves exactly the names not yet settled. */
  lemma Forget(b: Blueprints, settled: set<Name>, remaining: seq<Name>, batch: seq<Name>)
    requires remaining == Filter(b.names, SetOf(b.names) - settled)
    requires batch != [] && forall n | n in batch :: n in remaining
    ensures Left(remaining, batch) == Filter(b.names, SetOf(b.names) - (settled + SetOf(batch)))
    ensures |Left(remaining, batch)| < |remaining|
  {
    var free := SetOf(b.names) - settled;
    var gone := SetOf(batch);
    var rest := SetOf(remaining) - gone;
    FilterTwice(b.names, free, rest);
    FilterAgrees(b.names, free * rest, SetOf(b.names) - (settled + gone));
    assert batch[0] in remaining && batch[0] !in rest;
    Shorter(remaining, rest);
  }

  /** The names that can join complete the next level. */
  lemma BatchCompletesLevel(b: Blueprints, k: nat, remaining: seq<Name>, batch: seq<Name>)
    requires b.Valid() && remaining == Filter(b.names, SetOf(b.names) - Level(b, k))
    requires batch == Filter(remaining, Level(b, k + 1))
    ensures batch == Filter(b.names, (SetOf(b.names) - Level(b, k)) * Level(b, k + 1))
    ensures Level(b, k) + SetOf(batch) == Level(b, k + 1)
    ensures forall n | n in batch :: n in Level(b, k + 1) && n !in Level(b, k)
  {
    FilterTwice(b.names, SetOf(b.names) - Level(b, k), Level(b, k + 1));
    LevelGrows(b, k);
  }

  lemma ShapeRound(b: Blueprints, batches: seq<seq<Name>>, settled: set<Name>, remaining: seq<Name>,
                   batch: seq<Name>, keep: set<Name>)
    requires Shape(b, batches, settled, remaining)
    requires batch != [] && batch == Filter(b.names, keep) && keep <= SetOf(b.names) - settled
    ensures Shape(b, batches + [batch], settled + SetOf(batch), Left(remaining, batch))
  {
    CoversSnoc(batches, batch, settled);
    DisjointSnoc(b, batches, batch, settled, keep);
    Forget(b, settled, remaining, batch);
  }

  /** A round in which some name can join. */
  lemma OrdinaryRound(b: Blueprints, batches: seq<seq<Name>>, settled: set<Name>, remaining: seq<Name>,
                      batch: seq<Name>)
    requires b.Valid() && Ordinary(b, batches, settled)
    requires remaining == Filter(b.names, SetOf(b.names) - settled)
    requires batch == Filter(remaining, Ready(b, settled)) && batch != []
    ensures batch == Filter(b.names, (SetOf(b.names) - settled) * Ready(b, settled))
    ensures Ordinary(b, batches + [batch], settled + SetOf(batch))
  {
    BatchCompletesLevel(b, |batches|, remaining, batch);
    ByLevelSnoc(b, batches, batch);
  }

  /** The round in which nothing can join. */
  lemma FallbackRound(b: Blueprints, batches: seq<seq<Name>>, settled: set<Name>, remaining: seq<Name>)
    requires b.Valid() && Shape(b, batches, settled, remaining) && Ordinary(b, batches, settled) && remaining != []
    requires Filter(remaining, Ready(b, settled)) == []
    ensures Shape(b, batches + [remaining], settled + SetOf(remaining), Left(remaining, remaining))
    ensures Left(remaining, remaining) == []
    ensures Layered(b, batches + [remaining])
  {
    assert Stuck(b, settled) by {
      forall n | n in b.dependsOn && n !in settled
        ensures !(b.dependsOn[n] <= settled)
      {
        assert n in remaining && n !in Filter(remaining, Ready(b, settled));
      }
    }
    FallbackIsLayered(b, batches, remaining, settled);
    ShapeRound(b, batches, settled, remaining, remaining, SetOf(b.names) - settled);
    FilterNone(remaining, SetOf(remaining) - SetOf(remaining));
  }

  lemma ConsKeepsUnresolvable(b: Blueprints, n: Name, d: Name)
    requires n in b.dependsOn && d in b.dependsOn[n] && Unresolvable(b, d)
    ensures Unresolvable(b, n)
  {
    if ReachesUndeclared(b, d) {
      var p :| ChainFrom(b, d, p) && p[|p| - 1] !in b.dependsOn;
      ConsChain(b, n, p);
      assert ([n] + p)[|[n] + p| - 1] == p[|p| - 1];
    } else {
      var p, i, j :| ChainFrom(b, d, p) && 0 <= i < j < |p| && p[i] == p[j];
      ConsChain(b, n, p);
      assert ([n] + p)[i + 1] == ([n] + p)[j + 1];
    }
  }

  lemma DependencyIsResolvable(b: Blueprints, n: Name, d: Name)
    requires n in b.dependsOn && d in b.dependsOn[n] && !Unresolvable(b, n)
    ensures d in b.dependsOn && !Unresolvable(b, d)
  {
    if d !in b.dependsOn {
      ConsChain(b, n, [d]);
    }
    if Unresolvable(b, d) {
      ConsKeepsUnresolvable(b, n, d);
    }
  }

  /** Whatever a resolvable blueprint depends on is declared and sits in an earlier batch. */
  lemma DependenciesComeFirst(b: Blueprints, batches: seq<seq<Name>>, n: Name, k: nat, d: Name) returns (j: nat)
    requires b.Valid() && Covers(batches, SetOf(b.names)) && Layered(b, batches)
    requires k < |batches| && n in batches[k] && !Unresolvable(b, n) && d in b.dependsOn[n]
    ensures j < k && d in batches[j]
  {
    assert n in SetOf(b.names);
    DependencyIsResolvable(b, n, d);
    assert d in SetOf(b.names);
    j :| 0 <= j < |batches| && d in batches[j];
    DependencyIsShorter(b, n, d, k, j);
  }

  lemma DependencyIsShorter(b: Blueprints, n: Name, d: Name, k: nat, j: nat)
    requires n in b.dependsOn && d in b.dependsOn[n] && LongestChain(b, n, k) && LongestChain(b, d, j)
    ensures j < k
  {
    var p :| ChainFrom(b, d, p) && |p| == j + 1;
    ConsChain(b, n, p);
  }

  /** The remaining blueprints that depend on settled names only. */
  method ReadyNames(b: Blueprints, settled: set<Name>, remaining: seq<Name>) returns (batch: seq<Name>)
    requires b.Valid() && forall n | n in remaining :: n in b.names
    ensures batch == Filter(remaining, Ready(b, settled))
  {
    batch := [];
    ghost var ready := Ready(b, settled);
    for i := 0 to |remaining|
      invariant batch == Filter(remaining[..i], ready)
    {
      if b.dependsOn[remaining[i]] <= settled {
        batch := batch + [remaining[i]];
      }
      assert remaining[..i + 1] == remaining[..i] + [remaining[i]];
      FilterSnoc(remaining[..i], remaining[i], ready);
    }
    assert remaining[..|remaining|] == remaining;
  }

  /** Between two rounds. */
  ghost predicate Progress(b: Blueprints, batches: seq<seq<Name>>, settled: set<Name>, remaining: seq<Name>)
    requires b.Valid()
  {
    Shape(b, batches, settled, remaining)
    && (Ordinary(b, batches, settled) || (remaining == [] && Layered(b, batches)))
  }

  lemma Start(b: Blueprints)
    requires b.Valid()
    ensures Progress(b, [], {}, b.names)
  {
    FilterAll(b.names, SetOf(b.names) - {});
    NoBatches(b);
    assert Shape(b, [], {}, b.names);
    assert Ordinary(b, [], {});
  }

  lemma NoBatches(b: Blueprints)
    requires b.Valid()
    ensures Disjoint(b, []) && Covers([], {})
    ensures ByLevel(b, []) && Level(b, 0) == {}
  {
  }

  lemma Round(b: Blueprints, batches: seq<seq<Name>>, settled: set<Name>, remaining: seq<Name>, batch: seq<Name>)
    requires b.Valid() && Progress(b, batches, settled, remaining) && remaining != []
    requires var ready := Filter(remaining, Ready(b, settled)); batch == if ready == [] then remaining else ready
    ensures Progress(b, batches + [batch], settled + SetOf(batch), Left(remaining, batch))
    ensures |Left(remaining, batch)| < |remaining|
  {
    if Filter(remaining, Ready(b, settled)) == [] {
      FallbackRound(b, batches, settled, remaining);
    } else {
      OrdinaryRound(b, batches, settled, remaining, batch);
      ShapeRound(b, batches, settled, remaining, batch, (SetOf(b.names) - settled) * Ready(b, settled));
    }
    Forget(b, settled, remaining, batch);
  }

  lemma Finish(b: Blueprints, batches: seq<seq<Name>>, settled: set<Name>)
    requires b.Valid() && Progress(b, batches, settled, [])
    ensures Disjoint(b, batches) && Covers(batches, SetOf(b.names)) && Layered(b, batches)
  {
    if Ordinary(b, batches, settled) {
      ByLevelIsLayered(b, batches);
    }
    forall n | n in b.names
      ensures n in settled
    {
      assert n !in Filter(b.names, SetOf(b.names) - settled);
    }
    assert settled == SetOf(b.names);
  }

  /** `_split_blueprints_into_batches`. */
  method SplitBlueprintsIntoBatches(b: Blueprints) returns (batches: seq<seq<Name>>)
    requires b.Valid()
    ensures Disjoint(b, batches)
    ensures Covers(batches, SetOf(b.names))
    ensures Layered(b, batches)
  {
    batches := [];
    var settled: set<Name> := {};
    var remaining := b.names;
    Start(b);

    while remaining != []
      invariant Progress(b, batches, settled, remaining)
      decreases |remaining|
    {
      var batch := ReadyNames(b, settled, remaining);

      // A cycle or an undeclared name blocks all that is left.
      if |batch| == 0 {
        batch := remaining;
      }
      Round(b, batches, settled, remaining, batch);
      remaining := Filter(remaining, SetOf(remaining) - SetOf(batch));
      batches := batches + [batch];
      settled := settled + SetOf(batch);
    }
    Finish(b, batches, settled);
  }

  lemma {:induction false} Shorter(s: seq<Name>, keep: set<Name>)
    ensures |Filter(s, keep)| <= |s|
    ensures (exists n :: n in s && n !in keep) ==> |Filter(s, keep)| < |s|
  {
    if s != [] {
      Shorter(s[1..], keep);
    }
  }
}
