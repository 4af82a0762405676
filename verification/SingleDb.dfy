/** Renaming of a configuration to another database: `convert_blueprint` and `convert_config` of the
    single-database application.

    A blueprint is a graph of objects in the heap.  Identifiers are renamed in place, and may be shared
    by several lists and sets; sets are never changed in place but replaced by new ones, so they are
    modelled as values stored in the slots of lists, dictionaries and models. */
module SingleDb {
  import opened Idents

  /** What a slot holds.  A set keeps each element under the text it had when it was added, since that
      is what its hash was computed from. */
  datatype Value =
    | Atom(text: string)
    | Ref(target: Obj)
    | SetOf(filed: map<string, Obj>)

  /** Contents of an object.  `Fields` are those of a model, or the entries of a dictionary. */
  datatype State =
    | Name(ident: Ident)
    | List(items: seq<Value>)
    | Fields(entries: map<string, Value>)

  /** `rank` orders the objects so that references go downwards: blueprints have no cycles. */
  class Obj {
    ghost const rank: nat
    var state: State

    constructor (state: State, ghost rank: nat)
      ensures this.state == state && this.rank == rank
    {
      this.state := state;
      this.rank := rank;
    }
  }

  type Heap = map<Obj, State>

  function Snapshot(universe: set<Obj>): (h: Heap)
    reads universe
    ensures h.Keys == universe && forall o | o in universe :: h[o] == o.state
  {
    map o | o in universe :: o.state
  }

  /** `obj.database = self.target_db.database` */
  function Renamed(i: Ident, database: string): Ident {
    if i.Database? || i.Schema? || i.SchemaObject? then i.(database := database) else i
  }

  // ---------------------------------------------------------------------------------------------
  // Well-formed heaps
  // ---------------------------------------------------------------------------------------------

  ghost predicate Fits(h: Heap, v: Value) {
    match v
    case Atom(_) => true
    case Ref(o) => o in h
    case SetOf(filed) => forall k | k in filed :: filed[k] in h && h[filed[k]].Name?
  }

  ghost predicate Below(v: Value, n: nat) {
    match v
    case Atom(_) => true
    case Ref(o) => o.rank < n
    case SetOf(filed) => forall k | k in filed :: filed[k].rank < n
  }

  ghost predicate FitsState(h: Heap, s: State, n: nat) {
    match s
    case Name(_) => true
    case List(items) => forall i: nat | i < |items| :: Fits(h, items[i]) && Below(items[i], n)
    case Fields(entries) => forall k | k in entries :: Fits(h, entries[k]) && Below(entries[k], n)
  }

  ghost predicate Closed(h: Heap) {
    forall o | o in h :: FitsState(h, h[o], o.rank)
  }

  ghost function Height(v: Value): nat {
    if v.Ref? then v.target.rank + 1 else 0
  }

  // ---------------------------------------------------------------------------------------------
  // What a value looks like, and is to look like
  // ---------------------------------------------------------------------------------------------

  /** A value without its objects; a set counts as the texts its elements are filed under. */
  datatype View =
    | Text(text: string)
    | Called(ident: Ident)
    | Sequence(items: seq<View>)
    | Record(entries: map<string, View>)
    | Texts(texts: set<string>)

  ghost function Looks(h: Heap, v: Value): View
    requires Closed(h) && Fits(h, v)
    decreases Height(v)
  {
    match v
    case Atom(text) => Text(text)
    case SetOf(filed) => Texts(filed.Keys)
    case Ref(o) =>
      match h[o]
      case Name(i) => Called(i)
      case List(items) => Sequence(seq(|items|, i requires 0 <= i < |items| => Looks(h, items[i])))
      case Fields(entries) => Record(map k | k in entries :: Looks(h, entries[k]))
  }

  /** The same value with every identifier renamed. */
  ghost function Image(h: Heap, database: string, v: Value): View
    requires Closed(h) && Fits(h, v)
    decreases Height(v)
  {
    match v
    case Atom(text) => Text(text)
    case SetOf(filed) => Texts(set k | k in filed :: Renamed(h[filed[k]].ident, database).Print())
    case Ref(o) =>
      match h[o]
      case Name(i) => Called(Renamed(i, database))
      case List(items) => Sequence(seq(|items|, i requires 0 <= i < |items| => Image(h, database, items[i])))
      case Fields(entries) => Record(map k | k in entries :: Image(h, database, entries[k]))
  }

  /** Every identifier below `v` is renamed, and every set has its elements under their current text. */
  ghost predicate Done(h: Heap, database: string, v: Value)
    requires Closed(h) && Fits(h, v)
    decreases Height(v)
  {
    match v
    case Atom(_) => true
    case SetOf(filed) =>
      forall k | k in filed ::
        var i := h[filed[k]].ident;
        Renamed(i, database) == i && i.Print() == k
    case Ref(o) =>
      match h[o]
      case Name(i) => Renamed(i, database) == i
      case List(items) => forall i: nat | i < |items| :: Done(h, database, items[i])
      case Fields(entries) => forall k | k in entries :: Done(h, database, entries[k])
  }

  lemma {:induction false} DoneLooksRenamed(h: Heap, database: string, v: Value)
    requires Closed(h) && Fits(h, v) && Done(h, database, v)
    ensures Looks(h, v) == Image(h, database, v)
    decreases Height(v)
  {
    if v.Ref? {
      match h[v.target]
      case Name(_) =>
      case List(items) =>
        forall i: nat | i < |items|
          ensures Looks(h, items[i]) == Image(h, database, items[i])
        {
          DoneLooksRenamed(h, database, items[i]);
        }
      case Fields(entries) =>
        forall k | k in entries
          ensures Looks(h, entries[k]) == Image(h, database, entries[k])
        {
          DoneLooksRenamed(h, database, entries[k]);
        }
    }
  }

  // ---------------------------------------------------------------------------------------------
  // What renaming means
  // ---------------------------------------------------------------------------------------------

  /** `now` is `was` in the target database: class, prefix and all other parts are as before.  Identifiers
      without a database, and those of database roles, stay what they were. */
  ghost predicate Moved(was: Ident, now: Ident, database: string) {
    match was
    case Database(env, _) => now == Database(env, database)
    case Schema(env, _, schema) => now == Schema(env, database, schema)
    case SchemaObject(env, _, schema, name, arguments) => now == SchemaObject(env, database, schema, name, arguments)
    case DatabaseRole(_, _, _) => now == was
    case AccountObject(_, _) => now == was
  }

  /** The text that such an identifier prints. */
  ghost predicate MovedText(was: Ident, text: string, database: string) {
    exists now :: Moved(was, now, database) && now.Print() == text
  }

  lemma RenamedIsMoved(i: Ident, database: string)
    ensures Moved(i, Renamed(i, database), database)
    ensures forall now | Moved(i, now, database) :: now == Renamed(i, database)
  {
  }

  lemma RenamedText(i: Ident, database: string, text: string)
    ensures MovedText(i, text, database) <==> text == Renamed(i, database).Print()
  {
    RenamedIsMoved(i, database);
  }

  ghost predicate HasMovedText(texts: set<string>, was: Ident, database: string) {
    exists text :: text in texts && MovedText(was, text, database)
  }

  ghost predicate IsMovedText(h: Heap, filed: map<string, Obj>, text: string, database: string)
    requires Fits(h, SetOf(filed))
  {
    exists k :: k in filed && MovedText(h[filed[k]].ident, text, database)
  }

  /** `view` is what `v` looked like, with every identifier moved to the target database. */
  ghost predicate LooksMoved(h: Heap, database: string, v: Value, view: View)
    requires Closed(h) && Fits(h, v)
    decreases Height(v)
  {
    match v
    case Atom(text) => view == Text(text)
    case SetOf(filed) =>
      && view.Texts?
      && (forall k | k in filed :: HasMovedText(view.texts, h[filed[k]].ident, database))
      && (forall text | text in view.texts :: IsMovedText(h, filed, text, database))
    case Ref(o) =>
      match h[o]
      case Name(i) => view.Called? && Moved(i, view.ident, database)
      case List(items) =>
        && view.Sequence? && |view.items| == |items|
        && forall i: nat | i < |items| :: LooksMoved(h, database, items[i], view.items[i])
      case Fields(entries) =>
        && view.Record? && view.entries.Keys == entries.Keys
        && forall k | k in entries :: LooksMoved(h, database, entries[k], view.entries[k])
  }

  lemma ImageMovesSet(h: Heap, database: string, filed: map<string, Obj>)
    requires Closed(h) && Fits(h, SetOf(filed))
    ensures LooksMoved(h, database, SetOf(filed), Image(h, database, SetOf(filed)))
  {
    ImageHasTexts(h, database, filed);
    ImageTextsCome(h, database, filed);
  }

  lemma ImageHasTexts(h: Heap, database: string, filed: map<string, Obj>)
    requires Closed(h) && Fits(h, SetOf(filed))
    ensures var texts := Image(h, database, SetOf(filed)).texts;
      forall k | k in filed :: HasMovedText(texts, h[filed[k]].ident, database)
  {
    var texts := Image(h, database, SetOf(filed)).texts;
    forall k | k in filed
      ensures HasMovedText(texts, h[filed[k]].ident, database)
    {
      var text := Renamed(h[filed[k]].ident, database).Print();
      RenamedText(h[filed[k]].ident, database, text);
      assert text in texts;
    }
  }

  lemma ImageTextsCome(h: Heap, database: string, filed: map<string, Obj>)
    requires Closed(h) && Fits(h, SetOf(filed))
    ensures forall text | text in Image(h, database, SetOf(filed)).texts :: IsMovedText(h, filed, text, database)
  {
    forall text | text in Image(h, database, SetOf(filed)).texts
      ensures IsMovedText(h, filed, text, database)
    {
      ImageTextComes(h, database, filed, text);
    }
  }

  lemma ImageTextComes(h: Heap, database: string, filed: map<string, Obj>, text: string)
    requires Closed(h) && Fits(h, SetOf(filed)) && text in Image(h, database, SetOf(filed)).texts
    ensures IsMovedText(h, filed, text, database)
  {
    var k :| k in filed && Renamed(h[filed[k]].ident, database).Print() == text;
    RenamedText(h[filed[k]].ident, database, text);
  }

  lemma {:induction false} ImageMoves(h: Heap, database: string, v: Value)
    requires Closed(h) && Fits(h, v)
    ensures LooksMoved(h, database, v, Image(h, database, v))
    decreases Height(v)
  {
    match v
    case Atom(_) =>
    case SetOf(filed) => ImageMovesSet(h, database, filed);
    case Ref(o) =>
      match h[o] {
        case Name(i) => RenamedIsMoved(i, database);
        case List(items) =>
          forall i: nat | i < |items|
            ensures LooksMoved(h, database, items[i], Image(h, database, items[i]))
          {
            ImageMoves(h, database, items[i]);
          }
        case Fields(entries) =>
          forall k | k in entries
            ensures LooksMoved(h, database, entries[k], Image(h, database, entries[k]))
          {
            ImageMoves(h, database, entries[k]);
          }
      }
  }

  ghost predicate InTarget(i: Ident, database: string) {
    match i
    case Database(_, d) => d == database
    case Schema(_, d, _) => d == database
    case SchemaObject(_, d, _, _, _) => d == database
    case DatabaseRole(_, _, _) => true
    case AccountObject(_, _) => true
  }

  /** Every identifier below `v` carries the target database, and every set has each element under the text
      that it prints now. */
  ghost predicate AllInTarget(h: Heap, database: string, v: Value)
    requires Closed(h) && Fits(h, v)
    decreases Height(v)
  {
    match v
    case Atom(_) => true
    case SetOf(filed) =>
      forall k | k in filed :: InTarget(h[filed[k]].ident, database) && h[filed[k]].ident.Print() == k
    case Ref(o) =>
      match h[o]
      case Name(i) => InTarget(i, database)
      case List(items) => forall i: nat | i < |items| :: AllInTarget(h, database, items[i])
      case Fields(entries) => forall k | k in entries :: AllInTarget(h, database, entries[k])
  }

  lemma RenamedInTarget(i: Ident, database: string)
    requires Renamed(i, database) == i
    ensures InTarget(i, database)
  {
    RenamedIsMoved(i, database);
  }

  lemma {:induction false} DoneIsInTarget(h: Heap, database: string, v: Value)
    requires Closed(h) && Fits(h, v) && Done(h, database, v)
    ensures AllInTarget(h, database, v)
    decreases Height(v)
  {
    match v
    case Atom(_) =>
    case SetOf(filed) =>
      forall k | k in filed
        ensures InTarget(h[filed[k]].ident, database)
      {
        RenamedInTarget(h[filed[k]].ident, database);
      }
    case Ref(o) =>
      match h[o] {
        case Name(i) => RenamedInTarget(i, database);
        case List(items) =>
          forall i: nat | i < |items|
            ensures AllInTarget(h, database, items[i])
          {
            DoneIsInTarget(h, database, items[i]);
          }
        case Fields(entries) =>
          forall k | k in entries
            ensures AllInTarget(h, database, entries[k])
          {
            DoneIsInTarget(h, database, entries[k]);
          }
      }
  }

  // ---------------------------------------------------------------------------------------------
  // Progress
  // ---------------------------------------------------------------------------------------------

  ghost predicate SameKind(a: State, b: State, database: string) {
    match a
    case Name(i) => b == a || b == Name(Renamed(i, database))
    case List(items) => b.List? && |b.items| == |items|
    case Fields(entries) => b.Fields? && b.entries.Keys == entries.Keys
  }

  ghost predicate LeadsAt(h: Heap, g: Heap, database: string, o: Obj)
    requires Closed(h) && Closed(g) && o in h && o in g
  {
    && SameKind(h[o], g[o], database)
    && Image(g, database, Ref(o)) == Image(h, database, Ref(o))
    && (Done(h, database, Ref(o)) ==> Done(g, database, Ref(o)))
  }

  /** From `h` to `g` no object changes what it is to look like, and what was done stays done. */
  ghost predicate Leads(h: Heap, g: Heap, database: string) {
    && h.Keys == g.Keys
    && Closed(h) && Closed(g)
    && forall o | o in h :: LeadsAt(h, g, database, o)
  }

  lemma LeadsValue(h: Heap, g: Heap, database: string, v: Value)
    requires Leads(h, g, database) && Fits(h, v)
    ensures Fits(g, v) && Image(g, database, v) == Image(h, database, v)
    ensures Done(h, database, v) ==> Done(g, database, v)
  {
    match v
    case Atom(_) =>
    case Ref(o) => assert LeadsAt(h, g, database, o);
    case SetOf(filed) =>
      forall k | k in filed
        ensures g[filed[k]] == h[filed[k]] || g[filed[k]] == Name(Renamed(h[filed[k]].ident, database))
      {
        assert LeadsAt(h, g, database, filed[k]);
      }
  }

  lemma LeadsTrans(h: Heap, g: Heap, f: Heap, database: string)
    requires Leads(h, g, database) && Leads(g, f, database)
    ensures Leads(h, f, database)
  {
    forall o | o in h
      ensures LeadsAt(h, f, database, o)
    {
      assert LeadsAt(h, g, database, o) && LeadsAt(g, f, database, o);
    }
  }

  lemma LeadsRefl(h: Heap, database: string)
    requires Closed(h)
    ensures Leads(h, h, database)
  {
  }

  /** `b` may stand where `a` stood in an object of rank `n`. */
  ghost predicate Better(h: Heap, database: string, n: nat, a: Value, b: Value)
    requires Closed(h) && Fits(h, a)
  {
    || b == a
    || (Fits(h, b) && Below(b, n) && Image(h, database, a) == Image(h, database, b) && Done(h, database, b))
  }

  ghost predicate Improves(h: Heap, database: string, o: Obj, s: State)
    requires Closed(h) && o in h
  {
    match h[o]
    case Name(i) => s == Name(i) || s == Name(Renamed(i, database))
    case List(items) =>
      && s.List? && |s.items| == |items|
      && forall i: nat | i < |items| :: Better(h, database, o.rank, items[i], s.items[i])
    case Fields(entries) =>
      && s.Fields? && s.entries.Keys == entries.Keys
      && forall k | k in entries :: Better(h, database, o.rank, entries[k], s.entries[k])
  }

  lemma ReplaceStaysClosed(h: Heap, database: string, o: Obj, s: State)
    requires Closed(h) && o in h && Improves(h, database, o, s)
    ensures Closed(h[o := s])
    ensures forall v: Value | Fits(h, v) :: Fits(h[o := s], v)
  {
    forall v: Value | Fits(h, v)
      ensures Fits(h[o := s], v)
    {
    }
    forall x | x in h
      ensures FitsState(h[o := s], h[o := s][x], x.rank)
    {
      assert FitsState(h, h[x], x.rank);
      assert FitsState(h, h[o], o.rank);
    }
  }

  /** Replacing one state by a better one changes the image of no value. */
  lemma {:induction false} ReplaceKeeps(h: Heap, database: string, o: Obj, s: State, v: Value)
    requires Closed(h) && o in h && Improves(h, database, o, s) && Closed(h[o := s])
    requires Fits(h, v) && Fits(h[o := s], v)
    ensures Image(h[o := s], database, v) == Image(h, database, v)
    ensures Done(h, database, v) ==> Done(h[o := s], database, v)
    decreases Height(v), 0
  {
    var g := h[o := s];
    match v
    case Atom(_) =>
    case SetOf(filed) => ReplaceKeepsSet(h, database, o, s, filed);
    case Ref(x) =>
      assert FitsState(h, h[x], x.rank) && FitsState(g, g[x], x.rank);
      match h[x] {
        case Name(_) =>
        case List(items) => ReplaceKeepsItems(h, database, o, s, x);
        case Fields(entries) => ReplaceKeepsEntries(h, database, o, s, x);
      }
  }

  lemma ReplaceKeepsSet(h: Heap, database: string, o: Obj, s: State, filed: map<string, Obj>)
    requires Closed(h) && o in h && Improves(h, database, o, s) && Closed(h[o := s])
    requires Fits(h, SetOf(filed)) && Fits(h[o := s], SetOf(filed))
    ensures Image(h[o := s], database, SetOf(filed)) == Image(h, database, SetOf(filed))
    ensures Done(h, database, SetOf(filed)) ==> Done(h[o := s], database, SetOf(filed))
  {
    forall k | k in filed
      ensures Renamed(h[o := s][filed[k]].ident, database) == Renamed(h[filed[k]].ident, database)
    {
    }
  }

  lemma {:induction false} ReplaceKeepsSlot(h: Heap, database: string, o: Obj, s: State, a: Value, b: Value, n: nat)
    requires Closed(h) && o in h && Improves(h, database, o, s) && Closed(h[o := s])
    requires Fits(h, a) && Below(a, n) && Fits(h[o := s], b) && Below(b, n) && Better(h, database, n, a, b)
    ensures Image(h[o := s], database, b) == Image(h, database, a)
    ensures Done(h, database, a) ==> Done(h[o := s], database, b)
    decreases n, 1
  {
    ReplaceKeeps(h, database, o, s, b);
  }

  lemma {:induction false} ReplaceKeepsItems(h: Heap, database: string, o: Obj, s: State, x: Obj)
    requires Closed(h) && o in h && Improves(h, database, o, s) && Closed(h[o := s])
    requires x in h && h[x].List? && FitsState(h, h[x], x.rank) && FitsState(h[o := s], h[o := s][x], x.rank)
    ensures Image(h[o := s], database, Ref(x)) == Image(h, database, Ref(x))
    ensures Done(h, database, Ref(x)) ==> Done(h[o := s], database, Ref(x))
    decreases x.rank, 2
  {
    var g := h[o := s];
    var before, after := h[x].items, g[x].items;
    assert x != o ==> after == before;
    forall i: nat | i < |before|
      ensures Image(g, database, after[i]) == Image(h, database, before[i])
      ensures Done(h, database, before[i]) ==> Done(g, database, after[i])
    {
      ReplaceKeepsSlot(h, database, o, s, before[i], after[i], x.rank);
    }
  }

  lemma {:induction false} ReplaceKeepsEntries(h: Heap, database: string, o: Obj, s: State, x: Obj)
    requires Closed(h) && o in h && Improves(h, database, o, s) && Closed(h[o := s])
    requires x in h && h[x].Fields? && FitsState(h, h[x], x.rank) && FitsState(h[o := s], h[o := s][x], x.rank)
    ensures Image(h[o := s], database, Ref(x)) == Image(h, database, Ref(x))
    ensures Done(h, database, Ref(x)) ==> Done(h[o := s], database, Ref(x))
    decreases x.rank, 2
  {
    var g := h[o := s];
    var before, after := h[x].entries, g[x].entries;
    assert x != o ==> after == before;
    assert after.Keys == before.Keys;
    forall k | k in before
      ensures Image(g, database, after[k]) == Image(h, database, before[k])
      ensures Done(h, database, before[k]) ==> Done(g, database, after[k])
    {
      ReplaceKeepsSlot(h, database, o, s, before[k], after[k], x.rank);
    }
  }

  lemma ReplaceLeads(h: Heap, database: string, o: Obj, s: State)
    requires Closed(h) && o in h && Improves(h, database, o, s)
    ensures Leads(h, h[o := s], database)
  {
    var g := h[o := s];
    ReplaceStaysClosed(h, database, o, s);
    forall x | x in h
      ensures LeadsAt(h, g, database, x)
    {
      ReplaceKeeps(h, database, o, s, Ref(x));
    }
  }

  // ---------------------------------------------------------------------------------------------
  // The conversion
  // ---------------------------------------------------------------------------------------------

  /** What one call of `convert_object_recursive` on `v` promises. */
  ghost predicate Converted(h: Heap, g: Heap, database: string, v: Value, r: Value)
  {
    && Leads(h, g, database)
    && Fits(h, v) && Fits(g, r)
    && Image(g, database, r) == Image(h, database, v)
    && Done(g, database, r)
    && (v.Ref? ==> r == v)
    && (v.Atom? ==> r == v)
    && (v.SetOf? ==> r.SetOf? && r.filed.Values <= v.filed.Values)
  }

  lemma BelowConverted(h: Heap, g: Heap, database: string, v: Value, r: Value, n: nat)
    requires Converted(h, g, database, v, r) && Below(v, n)
    ensures Below(r, n)
  {
    if r.SetOf? {
      forall k | k in r.filed
        ensures r.filed[k].rank < n
      {
        assert r.filed[k] in r.filed.Values;
        assert r.filed[k] in v.filed.Values;
      }
    }
  }

  /** The result may take the place of the value in the object it came from. */
  lemma ConvertedFits(h: Heap, g: Heap, database: string, o: Obj, v: Value, r: Value)
    requires Converted(h, g, database, v, r) && o in h && Below(v, o.rank)
    ensures o in g && FitsState(g, g[o], o.rank)
    ensures Fits(g, v) && Fits(g, r) && Below(r, o.rank) && Done(g, database, r)
    ensures Image(g, database, v) == Image(g, database, r)
  {
    LeadsValue(h, g, database, v);
    BelowConverted(h, g, database, v, r, o.rank);
  }

  /** `convert_object_recursive`.  Objects that nothing below `v` can refer to stay as they are. */
  method ConvertObjectRecursive(v: Value, database: string, ghost n: nat, ghost universe: set<Obj>)
    returns (r: Value)
    requires Closed(Snapshot(universe)) && Fits(Snapshot(universe), v) && Below(v, n)
    modifies universe
    ensures Converted(old(Snapshot(universe)), Snapshot(universe), database, v, r)
    ensures forall x | x in universe && x.rank >= n :: x.state == old(x.state)
    decreases n, if v.SetOf? then 4 else 1
  {
    match v
    case Atom(_) =>
      r := v;
      LeadsRefl(Snapshot(universe), database);
    case SetOf(filed) =>
      r := ConvertSet(filed, database, n, universe);
    case Ref(o) =>
      r := v;
      match o.state {
        case Fields(_) => ConvertFields(o, database, universe);
        case List(_) => ConvertList(o, database, universe);
        case Name(i) => ConvertIdent(o, database, universe);
      }
  }

  method ConvertIdent(o: Obj, database: string, ghost universe: set<Obj>)
    requires o in universe && Closed(Snapshot(universe)) && o.state.Name?
    modifies universe
    ensures Converted(old(Snapshot(universe)), Snapshot(universe), database, Ref(o), Ref(o))
    ensures forall x | x in universe && x != o :: x.state == old(x.state)
  {
    ghost var h := Snapshot(universe);
    var s := Name(Renamed(o.state.ident, database));
    ReplaceLeads(h, database, o, s);
    o.state := s;
    assert Snapshot(universe) == h[o := s];
    assert LeadsAt(h, h[o := s], database, o);
  }

  method ConvertList(o: Obj, database: string, ghost universe: set<Obj>)
    requires o in universe && Closed(Snapshot(universe)) && o.state.List?
    modifies universe
    ensures Converted(old(Snapshot(universe)), Snapshot(universe), database, Ref(o), Ref(o))
    ensures forall x | x in universe && x.rank > o.rank :: x.state == old(x.state)
    decreases o.rank, 6
  {
    ghost var h := Snapshot(universe);
    LeadsRefl(h, database);
    var count := |o.state.items|;
    for index := 0 to count
      invariant Leads(h, Snapshot(universe), database)
      invariant o.state.List? && |o.state.items| == count
      invariant ItemsDone(Snapshot(universe), database, o, index)
      invariant forall x | x in universe && x.rank > o.rank :: x.state == old(x.state)
    {
      ghost var before := Snapshot(universe);
      ConvertItem(o, index, database, universe);
      LeadsTrans(h, before, Snapshot(universe), database);
    }
    assert LeadsAt(h, Snapshot(universe), database, o);
  }

  ghost predicate ItemsDone(h: Heap, database: string, o: Obj, count: nat) {
    && Closed(h) && o in h && h[o].List? && count <= |h[o].items|
    && forall i: nat | i < count :: Fits(h, h[o].items[i]) && Done(h, database, h[o].items[i])
  }

  method ConvertItem(o: Obj, index: nat, database: string, ghost universe: set<Obj>)
    requires o in universe && o.state.List? && index < |o.state.items|
    requires ItemsDone(Snapshot(universe), database, o, index)
    modifies universe
    ensures Leads(old(Snapshot(universe)), Snapshot(universe), database)
    ensures o.state.List? && |o.state.items| == old(|o.state.items|)
    ensures ItemsDone(Snapshot(universe), database, o, index + 1)
    ensures forall x | x in universe && x.rank > o.rank :: x.state == old(x.state)
    decreases o.rank, 5
  {
    ghost var before := Snapshot(universe);
    assert FitsState(before, before[o], o.rank);
    var item := o.state.items[index];
    var converted := ConvertObjectRecursive(item, database, o.rank, universe);
    ghost var after := Snapshot(universe);
    assert after[o] == before[o];
    ItemsStayDone(before, after, database, o, index);
    ConvertedFits(before, after, database, o, item, converted);
    if converted != item {
      SetItem(o, index, converted, database, before, universe);
    }
  }

  method SetItem(o: Obj, index: nat, v: Value, database: string, ghost h: Heap, ghost universe: set<Obj>)
    requires o in universe && Leads(h, Snapshot(universe), database) && o.state.List? && index < |o.state.items|
    requires Fits(Snapshot(universe), v) && Below(v, o.rank) && Done(Snapshot(universe), database, v)
    requires FitsState(Snapshot(universe), o.state, o.rank)
    requires Image(Snapshot(universe), database, o.state.items[index]) == Image(Snapshot(universe), database, v)
    requires ItemsDone(Snapshot(universe), database, o, index)
    modifies o
    ensures Leads(h, Snapshot(universe), database)
    ensures o.state == List(old(o.state.items)[index := v])
    ensures ItemsDone(Snapshot(universe), database, o, index + 1)
  {
    ghost var g := Snapshot(universe);
    ReplaceItem(h, g, database, o, index, v);
    o.state := List(o.state.items[index := v]);
    assert Snapshot(universe) == g[o := o.state];
  }

  lemma ItemsStayDone(h: Heap, g: Heap, database: string, o: Obj, count: nat)
    requires Leads(h, g, database) && ItemsDone(h, database, o, count) && g[o] == h[o]
    ensures ItemsDone(g, database, o, count)
  {
    forall i: nat | i < count
      ensures Fits(g, g[o].items[i]) && Done(g, database, g[o].items[i])
    {
      LeadsValue(h, g, database, h[o].items[i]);
    }
  }

  lemma ReplaceItem(h: Heap, g: Heap, database: string, o: Obj, index: nat, v: Value)
    requires Leads(h, g, database) && o in g && g[o].List? && index < |g[o].items|
    requires Fits(g, v) && Below(v, o.rank) && Done(g, database, v)
    requires FitsState(g, g[o], o.rank) && Image(g, database, g[o].items[index]) == Image(g, database, v)
    requires ItemsDone(g, database, o, index)
    ensures var f := g[o := List(g[o].items[index := v])];
      Leads(h, f, database) && ItemsDone(f, database, o, index + 1)
  {
    var s := List(g[o].items[index := v]);
    var f := g[o := s];
    ReplaceLeads(g, database, o, s);
    LeadsTrans(h, g, f, database);
    forall i: nat | i < index + 1
      ensures Fits(f, f[o].items[i]) && Done(f, database, f[o].items[i])
    {
      LeadsValue(g, f, database, s.items[i]);
    }
  }

  method ConvertFields(o: Obj, database: string, ghost universe: set<Obj>)
    requires o in universe && Closed(Snapshot(universe)) && o.state.Fields?
    modifies universe
    ensures Converted(old(Snapshot(universe)), Snapshot(universe), database, Ref(o), Ref(o))
    ensures forall x | x in universe && x.rank > o.rank :: x.state == old(x.state)
    decreases o.rank, 6
  {
    ghost var h := Snapshot(universe);
    LeadsRefl(h, database);
    var todo := o.state.entries.Keys;
    while todo != {}
      invariant Leads(h, Snapshot(universe), database)
      invariant o.state.Fields? && todo <= o.state.entries.Keys
      invariant EntriesDone(Snapshot(universe), database, o, todo)
      invariant forall x | x in universe && x.rank > o.rank :: x.state == old(x.state)
      decreases |todo|
    {
      ghost var before := Snapshot(universe);
      var key :| key in todo;
      ConvertEntry(o, key, todo, database, universe);
      LeadsTrans(h, before, Snapshot(universe), database);
      todo := todo - {key};
    }
    assert LeadsAt(h, Snapshot(universe), database, o);
  }

  ghost predicate EntriesDone(h: Heap, database: string, o: Obj, todo: set<string>) {
    && Closed(h) && o in h && h[o].Fields?
    && forall k | k in h[o].entries && k !in todo :: Fits(h, h[o].entries[k]) && Done(h, database, h[o].entries[k])
  }

  method ConvertEntry(o: Obj, key: string, ghost todo: set<string>, database: string, ghost universe: set<Obj>)
    requires o in universe && o.state.Fields? && key in o.state.entries
    requires EntriesDone(Snapshot(universe), database, o, todo)
    modifies universe
    ensures Leads(old(Snapshot(universe)), Snapshot(universe), database)
    ensures o.state.Fields? && o.state.entries.Keys == old(o.state.entries.Keys)
    ensures EntriesDone(Snapshot(universe), database, o, todo - {key})
    ensures forall x | x in universe && x.rank > o.rank :: x.state == old(x.state)
    decreases o.rank, 5
  {
    ghost var before := Snapshot(universe);
    assert FitsState(before, before[o], o.rank);
    var item := o.state.entries[key];
    var converted := ConvertObjectRecursive(item, database, o.rank, universe);
    ghost var after := Snapshot(universe);
    assert after[o] == before[o];
    EntriesStayDone(before, after, database, o, todo);
    ConvertedFits(before, after, database, o, item, converted);
    if converted != item {
      SetEntry(o, key, converted, todo, database, before, universe);
    } else {
      EntryIsDone(after, database, o, todo, key);
    }
  }

  lemma EntryIsDone(h: Heap, database: string, o: Obj, todo: set<string>, key: string)
    requires EntriesDone(h, database, o, todo) && key in h[o].entries
    requires Fits(h, h[o].entries[key]) && Done(h, database, h[o].entries[key])
    ensures EntriesDone(h, database, o, todo - {key})
  {
  }

  method SetEntry(o: Obj, key: string, v: Value, ghost todo: set<string>, database: string, ghost h: Heap,
                  ghost universe: set<Obj>)
    requires o in universe && Leads(h, Snapshot(universe), database) && o.state.Fields? && key in o.state.entries
    requires Fits(Snapshot(universe), v) && Below(v, o.rank) && Done(Snapshot(universe), database, v)
    requires FitsState(Snapshot(universe), o.state, o.rank)
    requires Image(Snapshot(universe), database, o.state.entries[key]) == Image(Snapshot(universe), database, v)
    requires EntriesDone(Snapshot(universe), database, o, todo)
    modifies o
    ensures Leads(h, Snapshot(universe), database)
    ensures o.state == Fields(old(o.state.entries)[key := v])
    ensures EntriesDone(Snapshot(universe), database, o, todo - {key})
  {
    ghost var g := Snapshot(universe);
    ReplaceEntry(h, g, database, o, todo, key, v);
    o.state := Fields(o.state.entries[key := v]);
    assert Snapshot(universe) == g[o := o.state];
  }

  lemma EntriesStayDone(h: Heap, g: Heap, database: string, o: Obj, todo: set<string>)
    requires Leads(h, g, database) && EntriesDone(h, database, o, todo) && g[o] == h[o]
    ensures EntriesDone(g, database, o, todo)
  {
    forall k | k in g[o].entries && k !in todo
      ensures Fits(g, g[o].entries[k]) && Done(g, database, g[o].entries[k])
    {
      LeadsValue(h, g, database, h[o].entries[k]);
    }
  }

  lemma ReplaceEntry(h: Heap, g: Heap, database: string, o: Obj, todo: set<string>, key: string, v: Value)
    requires Leads(h, g, database) && o in g && g[o].Fields? && key in g[o].entries
    requires Fits(g, v) && Below(v, o.rank) && Done(g, database, v)
    requires FitsState(g, g[o], o.rank) && Image(g, database, g[o].entries[key]) == Image(g, database, v)
    requires EntriesDone(g, database, o, todo)
    ensures var f := g[o := Fields(g[o].entries[key := v])];
      Leads(h, f, database) && EntriesDone(f, database, o, todo - {key})
  {
    var f := g[o := Fields(g[o].entries[key := v])];
    EntryLeads(g, database, o, key, v);
    LeadsTrans(h, g, f, database);
    EntryDone(g, f, database, o, todo, key, v);
  }

  lemma EntryDone(g: Heap, f: Heap, database: string, o: Obj, todo: set<string>, key: string, v: Value)
    requires o in g && g[o].Fields? && key in g[o].entries && f == g[o := Fields(g[o].entries[key := v])]
    requires Leads(g, f, database) && Fits(g, v) && Done(g, database, v) && EntriesDone(g, database, o, todo)
    ensures EntriesDone(f, database, o, todo - {key})
  {
    forall k | k in f[o].entries && k !in todo - {key}
      ensures Fits(f, f[o].entries[k]) && Done(f, database, f[o].entries[k])
    {
      LeadsValue(g, f, database, f[o].entries[k]);
    }
  }

  lemma EntryLeads(g: Heap, database: string, o: Obj, key: string, v: Value)
    requires Closed(g) && o in g && g[o].Fields? && key in g[o].entries
    requires Fits(g, v) && Below(v, o.rank) && Done(g, database, v)
    requires FitsState(g, g[o], o.rank) && Image(g, database, g[o].entries[key]) == Image(g, database, v)
    ensures Leads(g, g[o := Fields(g[o].entries[key := v])], database)
  {
    var s := Fields(g[o].entries[key := v]);
    assert Better(g, database, o.rank, g[o].entries[key], v);
    assert s.entries.Keys == g[o].entries.Keys;
    ReplaceLeads(g, database, o, s);
  }

  /** The set is built again, each element under the text it has after its conversion. */
  method ConvertSet(filed: map<string, Obj>, database: string, ghost n: nat, ghost universe: set<Obj>)
    returns (r: Value)
    requires Closed(Snapshot(universe)) && Fits(Snapshot(universe), SetOf(filed)) && Below(SetOf(filed), n)
    modifies universe
    ensures Converted(old(Snapshot(universe)), Snapshot(universe), database, SetOf(filed), r)
    ensures forall x | x in universe && x.rank >= n :: x.state == old(x.state)
    decreases n, 3
  {
    ghost var h := Snapshot(universe);
    LeadsRefl(h, database);
    var rebuilt: map<string, Obj> := map[];
    var todo := filed.Keys;
    ghost var done: set<string> := {};
    while todo != {}
      invariant todo <= filed.Keys && done <= filed.Keys && forall k | k in filed :: k in done <==> k !in todo
      invariant Leads(h, Snapshot(universe), database)
      invariant Rebuilt(h, Snapshot(universe), database, filed, done, rebuilt)
      invariant forall x | x in universe && x.rank >= n :: x.state == old(x.state)
      decreases |todo|
    {
      var key :| key in todo;
      rebuilt := ConvertElement(filed, key, rebuilt, database, h, done, n, universe);
      todo, done := todo - {key}, done + {key};
    }
    r := SetOf(rebuilt);
    assert done == filed.Keys;
    RebuiltIsConverted(h, Snapshot(universe), database, filed, rebuilt);
  }

  /** One element of the set: converted, and added to the new set under its new text. */
  method ConvertElement(filed: map<string, Obj>, key: string, rebuilt: map<string, Obj>, database: string,
                        ghost h: Heap, ghost done: set<string>, ghost n: nat, ghost universe: set<Obj>)
    returns (next: map<string, Obj>)
    requires Leads(h, Snapshot(universe), database) && Fits(h, SetOf(filed)) && Below(SetOf(filed), n)
    requires key in filed && done <= filed.Keys && Rebuilt(h, Snapshot(universe), database, filed, done, rebuilt)
    modifies universe
    ensures Leads(h, Snapshot(universe), database)
    ensures Rebuilt(h, Snapshot(universe), database, filed, done + {key}, next)
    ensures forall x | x in universe && x.rank >= n :: x.state == old(x.state)
    decreases n, 2
  {
    ghost var before := Snapshot(universe);
    var item := filed[key];
    ElementIs(h, before, database, filed, key);
    var converted := ConvertObjectRecursive(Ref(item), database, n, universe);
    ghost var after := Snapshot(universe);
    LeadsTrans(h, before, after, database);
    ElementIs(h, after, database, filed, key);
    assert after[item].ident == Renamed(h[item].ident, database);
    RebuiltStays(h, before, after, database, filed, done, rebuilt);
    RebuiltAdd(h, after, database, filed, done, rebuilt, key);
    var text := item.state.ident.Print();
    next := if text in rebuilt then rebuilt else rebuilt[text := item];
  }

  ghost function NewTexts(h: Heap, database: string, filed: map<string, Obj>, done: set<string>): set<string>
    requires Fits(h, SetOf(filed)) && done <= filed.Keys
  {
    set k | k in done :: Renamed(h[filed[k]].ident, database).Print()
  }

  lemma NewTextsAdd(h: Heap, database: string, filed: map<string, Obj>, done: set<string>, key: string)
    requires Fits(h, SetOf(filed)) && done <= filed.Keys && key in filed
    ensures NewTexts(h, database, filed, done + {key})
         == NewTexts(h, database, filed, done) + {Renamed(h[filed[key]].ident, database).Print()}
  {
  }

  lemma ValuesAdd(m: map<string, Obj>, all: map<string, Obj>, text: string, key: string)
    requires m.Values <= all.Values && key in all
    ensures m[text := all[key]].Values <= all.Values
  {
    forall x | x in m[text := all[key]].Values
      ensures x in all.Values
    {
      if x !in m.Values {
        assert x == all[key] && key in all.Keys;
      }
    }
  }

  /** `rebuilt` has the elements of `filed` under `done`, as they are in `g`. */
  ghost predicate Rebuilt(
    h: Heap, g: Heap, database: string, filed: map<string, Obj>, done: set<string>, rebuilt: map<string, Obj>)
    requires Fits(h, SetOf(filed)) && done <= filed.Keys
  {
    && rebuilt.Keys == NewTexts(h, database, filed, done)
    && rebuilt.Values <= filed.Values
    && forall k | k in rebuilt ::
      && rebuilt[k] in g && g[rebuilt[k]].Name?
      && Renamed(g[rebuilt[k]].ident, database) == g[rebuilt[k]].ident
      && g[rebuilt[k]].ident.Print() == k
  }

  lemma RebuiltStays(h: Heap, g: Heap, f: Heap, database: string, filed: map<string, Obj>, done: set<string>,
                     rebuilt: map<string, Obj>)
    requires Fits(h, SetOf(filed)) && done <= filed.Keys
    requires Rebuilt(h, g, database, filed, done, rebuilt) && Leads(g, f, database)
    ensures Rebuilt(h, f, database, filed, done, rebuilt)
  {
    forall k | k in rebuilt
      ensures f[rebuilt[k]] == g[rebuilt[k]]
    {
      assert LeadsAt(g, f, database, rebuilt[k]);
    }
  }

  lemma ElementIs(h: Heap, g: Heap, database: string, filed: map<string, Obj>, key: string)
    requires Leads(h, g, database) && Fits(h, SetOf(filed)) && key in filed
    ensures filed[key] in g && g[filed[key]].Name?
    ensures Renamed(g[filed[key]].ident, database) == Renamed(h[filed[key]].ident, database)
  {
    assert LeadsAt(h, g, database, filed[key]);
  }

  lemma RebuiltAdd(h: Heap, g: Heap, database: string, filed: map<string, Obj>, done: set<string>,
                   rebuilt: map<string, Obj>, key: string)
    requires Fits(h, SetOf(filed)) && done <= filed.Keys && key in filed
    requires Rebuilt(h, g, database, filed, done, rebuilt)
    requires filed[key] in g && g[filed[key]].Name?
    requires g[filed[key]].ident == Renamed(h[filed[key]].ident, database)
    ensures var text := g[filed[key]].ident.Print();
      Rebuilt(h, g, database, filed, done + {key}, if text in rebuilt then rebuilt else rebuilt[text := filed[key]])
  {
    var item := filed[key];
    var text := g[item].ident.Print();
    var next := if text in rebuilt then rebuilt else rebuilt[text := item];
    assert next.Keys == NewTexts(h, database, filed, done + {key}) by {
      NewTextsAdd(h, database, filed, done, key);
    }
    assert next.Values <= filed.Values by {
      ValuesAdd(rebuilt, filed, text, key);
    }
    RenamedTwice(h[item].ident, database);
  }

  lemma RenamedTwice(i: Ident, database: string)
    ensures Renamed(Renamed(i, database), database) == Renamed(i, database)
  {
  }

  lemma RebuiltIsConverted(h: Heap, g: Heap, database: string, filed: map<string, Obj>, rebuilt: map<string, Obj>)
    requires Leads(h, g, database) && Fits(h, SetOf(filed))
    requires Rebuilt(h, g, database, filed, filed.Keys, rebuilt)
    ensures Converted(h, g, database, SetOf(filed), SetOf(rebuilt))
  {
    assert Fits(g, SetOf(rebuilt));
    assert Done(g, database, SetOf(rebuilt));
    DoneLooksRenamed(g, database, SetOf(rebuilt));
    assert Image(h, database, SetOf(filed)) == Texts(NewTexts(h, database, filed, filed.Keys));
  }

  /** `convert_blueprint`, after the deep copy: the blueprint looks as it did, with every identifier
      below it moved to the target database, and every set below it holds its elements under the texts they
      print now.  This holds however the objects are shared. */
  method ConvertBlueprint(blueprint: Obj, database: string, ghost universe: set<Obj>)
    requires blueprint in universe && Closed(Snapshot(universe))
    modifies universe
    ensures Closed(Snapshot(universe))
    ensures LooksMoved(old(Snapshot(universe)), database, Ref(blueprint), Looks(Snapshot(universe), Ref(blueprint)))
    ensures AllInTarget(Snapshot(universe), database, Ref(blueprint))
  {
    ghost var h := Snapshot(universe);
    var r := ConvertObjectRecursive(Ref(blueprint), database, blueprint.rank + 1, universe);
    DoneLooksRenamed(Snapshot(universe), database, r);
    ImageMoves(h, database, Ref(blueprint));
    DoneIsInTarget(Snapshot(universe), database, r);
  }

  // ---------------------------------------------------------------------------------------------
  // The configuration
  // ---------------------------------------------------------------------------------------------

  /** Names of blueprints that belong to the source database. */
  predicate Selected(i: Ident, source: Ident) {
    match i
    case Database(_, _) => i.Print() == source.Print()
    case Schema(env, database, _) => Database(env, database).Print() == source.Print()
    case SchemaObject(env, database, _, _, _) => Database(env, database).Print() == source.Print()
    case _ => false
  }

  lemma DatabasePrint(env: string, database: string)
    ensures Database(env, database).Print() == env + database
  {
  }

  lemma SelectedDatabase(i: Ident, source: Ident)
    requires source.Database? && i.env == source.env && Selected(i, source)
    ensures (i.Database? || i.Schema? || i.SchemaObject?) && i.database == source.database
  {
    DatabasePrint(i.env, i.database);
    DatabasePrint(source.env, source.database);
    var a, b := i.env + i.database, source.env + source.database;
    assert i.database == a[|i.env|..] && source.database == b[|i.env|..];
  }

  /** Two selected names that print alike after the renaming printed alike before. */
  lemma RenamingIsInjective(a: Ident, b: Ident, source: Ident, database: string)
    requires source.Database? && a.env == source.env && b.env == source.env
    requires Selected(a, source) && Selected(b, source)
    requires Renamed(a, database).Valid() && Renamed(b, database).Valid()
    requires Renamed(a, database).Print() == Renamed(b, database).Print()
    ensures a.Print() == b.Print()
  {
    SelectedDatabase(a, source);
    SelectedDatabase(b, source);
    var ra, rb := Renamed(a, database), Renamed(b, database);
    PrintDeterminesPath(ra, rb);
    assert a.Path() == ra.Path()[0 := a.env + a.database];
    assert b.Path() == rb.Path()[0 := b.env + b.database];
    assert a.Suffix() == ra.Suffix() && b.Suffix() == rb.Suffix();
  }

  function NewText(i: Ident, database: string): string {
    Renamed(i, database).Print()
  }

  predicate Distinct(names: seq<Ident>) {
    forall i: nat, j: nat | i < j < |names| :: names[i].Print() != names[j].Print()
  }

  predicate Renamable(names: seq<Ident>, source: Ident, database: string) {
    forall i | i in names :: i.env == source.env && Renamed(i, database).Valid()
  }

  predicate Kept(renamed: map<string, Ident>, i: Ident, database: string) {
    NewText(i, database) in renamed && renamed[NewText(i, database)] == Renamed(i, database)
  }

  predicate Comes(names: seq<Ident>, k: nat, source: Ident, database: string, text: string)
    requires k <= |names|
  {
    exists i: nat :: i < k && Selected(names[i], source) && NewText(names[i], database) == text
  }

  lemma Grows<K, V>(m: map<K, V>, k: K, v: V)
    requires k !in m
    ensures |m[k := v]| == |m| + 1
  {
    assert m[k := v].Keys == m.Keys + {k};
    assert |m| == |m.Keys| && |m[k := v]| == |m[k := v].Keys|;
  }

  lemma SelectionStep(names: seq<Ident>, k: nat, source: Ident)
    requires k < |names|
    ensures |Selection(names[..k + 1], source)|
         == |Selection(names[..k], source)| + if Selected(names[k], source) then 1 else 0
  {
    assert names[..k + 1][..k] == names[..k];
  }

  lemma NotYet(names: seq<Ident>, k: nat, source: Ident, database: string)
    requires source.Database? && Distinct(names) && Renamable(names, source, database)
    requires k < |names| && Selected(names[k], source)
    ensures !Comes(names, k, source, database, NewText(names[k], database))
  {
    if i: nat :| i < k && Selected(names[i], source) && NewText(names[i], database) == NewText(names[k], database) {
      RenamingIsInjective(names[i], names[k], source, database);
    }
  }

  /** What the first `k` names leave in the new configuration. */
  ghost predicate Collected(
    names: seq<Ident>, k: nat, source: Ident, database: string, renamed: map<string, Ident>)
    requires k <= |names|
  {
    && (forall i: nat | i < k && Selected(names[i], source) :: Kept(renamed, names[i], database))
    && (forall text | text in renamed :: Comes(names, k, source, database, text))
  }

  lemma NotSelectedStep(names: seq<Ident>, k: nat, source: Ident, database: string, renamed: map<string, Ident>)
    requires k < |names| && Collected(names, k, source, database, renamed) && !Selected(names[k], source)
    ensures Collected(names, k + 1, source, database, renamed)
  {
    forall text | text in renamed
      ensures Comes(names, k + 1, source, database, text)
    {
      ComesStill(names, k, source, database, text);
    }
  }

  lemma SelectedStep(names: seq<Ident>, k: nat, source: Ident, database: string, renamed: map<string, Ident>)
    requires k < |names| && Collected(names, k, source, database, renamed)
    requires Selected(names[k], source) && NewText(names[k], database) !in renamed
    ensures Collected(names, k + 1, source, database,
              renamed[NewText(names[k], database) := Renamed(names[k], database)])
  {
    AllKept(names, k, source, database, renamed);
    AllCome(names, k, source, database, renamed);
  }

  lemma AllKept(names: seq<Ident>, k: nat, source: Ident, database: string, renamed: map<string, Ident>)
    requires k < |names| && Collected(names, k, source, database, renamed)
    requires NewText(names[k], database) !in renamed
    ensures var next := renamed[NewText(names[k], database) := Renamed(names[k], database)];
      forall i: nat | i < k + 1 && Selected(names[i], source) :: Kept(next, names[i], database)
  {
    var text, image := NewText(names[k], database), Renamed(names[k], database);
    forall i: nat | i < k + 1 && Selected(names[i], source)
      ensures Kept(renamed[text := image], names[i], database)
    {
      if i < k {
        KeptStays(renamed, names[i], database, text, image);
      }
    }
  }

  lemma AllCome(names: seq<Ident>, k: nat, source: Ident, database: string, renamed: map<string, Ident>)
    requires k < |names| && Collected(names, k, source, database, renamed) && Selected(names[k], source)
    ensures var next := renamed[NewText(names[k], database) := Renamed(names[k], database)];
      forall t | t in next :: Comes(names, k + 1, source, database, t)
  {
    ComesNow(names, k, source, database);
    forall t | t in renamed
      ensures Comes(names, k + 1, source, database, t)
    {
      ComesStill(names, k, source, database, t);
    }
  }

  lemma ComesNow(names: seq<Ident>, k: nat, source: Ident, database: string)
    requires k < |names| && Selected(names[k], source)
    ensures Comes(names, k + 1, source, database, NewText(names[k], database))
  {
  }

  lemma KeptStays(renamed: map<string, Ident>, i: Ident, database: string, text: string, other: Ident)
    requires Kept(renamed, i, database) && text !in renamed
    ensures Kept(renamed[text := other], i, database)
  {
  }

  lemma ComesStill(names: seq<Ident>, k: nat, source: Ident, database: string, text: string)
    requires k < |names| && Comes(names, k, source, database, text)
    ensures Comes(names, k + 1, source, database, text)
  {
  }

  /** Of the source database: the database itself, its schemas, and what is in them. */
  ghost predicate OfDatabase(i: Ident, database: string) {
    match i
    case Database(_, d) => d == database
    case Schema(_, d, _) => d == database
    case SchemaObject(_, d, _, _, _) => d == database
    case DatabaseRole(_, _, _) => false
    case AccountObject(_, _) => false
  }

  lemma SelectedExactly(i: Ident, source: Ident)
    requires source.Database? && i.env == source.env
    ensures Selected(i, source) <==> OfDatabase(i, source.database)
  {
    if Selected(i, source) {
      SelectedDatabase(i, source);
    } else if i.Database? || i.Schema? || i.SchemaObject? {
      DatabasePrint(i.env, i.database);
      DatabasePrint(source.env, source.database);
    }
  }

  lemma CollectedMeans(names: seq<Ident>, source: Ident, database: string, renamed: map<string, Ident>)
    requires source.Database? && Renamable(names, source, database)
    requires Collected(names, |names|, source, database, renamed)
    ensures forall i | i in names && OfDatabase(i, source.database) :: HasMoved(renamed, i, database)
    ensures forall text | text in renamed :: ComesFromNames(names, source, database, text, renamed[text])
  {
    forall i | i in names && OfDatabase(i, source.database)
      ensures HasMoved(renamed, i, database)
    {
      SelectedExactly(i, source);
      var n: nat :| n < |names| && names[n] == i;
      assert Kept(renamed, names[n], database);
      RenamedIsMoved(i, database);
    }
    forall text | text in renamed
      ensures ComesFromNames(names, source, database, text, renamed[text])
    {
      assert Comes(names, |names|, source, database, text);
      var n: nat :| n < |names| && Selected(names[n], source) && NewText(names[n], database) == text;
      assert names[n] in names && Kept(renamed, names[n], database);
      SelectedExactly(names[n], source);
      RenamedIsMoved(names[n], database);
    }
  }

  /** The name is filed, moved to the target database, under the text it then prints. */
  ghost predicate HasMoved(renamed: map<string, Ident>, was: Ident, database: string) {
    exists text :: text in renamed && text == renamed[text].Print() && Moved(was, renamed[text], database)
  }

  ghost predicate ComesFromNames(names: seq<Ident>, source: Ident, database: string, text: string, now: Ident)
    requires source.Database?
  {
    text == now.Print() && exists was :: was in names && OfDatabase(was, source.database) && Moved(was, now, database)
  }

  /** `convert_config`, for the blueprints of one class: every blueprint of the source database is in the new
      configuration under its name in the target database, no other is, and none replaces another. */
  method ConvertConfig(names: seq<Ident>, source: Ident, database: string) returns (renamed: map<string, Ident>)
    requires source.Database? && Distinct(names) && Renamable(names, source, database)
    ensures |renamed| == |Selection(names, source)|
    ensures forall i | i in names && OfDatabase(i, source.database) :: HasMoved(renamed, i, database)
    ensures forall text | text in renamed :: ComesFromNames(names, source, database, text, renamed[text])
  {
    renamed := ConvertNames(names, source, database);
    CollectedMeans(names, source, database, renamed);
  }

  /** The loop of `convert_config`. */
  method ConvertNames(names: seq<Ident>, source: Ident, database: string) returns (renamed: map<string, Ident>)
    requires source.Database? && Distinct(names) && Renamable(names, source, database)
    ensures |renamed| == |Selection(names, source)|
    ensures Collected(names, |names|, source, database, renamed)
  {
    renamed := map[];
    for k := 0 to |names|
      invariant |renamed| == |Selection(names[..k], source)|
      invariant Collected(names, k, source, database, renamed)
    {
      SelectionStep(names, k, source);
      if Selected(names[k], source) {
        var text := NewText(names[k], database);
        NotYet(names, k, source, database);
        assert text !in renamed;
        Grows(renamed, text, Renamed(names[k], database));
        SelectedStep(names, k, source, database, renamed);
        renamed := renamed[text := Renamed(names[k], database)];
      } else {
        NotSelectedStep(names, k, source, database, renamed);
      }
    }
    assert names[..|names|] == names;
  }

  function Selection(names: seq<Ident>, source: Ident): seq<Ident> {
    if names == [] then []
    else
      var last := names[|names| - 1];
      Selection(names[..|names| - 1], source) + if Selected(last, source) then [last] else []
  }
}
