/** The run state of alerts: `AlertResolver.compare_object` and `create_object`.  Snowflake lets the
    definition of an alert change only while the alert is suspended. */
module Alerts {
  import opened Basics
  import opened Strings

  /** `enabled` is the wanted run state. */
  datatype Blueprint = Blueprint(
    warehouse: Option<string>, schedule: string, condition: string, action: string, enabled: bool)

  /** A row of SHOW ALERTS; the warehouse of an alert without one is empty or missing. */
  datatype Row = Row(
    warehouse: Option<string>, schedule: string, condition: string, action: string, state: Option<string>)

  /** The alert itself. */
  datatype Alert = Alert(warehouse: Option<string>, schedule: string, condition: string, action: string, started: bool)

  datatype Statement =
    | Create(warehouse: Option<string>, schedule: string, condition: string, action: string)
    | Suspend
    | Resume
    | SetWarehouse(name: string)
    | UnsetWarehouse
    | SetSchedule(schedule: string)
    | ModifyCondition(condition: string)
    | ModifyAction(action: string)
  {
    predicate ChangesDefinition() {
      SetWarehouse? || UnsetWarehouse? || SetSchedule? || ModifyCondition? || ModifyAction?
    }
  }

  /** The alert in the account; `Failed` once a statement was refused. */
  datatype World = Failed | Absent | There(alert: Alert)

  /** A statement is refused on a missing or existing alert, and where the alert must be suspended
      and is not. */
  function Exec(w: World, s: Statement): World {
    if s.Create? then
      if w.Absent? then There(Alert(s.warehouse, s.schedule, s.condition, s.action, false)) else Failed
    else if !w.There? || (s.ChangesDefinition() && w.alert.started) then Failed
    else
      match s
      case Suspend => There(w.alert.(started := false))
      case Resume => There(w.alert.(started := true))
      case SetWarehouse(name) => There(w.alert.(warehouse := Some(name)))
      case UnsetWarehouse => There(w.alert.(warehouse := None))
      case SetSchedule(schedule) => There(w.alert.(schedule := schedule))
      case ModifyCondition(condition) => There(w.alert.(condition := condition))
      case ModifyAction(action) => There(w.alert.(action := action))
  }

  function ExecAll(w: World, ss: seq<Statement>): World {
    if ss == [] then w else Exec(ExecAll(w, ss[..|ss| - 1]), ss[|ss| - 1])
  }

  function Warehouse(row: Row): Option<string> {
    if row.warehouse == Some("") then None else row.warehouse
  }

  predicate WasStarted(row: Row) {
    row.state.Some? && Upper(row.state.value) == "STARTED"
  }

  /** The row is what SHOW ALERTS says of the alert: the state `started`, in letters of either case, and of a
      missing warehouse nothing or an empty name. */
  predicate Shows(row: Row, alert: Alert) {
    && (row.warehouse == alert.warehouse || (row.warehouse == Some("") && alert.warehouse == None))
    && alert.warehouse != Some("")
    && row.schedule == alert.schedule
    && row.condition == alert.condition
    && row.action == alert.action
    && (alert.started <==> row.state.Some? && Upper(row.state.value) == "STARTED")
  }

  /** The alert that the blueprint describes. */
  function Declared(bp: Blueprint): Alert {
    Alert(bp.warehouse, bp.schedule, bp.condition, bp.action, bp.enabled)
  }

  predicate NeedsDefinitionAlter(bp: Blueprint, row: Row) {
    || bp.warehouse != Warehouse(row)
    || bp.schedule != row.schedule
    || bp.condition != row.condition
    || bp.action != row.action
  }

  function SuspendFirst(bp: Blueprint, row: Row): seq<Statement> {
    if NeedsDefinitionAlter(bp, row) && WasStarted(row) then [Suspend] else []
  }

  function WarehouseStatements(bp: Blueprint, row: Row): seq<Statement> {
    if bp.warehouse == Warehouse(row) then []
    else if bp.warehouse.Some? then [SetWarehouse(bp.warehouse.value)]
    else [UnsetWarehouse]
  }

  function ScheduleStatements(bp: Blueprint, row: Row): seq<Statement> {
    if bp.schedule == row.schedule then [] else [SetSchedule(bp.schedule)]
  }

  function ConditionStatements(bp: Blueprint, row: Row): seq<Statement> {
    if bp.condition == row.condition then [] else [ModifyCondition(bp.condition)]
  }

  function ActionStatements(bp: Blueprint, row: Row): seq<Statement> {
    if bp.action == row.action then [] else [ModifyAction(bp.action)]
  }

  function DefinitionStatements(bp: Blueprint, row: Row): seq<Statement> {
    WarehouseStatements(bp, row) + ScheduleStatements(bp, row)
    + ConditionStatements(bp, row) + ActionStatements(bp, row)
  }

  function RunStateStatements(bp: Blueprint, row: Row): seq<Statement> {
    var suspended := NeedsDefinitionAlter(bp, row) && WasStarted(row);
    if bp.enabled then (if !WasStarted(row) || suspended then [Resume] else [])
    else if WasStarted(row) && !suspended then [Suspend]
    else []
  }

  function Statements(bp: Blueprint, row: Row): seq<Statement> {
    SuspendFirst(bp, row) + DefinitionStatements(bp, row) + RunStateStatements(bp, row)
  }

  lemma {:induction false} ExecConcat(w: World, a: seq<Statement>, b: seq<Statement>)
    ensures ExecAll(w, a + b) == ExecAll(ExecAll(w, a), b)
  {
    if b == [] {
      assert a + b == a;
    } else {
      assert (a + b)[..|a + b| - 1] == a + b[..|b| - 1];
      ExecConcat(w, a, b[..|b| - 1]);
    }
  }

  lemma ExecOne(w: World, ss: seq<Statement>)
    requires |ss| <= 1
    ensures ExecAll(w, ss) == if ss == [] then w else Exec(w, ss[0])
  {
    if ss != [] {
      assert ss[..0] == [];
    }
  }

  lemma WarehouseReaches(bp: Blueprint, row: Row, a: Alert)
    requires Warehouse(row) == a.warehouse && (WarehouseStatements(bp, row) == [] || !a.started)
    ensures ExecAll(There(a), WarehouseStatements(bp, row)) == There(a.(warehouse := bp.warehouse))
  {
    ExecOne(There(a), WarehouseStatements(bp, row));
  }

  lemma ScheduleReaches(bp: Blueprint, row: Row, a: Alert)
    requires row.schedule == a.schedule && (ScheduleStatements(bp, row) == [] || !a.started)
    ensures ExecAll(There(a), ScheduleStatements(bp, row)) == There(a.(schedule := bp.schedule))
  {
    ExecOne(There(a), ScheduleStatements(bp, row));
  }

  lemma ConditionReaches(bp: Blueprint, row: Row, a: Alert)
    requires row.condition == a.condition && (ConditionStatements(bp, row) == [] || !a.started)
    ensures ExecAll(There(a), ConditionStatements(bp, row)) == There(a.(condition := bp.condition))
  {
    ExecOne(There(a), ConditionStatements(bp, row));
  }

  lemma ActionReaches(bp: Blueprint, row: Row, a: Alert)
    requires row.action == a.action && (ActionStatements(bp, row) == [] || !a.started)
    ensures ExecAll(There(a), ActionStatements(bp, row)) == There(a.(action := bp.action))
  {
    ExecOne(There(a), ActionStatements(bp, row));
  }

  lemma DefinitionReaches(bp: Blueprint, row: Row, a: Alert)
    requires Warehouse(row) == a.warehouse && row.schedule == a.schedule
    requires row.condition == a.condition && row.action == a.action
    requires NeedsDefinitionAlter(bp, row) ==> !a.started
    ensures ExecAll(There(a), DefinitionStatements(bp, row))
         == There(Alert(bp.warehouse, bp.schedule, bp.condition, bp.action, a.started))
  {
    var s1, s2 := WarehouseStatements(bp, row), ScheduleStatements(bp, row);
    var s3, s4 := ConditionStatements(bp, row), ActionStatements(bp, row);
    var a1 := a.(warehouse := bp.warehouse);
    var a2 := a1.(schedule := bp.schedule);
    var a3 := a2.(condition := bp.condition);
    WarehouseReaches(bp, row, a);
    ScheduleReaches(bp, row, a1);
    ConditionReaches(bp, row, a2);
    ActionReaches(bp, row, a3);
    ExecConcat(There(a), s1, s2);
    ExecConcat(There(a), s1 + s2, s3);
    ExecConcat(There(a), s1 + s2 + s3, s4);
  }

  /** The statements run through on any alert that the row shows, so every change of the definition
      comes while the alert is suspended, and they leave exactly the declared alert. */
  lemma ReachesDeclared(bp: Blueprint, row: Row, alert: Alert)
    requires Shows(row, alert)
    ensures ExecAll(There(alert), Statements(bp, row)) == There(Declared(bp))
  {
    var s0, s1, s2 := SuspendFirst(bp, row), DefinitionStatements(bp, row), RunStateStatements(bp, row);
    ExecConcat(There(alert), s0 + s1, s2);
    ExecConcat(There(alert), s0, s1);
    var a := alert.(started := alert.started && !NeedsDefinitionAlter(bp, row));
    assert ExecAll(There(alert), s0) == There(a) by {
      ExecOne(There(alert), s0);
    }
    var b := Alert(bp.warehouse, bp.schedule, bp.condition, bp.action, a.started);
    assert ExecAll(There(a), s1) == There(b) by {
      DefinitionReaches(bp, row, a);
    }
    RunStateReaches(bp, row, b);
  }

  /** Statements that run through leave no failure behind them at any point. */
  lemma {:induction false} EachRunsThrough(w: World, ss: seq<Statement>, i: nat)
    requires i < |ss| && w.There? && ExecAll(w, ss).There? && forall s | s in ss :: !s.Create?
    ensures ExecAll(w, ss[..i]).There? && Exec(ExecAll(w, ss[..i]), ss[i]).There?
    decreases |ss|
  {
    var before := ss[..|ss| - 1];
    if i < |before| {
      EachRunsThrough(w, before, i);
      assert before[..i] == ss[..i];
    }
  }

  /** Whatever changes the warehouse, the schedule, the condition or the action meets a suspended alert. */
  lemma ChangesMeetSuspended(bp: Blueprint, row: Row, alert: Alert, i: nat)
    requires Shows(row, alert) && i < |Statements(bp, row)|
    ensures var s, w := Statements(bp, row)[i], ExecAll(There(alert), Statements(bp, row)[..i]);
      s == Suspend || s == Resume || (!s.Create? && w.There? && !w.alert.started)
  {
    ReachesDeclared(bp, row, alert);
    EachRunsThrough(There(alert), Statements(bp, row), i);
  }

  lemma RunStateReaches(bp: Blueprint, row: Row, a: Alert)
    requires a.started == (WasStarted(row) && !NeedsDefinitionAlter(bp, row))
    ensures ExecAll(There(a), RunStateStatements(bp, row)) == There(a.(started := bp.enabled))
  {
    ExecOne(There(a), RunStateStatements(bp, row));
  }

  /** Nothing is issued exactly when the alert already is as declared. */
  lemma SilentIffDeclared(bp: Blueprint, row: Row, alert: Alert)
    requires Shows(row, alert)
    ensures Statements(bp, row) == [] <==> alert == Declared(bp)
  {
    ReachesDeclared(bp, row, alert);
    if alert == Declared(bp) {
      assert DefinitionStatements(bp, row) == [];
    }
  }

  lemma SecondCompareIsSilent(bp: Blueprint, row: Row, alert: Alert, next: Row)
    requires Shows(row, alert)
    requires var w := ExecAll(There(alert), Statements(bp, row)); w.There? && Shows(next, w.alert)
    ensures Statements(bp, next) == []
  {
    ReachesDeclared(bp, row, alert);
    SilentIffDeclared(bp, next, Declared(bp));
  }

  function CreateStatements(bp: Blueprint): seq<Statement> {
    [Create(bp.warehouse, bp.schedule, bp.condition, bp.action)] + if bp.enabled then [Resume] else []
  }

  lemma CreateReachesDeclared(bp: Blueprint)
    ensures ExecAll(Absent, CreateStatements(bp)) == There(Declared(bp))
  {
    var create := [Create(bp.warehouse, bp.schedule, bp.condition, bp.action)];
    var resume := if bp.enabled then [Resume] else [];
    ExecConcat(Absent, create, resume);
    ExecOne(Absent, create);
    ExecOne(ExecAll(Absent, create), resume);
  }

  class AlertResolver {
    var log: seq<Statement>

    method Execute(s: Statement)
      modifies this
      ensures log == old(log) + [s]
    {
      log := log + [s];
    }

    method CreateObject(bp: Blueprint) returns (result: ResolveResult)
      modifies this
      ensures log == old(log) + CreateStatements(bp) && result == CREATE
    {
      Execute(Create(bp.warehouse, bp.schedule, bp.condition, bp.action));
      if bp.enabled {
        Execute(Resume);
      }
      result := CREATE;
    }

    method AlterDefinition(bp: Blueprint, row: Row) returns (altered: bool)
      modifies this
      ensures log == old(log) + DefinitionStatements(bp, row)
      ensures altered <==> NeedsDefinitionAlter(bp, row)
    {
      altered := false;
      ghost var l0 := log;
      if bp.warehouse != Warehouse(row) {
        if bp.warehouse.Some? {
          Execute(SetWarehouse(bp.warehouse.value));
        } else {
          Execute(UnsetWarehouse);
        }
        altered := true;
      }
      ghost var l1 := log;
      assert l1 == l0 + WarehouseStatements(bp, row);
      if bp.schedule != row.schedule {
        Execute(SetSchedule(bp.schedule));
        altered := true;
      }
      ghost var l2 := log;
      assert l2 == l1 + ScheduleStatements(bp, row);
      if bp.condition != row.condition {
        Execute(ModifyCondition(bp.condition));
        altered := true;
      }
      ghost var l3 := log;
      assert l3 == l2 + ConditionStatements(bp, row);
      if bp.action != row.action {
        Execute(ModifyAction(bp.action));
        altered := true;
      }
      assert log == l3 + ActionStatements(bp, row);
      RegroupFour(l0, WarehouseStatements(bp, row), ScheduleStatements(bp, row), ConditionStatements(bp, row),
                  ActionStatements(bp, row));
    }

    method ReconcileRunState(bp: Blueprint, wasStarted: bool, suspendedForAlter: bool) returns (altered: bool)
      modifies this
      ensures log == old(log) + if bp.enabled && (!wasStarted || suspendedForAlter) then [Resume]
                                else if !bp.enabled && wasStarted && !suspendedForAlter then [Suspend]
                                else []
      ensures altered <==> bp.enabled != wasStarted && !(wasStarted && suspendedForAlter)
    {
      altered := false;
      if bp.enabled {
        if !wasStarted {
          Execute(Resume);
          altered := true;
        } else if suspendedForAlter {
          Execute(Resume);
        }
      } else {
        if wasStarted && !suspendedForAlter {
          Execute(Suspend);
          altered := true;
        }
      }
    }

    /** The result is `ALTER` exactly when a statement was issued. */
    method CompareObject(bp: Blueprint, row: Row) returns (result: ResolveResult)
      modifies this
      ensures log == old(log) + Statements(bp, row)
      ensures result == if Statements(bp, row) == [] then NOCHANGE else ALTER
    {
      var wasStarted := WasStarted(row);
      var suspendedForAlter := false;
      if NeedsDefinitionAlter(bp, row) && wasStarted {
        Execute(Suspend);
        suspendedForAlter := true;
      }
      ghost var l1 := log;
      assert l1 == old(log) + SuspendFirst(bp, row);
      var altered := AlterDefinition(bp, row);
      var started := ReconcileRunState(bp, wasStarted, suspendedForAlter);
      Regroup(old(log), SuspendFirst(bp, row), DefinitionStatements(bp, row), RunStateStatements(bp, row));
      result := if altered || started then ALTER else NOCHANGE;
      DefinitionSilent(bp, row);
    }
  }

  lemma Regroup<T>(l: seq<T>, a: seq<T>, b: seq<T>, c: seq<T>)
    ensures l + a + b + c == l + (a + b + c)
  {
  }

  lemma RegroupFour<T>(l: seq<T>, a: seq<T>, b: seq<T>, c: seq<T>, d: seq<T>)
    ensures l + a + b + c + d == l + (a + b + c + d)
  {
  }

  lemma DefinitionSilent(bp: Blueprint, row: Row)
    ensures DefinitionStatements(bp, row) == [] <==> !NeedsDefinitionAlter(bp, row)
  {
    if NeedsDefinitionAlter(bp, row) {
      assert WarehouseStatements(bp, row) != [] || ScheduleStatements(bp, row) != []
          || ConditionStatements(bp, row) != [] || ActionStatements(bp, row) != [];
    }
  }
}
