/** The DDL logs of the engine: per-thread buffers that `flush_thread_buffers` moves into the logs
    of executed and suggested statements. */
module Engine {

  type Thread = nat

  /** A statement, with the thread that asked for it. */
  datatype Entry = Entry(thread: Thread, sql: string)

  datatype Settings = Settings(executeSafe: bool, executeUnsafe: bool)

  /** What happens in a run, in the order in which it happens: threads ask for statements, which the
      account accepts or refuses, and now and then the buffers are flushed. */
  datatype Event =
    | Ask(entry: Entry, safe: bool, condition: bool, accepted: bool)
    | Flush

  predicate Sent(e: Event, settings: Settings) {
    e.Ask? && e.condition && (if e.safe then settings.executeSafe else settings.executeUnsafe)
  }

  /** A refused statement raises an error and is in no log. */
  predicate Executed(e: Event, settings: Settings) {
    Sent(e, settings) && e.accepted
  }

  predicate Suggested(e: Event, settings: Settings) {
    e.Ask? && !Sent(e, settings)
  }

  /** Each statement is executed and kept, refused, or suggested: it reaches the account when its condition
      holds and the setting for its kind is on. */
  lemma SentExactly(e: Event, settings: Settings)
    requires e.Ask?
    ensures Executed(e, settings) <==>
      e.accepted && e.condition && ((e.safe && settings.executeSafe) || (!e.safe && settings.executeUnsafe))
    ensures Suggested(e, settings) <==>
      !e.condition || (e.safe && !settings.executeSafe) || (!e.safe && !settings.executeUnsafe)
  {
  }

  /** The entries of the events of one kind, in order. */
  function Entries(events: seq<Event>, settings: Settings, executed: bool): seq<Entry> {
    if events == [] then []
    else
      var e := events[|events| - 1];
      Entries(events[..|events| - 1], settings, executed)
      + if (if executed then Executed(e, settings) else Suggested(e, settings)) then [e.entry] else []
  }

  /** The entries of one thread, in order. */
  function Of(log: seq<Entry>, t: Thread): seq<Entry> {
    if log == [] then []
    else
      var e := log[|log| - 1];
      Of(log[..|log| - 1], t) + if e.thread == t then [e] else []
  }

  type Buffer = map<Thread, seq<Entry>>

  function Buffered(b: Buffer, t: Thread): seq<Entry> {
    if t in b then b[t] else []
  }

  /** Each thread's buffer holds statements of that thread. */
  ghost predicate Tagged(b: Buffer) {
    forall t | t in b :: forall e | e in b[t] :: e.thread == t
  }

  lemma {:induction false} OfConcat(a: seq<Entry>, b: seq<Entry>, t: Thread)
    ensures Of(a + b, t) == Of(a, t) + Of(b, t)
  {
    if b == [] {
      assert a + b == a;
    } else {
      assert (a + b)[..|a + b| - 1] == a + b[..|b| - 1];
      OfConcat(a, b[..|b| - 1], t);
    }
  }

  lemma {:induction false} OfOwn(log: seq<Entry>, s: Thread, t: Thread)
    requires forall e | e in log :: e.thread == s
    ensures Of(log, t) == if s == t then log else []
  {
    if log != [] {
      OfOwn(log[..|log| - 1], s, t);
      assert log == log[..|log| - 1] + [log[|log| - 1]];
    }
  }

  /** Logs that agree thread by thread have the same entries, each as often. */
  lemma SameMultiset(a: seq<Entry>, b: seq<Entry>)
    requires forall t :: Of(a, t) == Of(b, t)
    ensures multiset(a) == multiset(b)
  {
    forall e: Entry
      ensures multiset(a)[e] == multiset(b)[e]
    {
      CountOf(a, e);
      CountOf(b, e);
      assert Of(a, e.thread) == Of(b, e.thread);
    }
  }

  lemma {:induction false} CountOf(log: seq<Entry>, e: Entry)
    ensures multiset(log)[e] == multiset(Of(log, e.thread))[e]
  {
    if log != [] {
      CountOf(log[..|log| - 1], e);
      assert log == log[..|log| - 1] + [log[|log| - 1]];
    }
  }

  /** For every thread the log goes on in the buffer, and both together are what it asked for. */
  ghost predicate Keeps(log: seq<Entry>, buffer: Buffer, asked: seq<Entry>) {
    Tagged(buffer) && forall t :: KeepsAt(log, buffer, asked, t)
  }

  ghost predicate KeepsAt(log: seq<Entry>, buffer: Buffer, asked: seq<Entry>, t: Thread) {
    Of(log, t) + Buffered(buffer, t) == Of(asked, t)
  }

  lemma Regroup(a: seq<Entry>, b: seq<Entry>, c: seq<Entry>)
    ensures a + (b + c) == a + b + c
  {
  }

  lemma KeepsMoreAt(log: seq<Entry>, buffer: Buffer, asked: seq<Entry>, entry: Entry, t: Thread)
    requires KeepsAt(log, buffer, asked, t)
    ensures KeepsAt(log, buffer[entry.thread := Buffered(buffer, entry.thread) + [entry]], asked + [entry], t)
  {
    var more := buffer[entry.thread := Buffered(buffer, entry.thread) + [entry]];
    var own := Of([entry], t);
    OfConcat(asked, [entry], t);
    OfOwn([entry], entry.thread, t);
    Regroup(Of(log, t), Buffered(buffer, t), own);
    assert Buffered(more, t) == Buffered(buffer, t) + own;
  }

  lemma KeepsMore(log: seq<Entry>, buffer: Buffer, asked: seq<Entry>, entry: Entry)
    requires Keeps(log, buffer, asked)
    ensures Keeps(log, buffer[entry.thread := Buffered(buffer, entry.thread) + [entry]], asked + [entry])
  {
    var more := buffer[entry.thread := Buffered(buffer, entry.thread) + [entry]];
    forall t
      ensures KeepsAt(log, more, asked + [entry], t)
    {
      assert KeepsAt(log, buffer, asked, t);
      KeepsMoreAt(log, buffer, asked, entry, t);
    }
  }

  lemma KeepsDrained(log: seq<Entry>, buffer: Buffer, asked: seq<Entry>, drained: seq<Entry>)
    requires Keeps(log, buffer, asked)
    requires forall t :: Of(drained, t) == Of(log, t) + Buffered(buffer, t)
    ensures Keeps(drained, map[], asked)
  {
    forall t
      ensures KeepsAt(drained, map[], asked, t)
    {
      assert KeepsAt(log, buffer, asked, t);
    }
  }

  lemma KeepsAll(log: seq<Entry>, asked: seq<Entry>)
    requires Keeps(log, map[], asked)
    ensures forall t :: Of(log, t) == Of(asked, t)
    ensures multiset(log) == multiset(asked)
  {
    forall t
      ensures Of(log, t) == Of(asked, t)
    {
      assert KeepsAt(log, map[], asked, t);
    }
    SameMultiset(log, asked);
  }

  class SnowDDLEngine {
    const settings: Settings
    var executedDdl: seq<Entry>
    var suggestedDdl: seq<Entry>
    var executedBuffer: Buffer
    var suggestedBuffer: Buffer
    ghost var history: seq<Event>

    constructor (settings: Settings)
      ensures this.settings == settings && Valid() && history == []
    {
      this.settings := settings;
      executedDdl, suggestedDdl := [], [];
      executedBuffer, suggestedBuffer := map[], map[];
      history := [];
    }

    ghost predicate Valid()
      reads this
    {
      && Keeps(executedDdl, executedBuffer, Entries(history, settings, true))
      && Keeps(suggestedDdl, suggestedBuffer, Entries(history, settings, false))
    }

    /** `execute_safe_ddl`; the error of a refused statement is left to the caller. */
    method ExecuteSafeDdl(entry: Entry, condition: bool, accepted: bool)
      requires Valid()
      modifies this
      ensures Valid() && history == old(history) + [Ask(entry, true, condition, accepted)]
      ensures executedDdl == old(executedDdl) && suggestedDdl == old(suggestedDdl)
    {
      if settings.executeSafe && condition {
        Execute(entry, true, condition, accepted);
      } else {
        Suggest(entry, true, condition, accepted);
      }
    }

    method ExecuteUnsafeDdl(entry: Entry, condition: bool, accepted: bool)
      requires Valid()
      modifies this
      ensures Valid() && history == old(history) + [Ask(entry, false, condition, accepted)]
      ensures executedDdl == old(executedDdl) && suggestedDdl == old(suggestedDdl)
    {
      if settings.executeUnsafe && condition {
        Execute(entry, false, condition, accepted);
      } else {
        Suggest(entry, false, condition, accepted);
      }
    }

    method Execute(entry: Entry, ghost safe: bool, ghost condition: bool, accepted: bool)
      requires Valid() && Sent(Ask(entry, safe, condition, accepted), settings)
      modifies this
      ensures Valid() && history == old(history) + [Ask(entry, safe, condition, accepted)]
      ensures executedDdl == old(executedDdl) && suggestedDdl == old(suggestedDdl)
    {
      ghost var e := Ask(entry, safe, condition, accepted);
      EntriesAppend(history, e, settings);
      history := history + [e];
      if accepted {
        KeepsMore(executedDdl, executedBuffer, Entries(old(history), settings, true), entry);
        var b := Buffered(executedBuffer, entry.thread);
        executedBuffer := executedBuffer[entry.thread := b + [entry]];
      }
    }

    method Suggest(entry: Entry, ghost safe: bool, ghost condition: bool, ghost accepted: bool)
      requires Valid() && Suggested(Ask(entry, safe, condition, accepted), settings)
      modifies this
      ensures Valid() && history == old(history) + [Ask(entry, safe, condition, accepted)]
      ensures executedDdl == old(executedDdl) && suggestedDdl == old(suggestedDdl)
    {
      ghost var e := Ask(entry, safe, condition, accepted);
      EntriesAppend(history, e, settings);
      history := history + [e];
      KeepsMore(suggestedDdl, suggestedBuffer, Entries(old(history), settings, false), entry);
      var b := Buffered(suggestedBuffer, entry.thread);
      suggestedBuffer := suggestedBuffer[entry.thread := b + [entry]];
    }

    /** Afterwards the buffers are empty, so each log has, thread by thread and in the order of each
        thread, everything that went there since the start. */
    method FlushThreadBuffers()
      requires Valid()
      modifies this
      ensures Valid() && history == old(history) + [Flush]
      ensures executedBuffer == map[] && suggestedBuffer == map[]
      ensures old(executedDdl) <= executedDdl && old(suggestedDdl) <= suggestedDdl
    {
      EntriesAppend(history, Flush, settings);
      var executed := FlushOne(executedDdl, executedBuffer, Entries(history, settings, true));
      var suggested := FlushOne(suggestedDdl, suggestedBuffer, Entries(history, settings, false));
      executedDdl, suggestedDdl := executed, suggested;
      executedBuffer, suggestedBuffer := map[], map[];
      history := history + [Flush];
    }
  }

  lemma EntriesAppend(events: seq<Event>, e: Event, settings: Settings)
    ensures var before := Entries(events, settings, true);
      Entries(events + [e], settings, true) == if Executed(e, settings) then before + [e.entry] else before
    ensures var before := Entries(events, settings, false);
      Entries(events + [e], settings, false) == if Suggested(e, settings) then before + [e.entry] else before
  {
    assert (events + [e])[..|events|] == events;
  }

  method FlushOne(log: seq<Entry>, buffer: Buffer, ghost asked: seq<Entry>) returns (drained: seq<Entry>)
    requires Keeps(log, buffer, asked)
    ensures log <= drained && Keeps(drained, map[], asked)
  {
    drained := Drain(log, buffer);
    KeepsDrained(log, buffer, asked, drained);
  }

  /** Appends every buffer to the log, one thread after another. */
  method Drain(log: seq<Entry>, buffer: Buffer) returns (r: seq<Entry>)
    requires Tagged(buffer)
    ensures log <= r
    ensures forall t :: Of(r, t) == Of(log, t) + Buffered(buffer, t)
  {
    r := log;
    var threads := buffer.Keys;
    while threads != {}
      invariant threads <= buffer.Keys && log <= r
      invariant forall t :: Of(r, t) == Of(log, t) + if t in threads then [] else Buffered(buffer, t)
      decreases |threads|
    {
      var thread :| thread in threads;
      forall t
        ensures Of(r + buffer[thread], t) == Of(r, t) + if t == thread then buffer[thread] else []
      {
        OfConcat(r, buffer[thread], t);
        OfOwn(buffer[thread], thread, t);
      }
      r := r + buffer[thread];
      threads := threads - {thread};
    }
  }

  /** Runs the events of any history, in any interleaving of the threads, and flushes at the end: the
      logs have every executed and every suggested statement exactly once, nothing else, and keep the
      order of each thread. */
  method Run(settings: Settings, events: seq<Event>) returns (executed: seq<Entry>, suggested: seq<Entry>)
    ensures multiset(executed) == multiset(Entries(events, settings, true))
    ensures multiset(suggested) == multiset(Entries(events, settings, false))
    ensures forall t :: Of(executed, t) == Of(Entries(events, settings, true), t)
    ensures forall t :: Of(suggested, t) == Of(Entries(events, settings, false), t)
  {
    var engine := new SnowDDLEngine(settings);
    for i := 0 to |events|
      invariant fresh(engine) && engine.settings == settings && engine.Valid() && engine.history == events[..i]
    {
      match events[i] {
        case Ask(entry, true, condition, accepted) => engine.ExecuteSafeDdl(entry, condition, accepted);
        case Ask(entry, false, condition, accepted) => engine.ExecuteUnsafeDdl(entry, condition, accepted);
        case Flush => engine.FlushThreadBuffers();
      }
      assert events[..i + 1] == events[..i] + [events[i]];
    }
    assert events[..|events|] == events;
    EntriesAppend(events, Flush, settings);
    engine.FlushThreadBuffers();
    executed, suggested := engine.executedDdl, engine.suggestedDdl;
    KeepsAll(executed, Entries(events, settings, true));
    KeepsAll(suggested, Entries(events, settings, false));
  }

  /** With both settings off nothing is executed, and every statement is suggested. */
  lemma {:induction false} PlanExecutesNothing(events: seq<Event>, settings: Settings)
    requires !settings.executeSafe && !settings.executeUnsafe
    ensures Entries(events, settings, true) == []
    ensures |Entries(events, settings, false)| == |Asked(events)|
  {
    if events != [] {
      PlanExecutesNothing(events[..|events| - 1], settings);
    }
  }

  function Asked(events: seq<Event>): seq<Event> {
    if events == [] then []
    else
      var e := events[|events| - 1];
      Asked(events[..|events| - 1]) + if e.Ask? then [e] else []
  }

  /** Every statement asked for is in exactly one of the logs, unless the account refused it. */
  lemma {:induction false} EveryStatementOnce(events: seq<Event>, settings: Settings)
    requires forall e | e in events && Sent(e, settings) :: e.accepted
    ensures |Entries(events, settings, true)| + |Entries(events, settings, false)| == |Asked(events)|
  {
    if events != [] {
      assert events[|events| - 1] in events;
      EveryStatementOnce(events[..|events| - 1], settings);
    }
  }
}
