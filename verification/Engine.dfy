/**
 How every change goes (src/engine.rs, `Tx` in src/store.rs,
 `Registry::commit`): gate and plan, a transaction that collects the rows and
 logs the events under the next sequence numbers, one durable batch, and a new
 snapshot published in place of the old one.
 */
module Engine {
  import opened Wrappers
  import opened RegistryTypes
  import opened Store
  import opened Snapshot
  import opened Verbs
  import opened Registry
  import opened Log
  import opened Index
  import opened Planning

  /** An atomic batch in the making. */
  class Tx {
    var batch: seq<Write>
    var entries: map<nat, LogEvent>
    var logSeq: nat
    var logDirty: bool

    constructor (logSeq: nat, entries: map<nat, LogEvent>)
      ensures batch == [] && this.entries == entries && this.logSeq == logSeq && !logDirty
    {
      batch, this.entries, this.logSeq, logDirty := [], entries, logSeq, false;
    }

    method Add(w: Write)
      modifies this`batch
      ensures batch == old(batch) + [w]
    {
      batch := batch + [w];
    }

    method AppendLog(ev: LogEvent)
      modifies this`entries, this`logSeq, this`logDirty
      ensures entries == old(entries)[old(logSeq) := ev] && logSeq == old(logSeq) + 1 && logDirty
    {
      entries := entries[logSeq := ev];
      logSeq := logSeq + 1;
      logDirty := true;
    }
  }

  class RegistryObject {
    const env: Env
    var rows: Rows
    var log: Log
    var snapshot: SnapshotObject

    ghost function Value(): Reg
      reads this, snapshot
    {
      Reg(rows, snapshot.Value())
    }

    ghost predicate Valid()
      reads this, snapshot
    {
      Good(Value())
    }

    constructor (env: Env, rows: Rows, log: Log, snapshot: SnapshotObject)
      requires Good(Reg(rows, snapshot.Value()))
      ensures Valid() && this.env == env && this.rows == rows && this.log == log && this.snapshot == snapshot
    {
      this.env, this.rows, this.log, this.snapshot := env, rows, log, snapshot;
    }

    method View(now: int, guid: string) returns (view: Verbs.View)
      ensures view == ViewOf(Value(), Command(DropContext(""), now, guid))
    {
      var snap := snapshot;
      view := Verbs.View(Snap(snap.ctxs, snap.known, snap.config, snap.mode),
                         map ctx | ctx in rows.slices :: rows.slices[ctx].schemas, now, guid);
    }

    /** The verb is refused, or all of it happens; what the engine does is the step of the model. */
    method Execute(verb: Verb, now: int, guid: string) returns (r: Result<Plan, Error>)
      requires Valid()
      modifies this
      ensures Valid() && Value() == Step(env, old(Value()), Command(verb, now, guid))
      ensures r == Decide(env, ViewOf(old(Value()), Command(verb, now, guid)), verb)
      ensures log == Append(old(log), old(log).next, EventsOf(env, old(Value()), Command(verb, now, guid)))
    {
      hide Good, PlanOf, Allowed, ModeFor;
      StepKeepsGood(env, Value(), Command(verb, now, guid));
      var view := View(now, guid);
      var allowed := Allowed(IntentOf(verb), ModeFor(view.snap, TargetOf(verb)));
      NothingLogged(log);
      if GatedFirst(verb) && !allowed {
        return Failure(ModeRefuses);
      }
      var plan := PlanVerb(env, view, verb);
      if plan.Failure? {
        return Failure(plan.error);
      }
      if !allowed {
        return Failure(ModeRefuses);
      }
      GoodIsSorted(Value());
      Apply(plan.value);
      r := Success(plan.value);
    }

    /** One batch for the writes and the events, then the publish. */
    method Apply(plan: Plan)
      requires SortedLists(Value().snap)
      modifies this
      ensures Value() == Commit(old(Value()), plan) && log == Append(old(log), old(log).next, plan.events)
    {
      hide WriteBatch, ApplyAll;
      var tx := new Tx(log.next, log.entries);
      var i := 0;
      while i < |plan.writes|
        invariant 0 <= i <= |plan.writes| && fresh(tx) && tx.batch == plan.writes[..i]
        invariant tx.entries == log.entries && tx.logSeq == log.next && !tx.logDirty
        invariant rows == old(rows) && log == old(log) && snapshot == old(snapshot)
      {
        tx.Add(plan.writes[i]);
        i := i + 1;
      }
      assert plan.writes[..i] == plan.writes;
      i := 0;
      while i < |plan.events|
        invariant 0 <= i <= |plan.events| && fresh(tx) && tx.batch == plan.writes
        invariant tx.logSeq == log.next + i && (tx.logDirty <==> i > 0)
        invariant PutFrom(tx.entries, tx.logSeq, plan.events[i..]) == PutFrom(log.entries, log.next, plan.events)
        invariant rows == old(rows) && log == old(log) && snapshot == old(snapshot)
      {
        assert plan.events[i..][0] == plan.events[i] && plan.events[i..][1..] == plan.events[i + 1..];
        tx.AppendLog(plan.events[i]);
        i := i + 1;
      }
      assert plan.events[i..] == [];
      var next := Publish(snapshot, tx.batch);
      rows := WriteBatch(rows, tx.batch);
      log := log.(entries := tx.entries, next := if tx.logDirty then tx.logSeq else log.next);
      snapshot := next;
    }
  }

  lemma NothingLogged(log: Log)
    ensures Append(log, log.next, []) == log
  {
  }
}
