/**
 Parallel writers (src/engine.rs, src/registry/locks.rs, Registry::commit): any
 number of threads, each going through lock, view, plan, transaction, durable
 commit, publish and unlock, in any interleaving, with pruning in between.
 Writers to different contexts overlap; their commits reach the published
 snapshot in any order. References stay inside their own context.
 */
module Concurrency {
  import opened Wrappers
  import opened RegistryTypes
  import opened Store
  import opened Snapshot
  import opened Agreement
  import opened Verbs
  import opened Effects
  import opened Moves
  import opened Steps
  import opened Registry
  import opened References
  import opened Locality
  import opened Confinement
  import opened Log
  import opened Outcomes

  // ---------------- threads and locks ----------------

  datatype Phase =
    | Idle
    | Sharing(c: Command)                              // container lock shared, waiting for the stripe
    | Locked(c: Command)
    | Viewed(c: Command, snap: Snap)                   // the snapshot pinned for this mutation
    | Planned(c: Command, plan: Plan)
    | Open(c: Command, plan: Plan, at: nat)            // transaction open: the counter lock, and the counter read
    | Durable(c: Command, plan: Plan, base: Rows)      // on disk, not yet published; the rows it was written over
    | Finishing(c: Command)                            // published or refused, lock still held

  /** `done` and `history` record what was committed and logged, in order. */
  datatype World = World(
    rows: Rows,
    log: Log,
    snap: Snap,
    threads: map<nat, Phase>,
    writer: Option<nat>,
    readers: set<nat>,
    stripes: map<nat, nat>,
    counters: Option<nat>,
    keep: Option<nat>,
    done: seq<Command>,
    history: seq<LogEvent>)

  /** What does not change during a run: parsing and settings, the hash of a context to its stripe, the store opened. */
  datatype System = System(env: Env, stripe: string -> nat, init: Reg, log: Log, history: seq<LogEvent>)

  function PhaseOf(w: World, t: nat): Phase {
    if t in w.threads then w.threads[t] else Idle
  }

  function To(w: World, t: nat, p: Phase): World {
    w.(threads := w.threads[t := p])
  }

  predicate Holding(p: Phase) {
    !p.Idle? && !p.Sharing?
  }

  predicate Touches(c: Command, ctx: string) {
    TargetOf(c.verb).None? || TargetOf(c.verb).value.ctx == ctx
  }

  // ---------------- steps ----------------

  datatype Act =
    | Share(t: nat, c: Command)
    | Lock(t: nat)
    | LockAll(t: nat, c: Command)
    | TakeView(t: nat)
    | MakePlan(t: nat, bodies: map<string, map<nat, SchemaRecord>>)
    | OpenTx(t: nat)
    | CommitTx(t: nat)
    | Publish(t: nat)
    | Unlock(t: nat)
    | ChooseFloor(keep: nat)
    | PruneLog

  /** Bodies are read from the store while planning; only those of contexts the thread has locked matter. */
  ghost predicate ReadsBodies(w: World, c: Command, bodies: map<string, map<nat, SchemaRecord>>) {
    forall ctx: string, id: nat | Touches(c, ctx) ::
      (if ctx in bodies then Lookup(bodies[ctx], id) else None) == Lookup(SliceOf(w.rows, ctx).schemas, id)
  }

  ghost predicate Enabled(sys: System, w: World, act: Act) {
    match act
    case Share(t, c) => PhaseOf(w, t).Idle? && TargetOf(c.verb).Some? && LocalDraft(c.verb) && w.writer.None?
    case Lock(t) => PhaseOf(w, t).Sharing? && StripeOf(sys, PhaseOf(w, t).c) !in w.stripes
    case LockAll(t, c) => PhaseOf(w, t).Idle? && TargetOf(c.verb).None? && w.writer.None? && w.readers == {}
    case TakeView(t) => PhaseOf(w, t).Locked?
    case MakePlan(t, bodies) => PhaseOf(w, t).Viewed? && ReadsBodies(w, PhaseOf(w, t).c, bodies)
    case OpenTx(t) => PhaseOf(w, t).Planned? && w.counters.None?
    case CommitTx(t) => PhaseOf(w, t).Open?
    case Publish(t) => PhaseOf(w, t).Durable?
    case Unlock(t) => PhaseOf(w, t).Finishing?
    case ChooseFloor(keep) => keep <= w.log.next
    case PruneLog => w.keep.Some?
  }

  function StripeOf(sys: System, c: Command): nat {
    sys.stripe(if TargetOf(c.verb).Some? then TargetOf(c.verb).value.ctx else "")
  }

  ghost function Next(sys: System, w: World, act: Act): World
    requires Enabled(sys, w, act)
  {
    match act
    case Share(t, c) => To(w, t, Sharing(c)).(readers := w.readers + {t})
    case Lock(t) => To(w, t, Locked(PhaseOf(w, t).c)).(stripes := w.stripes[StripeOf(sys, PhaseOf(w, t).c) := t])
    case LockAll(t, c) => To(w, t, Locked(c)).(writer := Some(t))
    case TakeView(t) => To(w, t, Viewed(PhaseOf(w, t).c, w.snap))
    case MakePlan(t, bodies) =>
      var p := PhaseOf(w, t);
      var plan := Decide(sys.env, View(p.snap, bodies, p.c.now, p.c.guid), p.c.verb);
      To(w, t, if plan.Success? then Planned(p.c, plan.value) else Finishing(p.c))
    case OpenTx(t) =>
      var p := PhaseOf(w, t);
      To(w, t, Open(p.c, p.plan, w.log.next)).(counters := Some(t))
    case CommitTx(t) =>
      var p := PhaseOf(w, t);
      To(w, t, Durable(p.c, p.plan, w.rows)).(
        rows := WriteBatch(w.rows, p.plan.writes), log := Append(w.log, p.at, p.plan.events), counters := None,
        done := w.done + [p.c], history := w.history + p.plan.events)
    case Publish(t) =>
      var p := PhaseOf(w, t);
      To(w, t, Finishing(p.c)).(snap := ApplyAll(w.snap, p.plan.writes))
    case Unlock(t) =>
      var p := PhaseOf(w, t);
      if TargetOf(p.c.verb).Some? then To(w, t, Idle).(readers := w.readers - {t},
                                                       stripes := w.stripes - {StripeOf(sys, p.c)})
      else To(w, t, Idle).(writer := None)
    case ChooseFloor(keep) => w.(keep := Some(keep))
    case PruneLog => w.(log := Prune(w.log, w.keep.value), keep := None)
  }

  function Start(sys: System): World {
    World(sys.init.rows, sys.log, sys.init.snap, map[], None, {}, map[], None, None, [], sys.history)
  }

  /** A run of the system: every step enabled when it is taken. */
  ghost predicate Behaves(sys: System, w: World, acts: seq<Act>)
    decreases acts
  {
    acts == [] || (Enabled(sys, w, acts[0]) && Behaves(sys, Next(sys, w, acts[0]), acts[1..]))
  }

  ghost function After(sys: System, w: World, acts: seq<Act>): World
    requires Behaves(sys, w, acts)
    decreases acts
  {
    if acts == [] then w else After(sys, Next(sys, w, acts[0]), acts[1..])
  }

  // ---------------- the invariant ----------------

  ghost predicate LockFits(sys: System, w: World, t: nat) {
    var p := PhaseOf(w, t);
    && (p.Sharing? ==> TargetOf(p.c.verb).Some? && t in w.readers)
    && (Holding(p) && TargetOf(p.c.verb).Some? ==> t in w.readers && Lookup(w.stripes, StripeOf(sys, p.c)) == Some(t))
    && (Holding(p) && TargetOf(p.c.verb).None? ==> w.writer == Some(t))
    && (!p.Idle? ==> LocalDraft(p.c.verb))
    && (p.Open? ==> w.counters == Some(t) && p.at == w.log.next)
  }

  ghost predicate LocksFit(sys: System, w: World) {
    && (w.writer.Some? ==> w.readers == {})
    && (forall t: nat :: LockFits(sys, w, t))
  }

  /** What the same commands leave when they run one after the other, in commit order. */
  function Serial(sys: System, w: World): Reg {
    Run(sys.env, sys.init, w.done)
  }

  ghost predicate SerialFits(sys: System, w: World) {
    && Good(Serial(sys, w)) && AllLinked(Serial(sys, w)) && Serial(sys, w).rows == w.rows
    && w.history == sys.history + Logged(sys.env, sys.init, w.done)
  }

  ghost predicate ViewFits(w: World, c: Command, snap: Snap) {
    GlobalAgrees(snap, w.rows) && forall ctx: string | Touches(c, ctx) :: RepresentsOn(snap, SliceOf(w.rows, ctx), ctx)
  }

  predicate Confined(c: Command, plan: Plan) {
    TargetOf(c.verb).Some? ==> WithinContext(plan.writes, TargetOf(c.verb).value.ctx)
  }

  ghost predicate PlanFits(sys: System, w: World, c: Command, plan: Plan) {
    Decide(sys.env, ViewOf(Serial(sys, w), c), c.verb) == Success(plan) && Confined(c, plan)
  }

  ghost predicate PendingOn(w: World, plan: Plan, base: Rows, ctx: string) {
    && RepresentsOn(w.snap, SliceOf(base, ctx), ctx)
    && SliceOf(w.rows, ctx) == WriteAll(ctx, SliceOf(base, ctx), plan.writes)
    && AllTruthful(ctx, SliceOf(base, ctx), plan.writes)
  }

  ghost predicate Pending(w: World, c: Command, plan: Plan, base: Rows) {
    && Confined(c, plan)
    && (forall ctx: string | Touches(c, ctx) :: PendingOn(w, plan, base, ctx))
    && (TargetOf(c.verb).None? ==> GlobalAgrees(w.snap, base) && w.rows == WriteBatch(base, plan.writes))
  }

  ghost predicate ThreadFits(sys: System, w: World, t: nat) {
    match PhaseOf(w, t)
    case Viewed(c, snap) => ViewFits(w, c, snap)
    case Planned(c, plan) => PlanFits(sys, w, c, plan)
    case Open(c, plan, _) => PlanFits(sys, w, c, plan)
    case Durable(c, plan, base) => Pending(w, c, plan, base)
    case _ => true
  }

  /** No writer of the context sits between its durable write and its publish. */
  ghost predicate Settled(w: World, ctx: string) {
    forall t: nat | PhaseOf(w, t).Durable? :: !Touches(PhaseOf(w, t).c, ctx)
  }

  ghost predicate GlobalSettled(w: World) {
    forall t: nat | PhaseOf(w, t).Durable? :: TargetOf(PhaseOf(w, t).c.verb).Some?
  }

  ghost predicate SnapFits(w: World) {
    && (GlobalSettled(w) ==> GlobalAgrees(w.snap, w.rows))
    && forall ctx: string | Settled(w, ctx) :: RepresentsOn(w.snap, SliceOf(w.rows, ctx), ctx)
  }

  ghost predicate LogFits(w: World) {
    Holds(w.log, w.history) && (w.keep.Some? ==> w.keep.value <= w.log.next)
  }

  ghost predicate Inv(sys: System, w: World) {
    && LocksFit(sys, w) && SerialFits(sys, w) && SnapFits(w) && LogFits(w)
    && forall t: nat :: ThreadFits(sys, w, t)
  }

  /** The store opens with its index loaded. */
  ghost predicate Opens(sys: System) {
    Good(sys.init) && AllLinked(sys.init) && Holds(sys.log, sys.history)
  }

  lemma StartFits(sys: System)
    requires Opens(sys)
    ensures Inv(sys, Start(sys))
  {
    hide RepresentsOn, AllLinked;
    forall t: nat
      ensures PhaseOf(Start(sys), t).Idle?
    {
    }
  }

  /** Locks exclude: at most one thread at a time holds a lock on a context. */
  lemma Alone(sys: System, w: World, t: nat, u: nat, ctx: string)
    requires LocksFit(sys, w) && Holding(PhaseOf(w, t)) && Holding(PhaseOf(w, u))
    requires Touches(PhaseOf(w, t).c, ctx) && Touches(PhaseOf(w, u).c, ctx)
    ensures t == u
  {
    assert LockFits(sys, w, t) && LockFits(sys, w, u);
  }

  lemma HolderSettles(sys: System, w: World, t: nat, ctx: string)
    requires LocksFit(sys, w) && Holding(PhaseOf(w, t)) && !PhaseOf(w, t).Durable? && Touches(PhaseOf(w, t).c, ctx)
    ensures Settled(w, ctx) && GlobalSettled(w)
  {
    hide LocksFit;
    forall u: nat | PhaseOf(w, u).Durable?
      ensures !Touches(PhaseOf(w, u).c, ctx)
    {
      if Touches(PhaseOf(w, u).c, ctx) {
        Alone(sys, w, t, u, ctx);
      }
    }
  }

  // ---------------- steps that write nothing ----------------

  /** Everything but locks and phases is as it was, and no thread became or stopped being durable. */
  ghost predicate Quiet(w: World, w': World, t: nat) {
    && w'.rows == w.rows && w'.log == w.log && w'.snap == w.snap && w'.keep == w.keep && w'.done == w.done
      && w'.history == w.history
    && !PhaseOf(w, t).Durable? && !PhaseOf(w', t).Durable?
    && forall u: nat | u != t :: PhaseOf(w', u) == PhaseOf(w, u)
  }

  lemma QuietKeeps(sys: System, w: World, w': World, t: nat)
    requires Inv(sys, w) && Quiet(w, w', t) && LocksFit(sys, w') && ThreadFits(sys, w', t)
    ensures Inv(sys, w')
  {
    hide LocksFit, SerialFits, RepresentsOn, GlobalAgrees, PlanFits, ViewFits, Holds, Touches;
    assert SerialFits(sys, w') by {
      SameSerial(sys, w, w');
    }
    forall u: nat
      ensures ThreadFits(sys, w', u)
    {
      if u != t {
        assert PhaseOf(w', u) == PhaseOf(w, u) && ThreadFits(sys, w, u);
        SamePhaseFits(sys, w, w', u);
      }
    }
    forall ctx: string | Settled(w', ctx)
      ensures RepresentsOn(w'.snap, SliceOf(w'.rows, ctx), ctx)
    {
      forall u: nat | PhaseOf(w, u).Durable?
        ensures !Touches(PhaseOf(w, u).c, ctx)
      {
        assert PhaseOf(w', u) == PhaseOf(w, u);
      }
      assert Settled(w, ctx);
    }
    if GlobalSettled(w') {
      forall u: nat | PhaseOf(w, u).Durable?
        ensures TargetOf(PhaseOf(w, u).c.verb).Some?
      {
        assert PhaseOf(w', u) == PhaseOf(w, u);
      }
    }
  }

  lemma SameSerial(sys: System, w: World, w': World)
    requires SerialFits(sys, w) && w'.rows == w.rows && w'.done == w.done && w'.history == w.history
    ensures SerialFits(sys, w')
  {
    hide Good, AllLinked;
  }

  lemma SamePhaseFits(sys: System, w: World, w': World, u: nat)
    requires ThreadFits(sys, w, u) && PhaseOf(w', u) == PhaseOf(w, u)
    requires w'.rows == w.rows && w'.snap == w.snap && w'.done == w.done
    ensures ThreadFits(sys, w', u)
  {
    hide RepresentsOn, GlobalAgrees, Decide, Confined;
    var p := PhaseOf(w, u);
    if p.Durable? {
      assert forall ctx: string | Touches(p.c, ctx) ::
               PendingOn(w, p.plan, p.base, ctx) ==> PendingOn(w', p.plan, p.base, ctx);
    }
  }

  /** Taking, passing on and releasing locks keeps them exclusive. */
  lemma LockStepsFit(sys: System, w: World, act: Act)
    requires LocksFit(sys, w) && Enabled(sys, w, act)
    requires act.Share? || act.Lock? || act.LockAll? || act.Unlock? || act.OpenTx? || act.TakeView? || act.MakePlan?
    ensures LocksFit(sys, Next(sys, w, act))
  {
    hide Decide;
    var w', t := Next(sys, w, act), act.t;
    forall u: nat
      ensures LockFits(sys, w', u)
    {
      assert LockFits(sys, w, t) && LockFits(sys, w, u);
      if u != t {
        assert PhaseOf(w', u) == PhaseOf(w, u);
      }
    }
  }

  lemma QuietSteps(sys: System, w: World, act: Act)
    requires Inv(sys, w) && Enabled(sys, w, act)
    requires act.Share? || act.Lock? || act.LockAll? || act.Unlock? || act.OpenTx? || act.TakeView? || act.MakePlan?
    ensures Inv(sys, Next(sys, w, act))
  {
    hide Inv, Quiet, ThreadFits, LocksFit, Decide;
    LocksFitIn(sys, w);
    LockStepsFit(sys, w, act);
    QuietStepIsQuiet(sys, w, act);
    QuietStepFits(sys, w, act);
    QuietKeeps(sys, w, Next(sys, w, act), act.t);
  }

  lemma LocksFitIn(sys: System, w: World)
    requires Inv(sys, w)
    ensures LocksFit(sys, w)
  {
  }

  lemma ThreadFitsIn(sys: System, w: World, t: nat)
    requires Inv(sys, w)
    ensures ThreadFits(sys, w, t)
  {
    hide LocksFit, SerialFits, SnapFits, LogFits, ThreadFits;
  }

  lemma QuietStepIsQuiet(sys: System, w: World, act: Act)
    requires Enabled(sys, w, act)
    requires act.Share? || act.Lock? || act.LockAll? || act.Unlock? || act.OpenTx? || act.TakeView? || act.MakePlan?
    ensures Quiet(w, Next(sys, w, act), act.t)
  {
    hide Decide;
  }

  lemma QuietStepFits(sys: System, w: World, act: Act)
    requires Inv(sys, w) && Enabled(sys, w, act)
    requires act.Share? || act.Lock? || act.LockAll? || act.Unlock? || act.OpenTx? || act.TakeView? || act.MakePlan?
    ensures ThreadFits(sys, Next(sys, w, act), act.t)
  {
    hide Inv, Decide, RepresentsOn, GlobalAgrees, Confined, Run;
    ThreadFitsIn(sys, w, act.t);
    if act.TakeView? {
      TakenViewFits(sys, w, act.t);
    } else if act.MakePlan? {
      MadePlanFits(sys, w, act.t, act.bodies);
    }
  }

  lemma TakenViewFits(sys: System, w: World, t: nat)
    requires Inv(sys, w) && PhaseOf(w, t).Locked?
    ensures ViewFits(w, PhaseOf(w, t).c, w.snap)
  {
    hide LocksFit, RepresentsOn, GlobalAgrees, SerialFits, ThreadFits;
    var c := PhaseOf(w, t).c;
    forall ctx: string | Touches(c, ctx)
      ensures Settled(w, ctx) && GlobalSettled(w)
    {
      HolderSettles(sys, w, t, ctx);
    }
    assert Touches(c, if TargetOf(c.verb).Some? then TargetOf(c.verb).value.ctx else "");
  }

  /** The plan made on a pinned snapshot is the one the serial registry would make. */
  lemma MadePlanFits(sys: System, w: World, t: nat, bodies: map<string, map<nat, SchemaRecord>>)
    requires Inv(sys, w) && PhaseOf(w, t).Viewed? && ReadsBodies(w, PhaseOf(w, t).c, bodies)
    ensures var p := PhaseOf(w, t);
            var plan := Decide(sys.env, View(p.snap, bodies, p.c.now, p.c.guid), p.c.verb);
            plan.Success? ==> PlanFits(sys, w, p.c, plan.value)
  {
    hide Represents, RepresentsOn, AllSound, AllLinked, Decide, LocalDraft, SnapFits, LogFits, LockFits;
    var p, reg := PhaseOf(w, t), Serial(sys, w);
    var a, b := ViewOf(reg, p.c), View(p.snap, bodies, p.c.now, p.c.guid);
    assert ThreadFits(sys, w, t);
    assert LocalDraft(p.c.verb) by {
      assert LockFits(sys, w, t);
      LocalOfLock(sys, w, t);
    }
    SameDecision(sys.env, reg, p.c, b);
    if TargetOf(p.c.verb).Some? && Decide(sys.env, b, p.c.verb).Success? {
      var ctx := TargetOf(p.c.verb).value.ctx;
      ViewIsLocal(reg, p.c);
      DecidedWithin(sys.env, a, p.c.verb, ctx, Decide(sys.env, a, p.c.verb).value);
    }
  }

  lemma LocalOfLock(sys: System, w: World, t: nat)
    requires LockFits(sys, w, t) && !PhaseOf(w, t).Idle?
    ensures LocalDraft(PhaseOf(w, t).c.verb)
  {
  }

  /** Any view that fits the contexts a command touches decides it as the whole state would. */
  lemma SameDecision(env: Env, reg: Reg, c: Command, b: View)
    requires Good(reg) && AllLinked(reg) && LocalDraft(c.verb) && b.now == c.now && b.guid == c.guid
    requires GlobalAgrees(b.snap, reg.rows)
    requires forall ctx: string | Touches(c, ctx) :: RepresentsOn(b.snap, SliceOf(reg.rows, ctx), ctx)
    requires forall ctx: string, id: nat | Touches(c, ctx) ::
               Body(b, ctx, id) == Lookup(SliceOf(reg.rows, ctx).schemas, id)
    ensures Decide(env, b, c.verb) == Decide(env, ViewOf(reg, c), c.verb)
  {
    hide RepresentsOn, AllSound, AllLinked, Decide, LocalDraft;
    var a := ViewOf(reg, c);
    forall ctx: string | Touches(c, ctx)
      ensures Alike(a, b, ctx)
    {
      ViewSeesEach(reg, c, ctx);
      SeesFrom(b, SliceOf(reg.rows, ctx), ctx);
      AlikeOn(a, b, SliceOf(reg.rows, ctx), ctx);
    }
    if TargetOf(c.verb).Some? {
      var ctx := TargetOf(c.verb).value.ctx;
      ViewIsLocal(reg, c);
      DecidedByOwnContext(env, a, b, c.verb, ctx);
    } else {
      forall ctx: string
        ensures Alike(a, b, ctx)
      {
        assert Touches(c, ctx);
      }
      SameContexts(a.snap, b.snap, reg.rows);
      DecidedByEverything(env, a, b, c.verb);
    }
  }

  lemma SeesFrom(b: View, s: Slice, ctx: string)
    requires RepresentsOn(b.snap, s, ctx) && forall id: nat :: Body(b, ctx, id) == Lookup(s.schemas, id)
    ensures SeesOn(b, s, ctx)
  {
  }

  lemma SameContexts(a: Snap, b: Snap, rows: Rows)
    requires forall ctx: string :: RepresentsOn(a, SliceOf(rows, ctx), ctx) && RepresentsOn(b, SliceOf(rows, ctx), ctx)
    ensures Contexts(a) == Contexts(b)
  {
    forall ctx: string
      ensures ctx in a.known <==> ctx in b.known
    {
      assert RepresentsOn(a, SliceOf(rows, ctx), ctx) && RepresentsOn(b, SliceOf(rows, ctx), ctx);
    }
  }

  // ---------------- the durable commit ----------------

  /** Appending a decided command to a run is one more step of it. */
  lemma OneMore(env: Env, init: Reg, done: seq<Command>, c: Command, plan: Plan)
    requires Decide(env, ViewOf(Run(env, init, done), c), c.verb) == Success(plan)
    ensures Run(env, init, done + [c]) == Step(env, Run(env, init, done), c) == Commit(Run(env, init, done), plan)
    ensures Logged(env, init, done + [c]) == Logged(env, init, done) + plan.events
  {
    hide Decide, WriteBatch, ApplyAll;
    RunInTwo(env, init, done, [c]);
    var reg := Run(env, init, done);
    assert [c][1..] == [];
    assert Run(env, reg, [c]) == Run(env, Step(env, reg, c), []);
    assert Logged(env, reg, [c]) == EventsOf(env, reg, c) + Logged(env, Step(env, reg, c), []);
  }

  lemma CommitIsSerial(sys: System, w: World, t: nat)
    requires Inv(sys, w) && PhaseOf(w, t).Open?
    ensures var w' := Next(sys, w, CommitTx(t));
            SerialFits(sys, w') && Serial(sys, w') == Step(sys.env, Serial(sys, w), PhaseOf(w, t).c)
  {
    hide AllLinked, Good, Decide, LocksFit, SnapFits, LogFits, LocalDraft, Append, Step, Run, Logged, WriteBatch,
      ApplyAll;
    var p, reg := PhaseOf(w, t), Serial(sys, w);
    assert ThreadFits(sys, w, t);
    LocalOfThread(sys, w, t);
    OneMore(sys.env, sys.init, w.done, p.c, p.plan);
    StepKeepsGood(sys.env, reg, p.c);
    StepKeepsLinked(sys.env, reg, p.c);
    assert w.history + p.plan.events == sys.history + (Logged(sys.env, sys.init, w.done) + p.plan.events);
  }

  lemma CommitLocks(sys: System, w: World, t: nat)
    requires LocksFit(sys, w) && PhaseOf(w, t).Open?
    ensures LocksFit(sys, Next(sys, w, CommitTx(t)))
  {
    hide Append, WriteBatch, LocalDraft;
    var w' := Next(sys, w, CommitTx(t));
    forall u: nat
      ensures LockFits(sys, w', u)
    {
      assert LockFits(sys, w, t) && LockFits(sys, w, u);
      if u != t {
        assert PhaseOf(w', u) == PhaseOf(w, u);
      }
    }
  }

  /** Another thread's context, and the registry-wide settings, are not what this commit writes. */
  lemma CommitElsewhere(sys: System, w: World, t: nat, ctx: string)
    requires Inv(sys, w) && PhaseOf(w, t).Open? && !Touches(PhaseOf(w, t).c, ctx)
    ensures var w' := Next(sys, w, CommitTx(t));
            && SliceOf(w'.rows, ctx) == SliceOf(w.rows, ctx)
            && w'.rows.config == w.rows.config && w'.rows.mode == w.rows.mode
  {
    hide LocksFit, SerialFits, SnapFits, LogFits, Decide, Append;
    var p := PhaseOf(w, t);
    assert ThreadFits(sys, w, t);
    BatchBySlice(w.rows, p.plan.writes, ctx);
    OthersUntouched(TargetOf(p.c.verb).value.ctx, ctx, SliceOf(w.rows, ctx), p.plan.writes);
    GlobalUntouched(TargetOf(p.c.verb).value.ctx, w.rows, w.snap, p.plan.writes);
  }

  /** A thread that holds a lock next to another targets one context, and a different one. */
  lemma Apart(sys: System, w: World, t: nat, u: nat)
    requires LocksFit(sys, w) && Holding(PhaseOf(w, t)) && Holding(PhaseOf(w, u)) && t != u
    ensures TargetOf(PhaseOf(w, t).c.verb).Some? && TargetOf(PhaseOf(w, u).c.verb).Some?
    ensures forall ctx: string :: !(Touches(PhaseOf(w, t).c, ctx) && Touches(PhaseOf(w, u).c, ctx))
  {
    hide LocksFit;
    forall ctx: string
      ensures !(Touches(PhaseOf(w, t).c, ctx) && Touches(PhaseOf(w, u).c, ctx))
    {
      if Touches(PhaseOf(w, t).c, ctx) && Touches(PhaseOf(w, u).c, ctx) {
        Alone(sys, w, t, u, ctx);
      }
    }
    var a := if TargetOf(PhaseOf(w, u).c.verb).Some? then TargetOf(PhaseOf(w, u).c.verb).value.ctx else "";
    var b := if TargetOf(PhaseOf(w, t).c.verb).Some? then TargetOf(PhaseOf(w, t).c.verb).value.ctx else "";
    assert Touches(PhaseOf(w, u).c, a) && Touches(PhaseOf(w, t).c, b);
  }

  lemma OpenFits(sys: System, w: World, t: nat)
    requires Inv(sys, w) && PhaseOf(w, t).Open?
    ensures PlanFits(sys, w, PhaseOf(w, t).c, PhaseOf(w, t).plan) && Confined(PhaseOf(w, t).c, PhaseOf(w, t).plan)
  {
    hide Inv, Decide;
    ThreadFitsIn(sys, w, t);
  }

  /** What the transaction writes is true of the rows it is planned on. */
  lemma PlannedTruly(sys: System, w: World, c: Command, plan: Plan, ctx: string)
    requires SerialFits(sys, w) && PlanFits(sys, w, c, plan)
    ensures AllTruthful(ctx, SliceOf(w.rows, ctx), plan.writes)
  {
    hide RepresentsOn, AllSound, AllLinked, AllTruthful, GlobalAgrees, Run, Logged, Confined;
    var reg := Serial(sys, w);
    ViewSees(reg, c);
    hide Decide, Sees, Represents;
    DecidedMoves(sys.env, ViewOf(reg, c), reg.rows, c.verb, plan, ctx);
  }

  lemma CommitEffect(sys: System, w: World, t: nat)
    requires PhaseOf(w, t).Open?
    ensures var p, w' := PhaseOf(w, t), Next(sys, w, CommitTx(t));
            && PhaseOf(w', t) == Durable(p.c, p.plan, w.rows) && w'.snap == w.snap
            && w'.rows == WriteBatch(w.rows, p.plan.writes)
  {
    hide WriteBatch, Append;
  }

  lemma CommitPending(sys: System, w: World, t: nat)
    requires Inv(sys, w) && PhaseOf(w, t).Open?
    ensures ThreadFits(sys, Next(sys, w, CommitTx(t)), t)
  {
    hide Next, SerialFits, LocksFit, LogFits, PlanFits, RepresentsOn, GlobalAgrees, AllTruthful, WriteBatch, Decide;
    var p, w' := PhaseOf(w, t), Next(sys, w, CommitTx(t));
    OpenFits(sys, w, t);
    CommitEffect(sys, w, t);
    forall ctx: string | Touches(p.c, ctx)
      ensures PendingOn(w', p.plan, w.rows, ctx) && GlobalSettled(w)
    {
      HolderSettles(sys, w, t, ctx);
      PlannedTruly(sys, w, p.c, p.plan, ctx);
      BatchBySlice(w.rows, p.plan.writes, ctx);
    }
    assert Touches(p.c, if TargetOf(p.c.verb).Some? then TargetOf(p.c.verb).value.ctx else "");
  }

  lemma CommitOthers(sys: System, w: World, t: nat, u: nat)
    requires Inv(sys, w) && PhaseOf(w, t).Open? && u != t
    ensures ThreadFits(sys, Next(sys, w, CommitTx(t)), u)
  {
    hide RepresentsOn, GlobalAgrees, LocksFit, LogFits, SnapFits, SerialFits, Append, AllTruthful, PlanFits;
    var w', p := Next(sys, w, CommitTx(t)), PhaseOf(w, u);
    assert ThreadFits(sys, w, u);
    if Holding(p) {
      Apart(sys, w, t, u);
      forall ctx: string | Touches(p.c, ctx)
        ensures SliceOf(w'.rows, ctx) == SliceOf(w.rows, ctx) && w'.rows.config == w.rows.config
                && w'.rows.mode == w.rows.mode
      {
        CommitElsewhere(sys, w, t, ctx);
      }
      assert Touches(p.c, TargetOf(p.c.verb).value.ctx);
      if p.Planned? || p.Open? {
        CommitOtherPlan(sys, w, t, u);
      } else if p.Durable? {
        assert forall ctx: string | Touches(p.c, ctx) ::
                 PendingOn(w, p.plan, p.base, ctx) ==> PendingOn(w', p.plan, p.base, ctx);
      } else if p.Viewed? {
        SameGlobal(p.snap, w.rows, w'.rows);
      }
    }
  }

  lemma SameGlobal(snap: Snap, a: Rows, b: Rows)
    requires GlobalAgrees(snap, a) && a.config == b.config && a.mode == b.mode
    ensures GlobalAgrees(snap, b)
  {
  }

  /** A commit next to it does not change what a waiting writer has decided. */
  lemma CommitOtherPlan(sys: System, w: World, t: nat, u: nat)
    requires Inv(sys, w) && PhaseOf(w, t).Open? && u != t && (PhaseOf(w, u).Planned? || PhaseOf(w, u).Open?)
    ensures var p := PhaseOf(w, u); PlanFits(sys, Next(sys, w, CommitTx(t)), p.c, p.plan)
  {
    hide RepresentsOn, AllSound, AllLinked, LocksFit, LogFits, SnapFits, Append, Decide, LocalDraft, WriteBatch;
    var w', p := Next(sys, w, CommitTx(t)), PhaseOf(w, u);
    var reg, reg' := Serial(sys, w), Serial(sys, w');
    assert ThreadFits(sys, w, u);
    CommitIsSerial(sys, w, t);
    Apart(sys, w, t, u);
    LocalOfThread(sys, w, u);
    var ctx := TargetOf(p.c.verb).value.ctx;
    assert Touches(p.c, ctx);
    CommitElsewhere(sys, w, t, ctx);
    var b := ViewOf(reg, p.c);
    ViewSeesEach(reg, p.c, ctx);
    SeesParts(b, SliceOf(w.rows, ctx), ctx);
    SameGlobal(b.snap, w.rows, w'.rows);
    SameDecision(sys.env, reg', p.c, b);
  }

  lemma SeesParts(b: View, s: Slice, ctx: string)
    requires SeesOn(b, s, ctx)
    ensures RepresentsOn(b.snap, s, ctx) && forall id: nat :: Body(b, ctx, id) == Lookup(s.schemas, id)
  {
  }

  lemma LocalOfThread(sys: System, w: World, t: nat)
    requires LocksFit(sys, w) && !PhaseOf(w, t).Idle?
    ensures LocalDraft(PhaseOf(w, t).c.verb)
  {
    assert LockFits(sys, w, t);
  }

  lemma CommitSnap(sys: System, w: World, t: nat)
    requires Inv(sys, w) && PhaseOf(w, t).Open?
    ensures SnapFits(Next(sys, w, CommitTx(t)))
  {
    hide RepresentsOn, LocksFit, LogFits, SerialFits, Append, ThreadFits;
    var w', c := Next(sys, w, CommitTx(t)), PhaseOf(w, t).c;
    forall ctx: string | Settled(w', ctx)
      ensures RepresentsOn(w'.snap, SliceOf(w'.rows, ctx), ctx)
    {
      assert PhaseOf(w', t).Durable?;
      CommitElsewhere(sys, w, t, ctx);
      StillSettled(w, w', t, ctx);
    }
    if GlobalSettled(w') {
      assert PhaseOf(w', t).Durable?;
      var other := TargetOf(c.verb).value.ctx + "x";
      CommitElsewhere(sys, w, t, other);
      forall u: nat | PhaseOf(w, u).Durable?
        ensures TargetOf(PhaseOf(w, u).c.verb).Some?
      {
        assert PhaseOf(w', u) == PhaseOf(w, u);
      }
    }
  }

  lemma StillSettled(w: World, w': World, t: nat, ctx: string)
    requires Settled(w', ctx) && !PhaseOf(w, t).Durable? && forall u: nat | u != t :: PhaseOf(w', u) == PhaseOf(w, u)
    ensures Settled(w, ctx)
  {
    forall u: nat | PhaseOf(w, u).Durable?
      ensures !Touches(PhaseOf(w, u).c, ctx)
    {
      assert PhaseOf(w', u) == PhaseOf(w, u);
    }
  }

  lemma CommitLog(sys: System, w: World, t: nat)
    requires Inv(sys, w) && PhaseOf(w, t).Open?
    ensures LogFits(Next(sys, w, CommitTx(t)))
  {
    hide SerialFits, SnapFits, ThreadFits, WriteBatch;
    assert LockFits(sys, w, t);
    AppendKeeps(w.log, w.history, PhaseOf(w, t).at, PhaseOf(w, t).plan.events);
  }

  lemma CommitKeeps(sys: System, w: World, t: nat)
    requires Inv(sys, w) && PhaseOf(w, t).Open?
    ensures Inv(sys, Next(sys, w, CommitTx(t)))
  {
    hide LocksFit, SerialFits, SnapFits, LogFits, ThreadFits, WriteBatch, Append;
    CommitLocks(sys, w, t);
    CommitIsSerial(sys, w, t);
    CommitSnap(sys, w, t);
    CommitLog(sys, w, t);
    forall u: nat
      ensures ThreadFits(sys, Next(sys, w, CommitTx(t)), u)
    {
      if u == t {
        CommitPending(sys, w, t);
      } else {
        CommitOthers(sys, w, t, u);
      }
    }
  }

  // ---------------- the publish ----------------

  /** Publishing brings the index up to the rows of the contexts it touches ... */
  lemma PublishHere(sys: System, w: World, t: nat, ctx: string)
    requires Inv(sys, w) && PhaseOf(w, t).Durable? && Touches(PhaseOf(w, t).c, ctx)
    ensures RepresentsOn(Next(sys, w, Publish(t)).snap, SliceOf(w.rows, ctx), ctx)
  {
    hide LocksFit, SerialFits, SnapFits, LogFits, RepresentsOn, AllTruthful;
    var p := PhaseOf(w, t);
    assert ThreadFits(sys, w, t);
    assert PendingOn(w, p.plan, p.base, ctx);
    ApplyAllAgreesOn(w.snap, SliceOf(p.base, ctx), ctx, p.plan.writes);
  }

  /** ... and leaves every other one as it was. */
  lemma PublishElsewhere(sys: System, w: World, t: nat, s: Slice, ctx: string)
    requires Inv(sys, w) && PhaseOf(w, t).Durable? && !Touches(PhaseOf(w, t).c, ctx) && RepresentsOn(w.snap, s, ctx)
    ensures RepresentsOn(Next(sys, w, Publish(t)).snap, s, ctx)
  {
    hide LocksFit, SerialFits, SnapFits, LogFits, RepresentsOn, AllTruthful;
    var p := PhaseOf(w, t);
    assert ThreadFits(sys, w, t);
    OthersUntouched(TargetOf(p.c.verb).value.ctx, ctx, s, p.plan.writes);
    ApplyAllAgreesOn(w.snap, s, ctx, p.plan.writes);
  }

  lemma PublishOthers(sys: System, w: World, t: nat, u: nat)
    requires Inv(sys, w) && PhaseOf(w, t).Durable? && u != t
    ensures ThreadFits(sys, Next(sys, w, Publish(t)), u)
  {
    hide RepresentsOn, GlobalAgrees, LocksFit, LogFits, SnapFits, SerialFits, AllTruthful, Decide;
    var w', p := Next(sys, w, Publish(t)), PhaseOf(w, u);
    assert ThreadFits(sys, w, u);
    if p.Durable? {
      Apart(sys, w, t, u);
      forall ctx: string | Touches(p.c, ctx)
        ensures PendingOn(w', p.plan, p.base, ctx)
      {
        assert PendingOn(w, p.plan, p.base, ctx);
        PublishElsewhere(sys, w, t, SliceOf(p.base, ctx), ctx);
      }
    }
  }

  lemma PublishSnap(sys: System, w: World, t: nat)
    requires Inv(sys, w) && PhaseOf(w, t).Durable?
    ensures SnapFits(Next(sys, w, Publish(t)))
  {
    hide RepresentsOn, LocksFit, LogFits, SerialFits, ThreadFits;
    var w', p := Next(sys, w, Publish(t)), PhaseOf(w, t);
    forall ctx: string | Settled(w', ctx)
      ensures RepresentsOn(w'.snap, SliceOf(w'.rows, ctx), ctx)
    {
      if Touches(p.c, ctx) {
        PublishHere(sys, w, t, ctx);
      } else {
        SettledBut(w, w', t, ctx);
        PublishElsewhere(sys, w, t, SliceOf(w.rows, ctx), ctx);
      }
    }
    PublishGlobal(sys, w, t);
  }

  lemma SettledBut(w: World, w': World, t: nat, ctx: string)
    requires Settled(w', ctx) && (PhaseOf(w, t).Durable? ==> !Touches(PhaseOf(w, t).c, ctx))
    requires forall u: nat | u != t :: PhaseOf(w', u) == PhaseOf(w, u)
    ensures Settled(w, ctx)
  {
    forall u: nat | PhaseOf(w, u).Durable?
      ensures !Touches(PhaseOf(w, u).c, ctx)
    {
      if u != t {
        assert PhaseOf(w', u) == PhaseOf(w, u);
      }
    }
  }

  lemma PublishGlobal(sys: System, w: World, t: nat)
    requires Inv(sys, w) && PhaseOf(w, t).Durable?
    ensures var w' := Next(sys, w, Publish(t)); GlobalSettled(w') ==> GlobalAgrees(w'.snap, w'.rows)
  {
    hide RepresentsOn, LocksFit, LogFits, SerialFits, AllTruthful;
    var w', p := Next(sys, w, Publish(t)), PhaseOf(w, t);
    assert ThreadFits(sys, w, t);
    if TargetOf(p.c.verb).None? {
      ApplyAllGlobal(w.snap, p.base, p.plan.writes);
    } else if GlobalSettled(w') {
      forall u: nat | PhaseOf(w, u).Durable?
        ensures TargetOf(PhaseOf(w, u).c.verb).Some?
      {
        if u != t {
          assert PhaseOf(w', u) == PhaseOf(w, u);
        }
      }
      GlobalUntouched(TargetOf(p.c.verb).value.ctx, w.rows, w.snap, p.plan.writes);
    }
  }

  lemma PublishLocks(sys: System, w: World, t: nat)
    requires LocksFit(sys, w) && PhaseOf(w, t).Durable?
    ensures LocksFit(sys, Next(sys, w, Publish(t)))
  {
    hide ApplyAll, LocalDraft;
    forall u: nat
      ensures LockFits(sys, Next(sys, w, Publish(t)), u)
    {
      assert LockFits(sys, w, t) && LockFits(sys, w, u);
    }
  }

  lemma PublishEffect(sys: System, w: World, t: nat)
    requires PhaseOf(w, t).Durable?
    ensures var w' := Next(sys, w, Publish(t));
            && w'.rows == w.rows && w'.done == w.done && w'.log == w.log && w'.history == w.history
            && w'.keep == w.keep && PhaseOf(w', t).Finishing?
  {
    hide ApplyAll;
  }

  lemma PublishKeeps(sys: System, w: World, t: nat)
    requires Inv(sys, w) && PhaseOf(w, t).Durable?
    ensures Inv(sys, Next(sys, w, Publish(t)))
  {
    hide Next, LocksFit, SnapFits, ThreadFits, AllLinked, Good, Holds, Run, Logged;
    var w' := Next(sys, w, Publish(t));
    PublishLocks(sys, w, t);
    PublishEffect(sys, w, t);
    PublishSnap(sys, w, t);
    forall u: nat
      ensures ThreadFits(sys, w', u)
    {
      if u == t {
        FinishingFits(sys, w', t);
      } else {
        PublishOthers(sys, w, t, u);
      }
    }
  }

  lemma FinishingFits(sys: System, w: World, t: nat)
    requires PhaseOf(w, t).Finishing?
    ensures ThreadFits(sys, w, t)
  {
  }

  // ---------------- pruning ----------------

  /** Pruning touches the log alone, and never its sequence counter. */
  ghost predicate OnlyLog(w: World, w': World) {
    && w'.threads == w.threads && w'.rows == w.rows && w'.snap == w.snap && w'.done == w.done
    && w'.readers == w.readers && w'.writer == w.writer && w'.stripes == w.stripes && w'.counters == w.counters
    && w'.history == w.history && w'.log.next == w.log.next
  }

  lemma PruneEffect(sys: System, w: World, act: Act)
    requires LogFits(w) && Enabled(sys, w, act) && (act.ChooseFloor? || act.PruneLog?)
    ensures OnlyLog(w, Next(sys, w, act)) && LogFits(Next(sys, w, act))
  {
    if act.PruneLog? {
      PruneKeeps(w.log, w.history, w.keep.value);
    }
  }

  lemma SameLocksFit(sys: System, w: World, w': World)
    requires LocksFit(sys, w) && OnlyLog(w, w')
    ensures LocksFit(sys, w')
  {
    hide StripeOf, LocalDraft;
    forall u: nat
      ensures LockFits(sys, w', u)
    {
      assert LockFits(sys, w, u);
    }
  }

  lemma PruneSteps(sys: System, w: World, act: Act)
    requires Inv(sys, w) && Enabled(sys, w, act) && (act.ChooseFloor? || act.PruneLog?)
    ensures Inv(sys, Next(sys, w, act))
  {
    hide Next, Enabled, LocksFit, SnapFits, LogFits, ThreadFits, Good, AllLinked, Run, Logged;
    var w' := Next(sys, w, act);
    PruneEffect(sys, w, act);
    SameLocksFit(sys, w, w');
    SameSnapFits(w, w');
    forall u: nat
      ensures ThreadFits(sys, w', u)
    {
      assert ThreadFits(sys, w, u);
      SamePhaseFits(sys, w, w', u);
    }
  }

  lemma SameSnapFits(w: World, w': World)
    requires SnapFits(w) && w'.threads == w.threads && w'.rows == w.rows && w'.snap == w.snap
    ensures SnapFits(w')
  {
    hide RepresentsOn, GlobalAgrees;
    forall ctx: string | Settled(w', ctx)
      ensures RepresentsOn(w'.snap, SliceOf(w'.rows, ctx), ctx)
    {
      forall u: nat
        ensures PhaseOf(w', u) == PhaseOf(w, u)
      {
      }
      assert Settled(w, ctx);
    }
    if GlobalSettled(w') {
      assert forall u: nat :: PhaseOf(w', u) == PhaseOf(w, u);
      assert GlobalSettled(w);
    }
  }

  // ---------------- every interleaving ----------------

  lemma StepKeepsInv(sys: System, w: World, act: Act)
    requires Inv(sys, w) && Enabled(sys, w, act)
    ensures Inv(sys, Next(sys, w, act))
  {
    hide Inv, Next;
    match act
    case CommitTx(t) => CommitKeeps(sys, w, t);
    case Publish(t) => PublishKeeps(sys, w, t);
    case ChooseFloor(_) => PruneSteps(sys, w, act);
    case PruneLog => PruneSteps(sys, w, act);
    case _ => QuietSteps(sys, w, act);
  }

  lemma {:induction false} AlwaysInv(sys: System, w: World, acts: seq<Act>)
    requires Inv(sys, w) && Behaves(sys, w, acts)
    ensures Inv(sys, After(sys, w, acts))
    decreases acts
  {
    if acts != [] {
      StepKeepsInv(sys, w, acts[0]);
      hide Inv, Next, Enabled;
      AlwaysInv(sys, Next(sys, w, acts[0]), acts[1..]);
    }
  }

  /** A writer that has taken its view sees its contexts exactly as they are on disk, until it commits. */
  lemma WritersSeeTheirContext(sys: System, acts: seq<Act>, t: nat, ctx: string)
    requires Opens(sys) && Behaves(sys, Start(sys), acts)
    requires var p := PhaseOf(After(sys, Start(sys), acts), t); p.Viewed? && Touches(p.c, ctx)
    ensures var w := After(sys, Start(sys), acts);
            RepresentsOn(PhaseOf(w, t).snap, SliceOf(w.rows, ctx), ctx) && GlobalAgrees(PhaseOf(w, t).snap, w.rows)
  {
    hide Inv, Next, Enabled, Behaves, RepresentsOn;
    StartFits(sys);
    AlwaysInv(sys, Start(sys), acts);
    assert ThreadFits(sys, After(sys, Start(sys), acts), t) by {
      EachFits(sys, After(sys, Start(sys), acts), t);
    }
  }

  lemma EachFits(sys: System, w: World, t: nat)
    requires Inv(sys, w)
    ensures ThreadFits(sys, w, t)
  {
  }

  /** With nothing between durable and published, the snapshot answers as one rebuilt from the rows. */
  lemma SettledAnswersLikeRebuild(sys: System, acts: seq<Act>, rebuilt: Snap)
    requires Opens(sys) && Behaves(sys, Start(sys), acts)
    requires forall t: nat :: !PhaseOf(After(sys, Start(sys), acts), t).Durable?
    requires Represents(rebuilt, After(sys, Start(sys), acts).rows)
    ensures SameAnswers(After(sys, Start(sys), acts).snap, rebuilt)
  {
    hide Next, Enabled, Behaves, RepresentsOn, LocksFit, SerialFits, ThreadFits, LogFits, SameAnswers;
    StartFits(sys);
    AlwaysInv(sys, Start(sys), acts);
    var w := After(sys, Start(sys), acts);
    assert SnapFits(w);
    forall ctx: string
      ensures RepresentsOn(w.snap, SliceOf(w.rows, ctx), ctx)
    {
      assert Settled(w, ctx);
    }
    assert GlobalSettled(w);
    RepresentsDetermines(w.snap, rebuilt, w.rows);
  }

  /** What is on disk and in the log is what the same commands leave when run one at a time, in commit order. */
  lemma CommitsAreSerial(sys: System, acts: seq<Act>)
    requires Opens(sys) && Behaves(sys, Start(sys), acts)
    ensures var w := After(sys, Start(sys), acts);
            && w.rows == Run(sys.env, sys.init, w.done).rows
            && w.history == sys.history + Logged(sys.env, sys.init, w.done)
  {
    hide Next, Enabled, Behaves, LocksFit, ThreadFits, LogFits, SnapFits, Good, AllLinked;
    StartFits(sys);
    AlwaysInv(sys, Start(sys), acts);
  }

  /** The log holds exactly the events from its floor on, in the order they were committed. */
  lemma LogIsExact(sys: System, acts: seq<Act>)
    requires Opens(sys) && Behaves(sys, Start(sys), acts)
    ensures var w := After(sys, Start(sys), acts); Holds(w.log, w.history)
  {
    hide Next, Enabled, Behaves, LocksFit, ThreadFits, SerialFits, SnapFits, Holds;
    StartFits(sys);
    AlwaysInv(sys, Start(sys), acts);
  }

  /** And the events committed so far, played back, give the ids and flags of every version on disk. */
  lemma HistoryTellsDisk(sys: System, acts: seq<Act>, t: Table)
    requires Opens(sys) && Behaves(sys, Start(sys), acts) && Tells(t, sys.init.rows)
    ensures var w := After(sys, Start(sys), acts);
            sys.history <= w.history && Tells(PlayAll(t, w.history[|sys.history|..]), w.rows)
  {
    hide Next, Enabled, Behaves, Good, AllLinked, Tells, Holds;
    CommitsAreSerial(sys, acts);
    var w := After(sys, Start(sys), acts);
    RunIsTold(sys.env, sys.init, w.done, t);
    assert w.history[|sys.history|..] == Logged(sys.env, sys.init, w.done);
  }
}
