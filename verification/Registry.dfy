/**
 Runs of the registry: any sequence of verbs, each decided on a view of the
 state before it, its plan written as one batch and published to the index
 (src/engine.rs). Refused verbs change nothing. What holds over every run is
 proved here from the moves a verb can make.
 */
module Registry {
  import opened RegistryTypes
  import opened Store
  import opened Snapshot
  import opened Agreement
  import opened Verbs
  import opened Effects
  import opened Moves
  import opened Steps

  /** A verb, with the instant and the guid it would stamp. */
  datatype Command = Command(verb: Verb, now: int, guid: string)

  datatype Reg = Reg(rows: Rows, snap: Snap)

  const EMPTY_REG := Reg(EMPTY_ROWS, EMPTY_SNAP)

  function ViewOf(reg: Reg, c: Command): View {
    View(reg.snap, map ctx | ctx in reg.rows.slices :: reg.rows.slices[ctx].schemas, c.now, c.guid)
  }

  function Commit(reg: Reg, plan: Plan): Reg {
    Reg(WriteBatch(reg.rows, plan.writes), ApplyAll(reg.snap, plan.writes))
  }

  function Step(env: Env, reg: Reg, c: Command): Reg {
    var plan := Decide(env, ViewOf(reg, c), c.verb);
    if plan.Success? then Commit(reg, plan.value) else reg
  }

  function Run(env: Env, reg: Reg, cs: seq<Command>): Reg
    decreases cs
  {
    if cs == [] then reg else Run(env, Step(env, reg, cs[0]), cs[1..])
  }

  function EventsOf(env: Env, reg: Reg, c: Command): seq<LogEvent> {
    var plan := Decide(env, ViewOf(reg, c), c.verb);
    if plan.Success? then plan.value.events else []
  }

  /** Every event of a run, in the order its verbs logged them. */
  function Logged(env: Env, reg: Reg, cs: seq<Command>): seq<LogEvent>
    decreases cs
  {
    if cs == [] then [] else EventsOf(env, reg, cs[0]) + Logged(env, Step(env, reg, cs[0]), cs[1..])
  }

  function At(reg: Reg, ctx: string): Slice {
    SliceOf(reg.rows, ctx)
  }

  // ---------------- the state every run stays in ----------------

  ghost predicate Good(reg: Reg) {
    Represents(reg.snap, reg.rows) && AllSound(reg.rows)
  }

  lemma SoundAt(reg: Reg, ctx: string)
    requires Good(reg)
    ensures Sound(At(reg, ctx))
  {
    assert Sound(SliceOf(reg.rows, ctx));
  }

  lemma EmptyIsGood()
    ensures Good(EMPTY_REG)
  {
    forall ctx: string
      ensures RepresentsOn(EMPTY_SNAP, SliceOf(EMPTY_ROWS, ctx), ctx)
    {
      forall id: nat
        ensures UsagesOf(EMPTY_CTX, id) == Holders(EMPTY_SLICE, id)
      {
      }
      forall slot: Slot
        ensures ReferrersOf(EMPTY_CTX, slot) == Referrers(EMPTY_SLICE, slot)
      {
      }
    }
  }

  lemma ViewSees(reg: Reg, c: Command)
    requires Good(reg)
    ensures Sees(ViewOf(reg, c), reg.rows)
  {
    hide Represents, AllSound;
  }

  lemma ViewSeesEach(reg: Reg, c: Command, ctx: string)
    requires Good(reg)
    ensures SeesOn(ViewOf(reg, c), At(reg, ctx), ctx)
  {
    hide Represents, AllSound, SeesOn;
    ViewSees(reg, c);
    SeesEach(ViewOf(reg, c), reg.rows, ctx);
  }

  lemma GoodIsSorted(reg: Reg)
    requires Good(reg)
    ensures SortedLists(reg.snap)
  {
    forall q: Qualified
      ensures Sorted(ListVersions(reg.snap, q))
    {
      assert RepresentsOn(reg.snap, SliceOf(reg.rows, q.ctx), q.ctx);
      assert Sorted(VersionsOf(Ctx(reg.snap, q.ctx), q.subject));
    }
  }

  /** A step is a move on every context, or nothing at all. */
  function StepMove(env: Env, reg: Reg, c: Command, ctx: string): Move {
    if Decide(env, ViewOf(reg, c), c.verb).Success? then MoveOf(env, ViewOf(reg, c), c.verb, ctx) else Stay
  }

  lemma StepMoves(env: Env, reg: Reg, c: Command, ctx: string)
    requires Good(reg)
    ensures IsMove(ViewOf(reg, c), At(reg, ctx), At(Step(env, reg, c), ctx), StepMove(env, reg, c, ctx))
  {
    var view := ViewOf(reg, c);
    ViewSees(reg, c);
    if Decide(env, view, c.verb).Success? {
      hide IsMove, Decide, MoveOf, Represents, AllSound, Sees;
      var plan := Decide(env, view, c.verb).value;
      DecidedMoves(env, view, reg.rows, c.verb, plan, ctx);
      BatchBySlice(reg.rows, plan.writes, ctx);
    }
  }

  lemma StepKeepsGood(env: Env, reg: Reg, c: Command)
    requires Good(reg)
    ensures Good(Step(env, reg, c))
  {
    hide IsMove, Decide, StepMove, MoveOf, Represents, RepresentsOn, Sound, Sees, AllTruthful;
    var view, reg' := ViewOf(reg, c), Step(env, reg, c);
    ViewSees(reg, c);
    if Decide(env, view, c.verb).Success? {
      var plan := Decide(env, view, c.verb).value;
      forall ctx: string
        ensures AllTruthful(ctx, SliceOf(reg.rows, ctx), plan.writes)
      {
        DecidedMoves(env, view, reg.rows, c.verb, plan, ctx);
      }
      PublishAgrees(reg.snap, reg.rows, plan.writes);
    }
    forall ctx: string
      ensures Sound(SliceOf(reg'.rows, ctx))
    {
      StepMoves(env, reg, c, ctx);
      MovesKeepSound(view, At(reg, ctx), At(reg', ctx), StepMove(env, reg, c, ctx));
    }
  }

  lemma {:induction false} RunKeepsGood(env: Env, reg: Reg, cs: seq<Command>)
    requires Good(reg)
    ensures Good(Run(env, reg, cs))
    decreases cs
  {
    if cs != [] {
      StepKeepsGood(env, reg, cs[0]);
      hide Good, Step;
      RunKeepsGood(env, Step(env, reg, cs[0]), cs[1..]);
    }
  }

  lemma {:induction false} RunInTwo(env: Env, reg: Reg, a: seq<Command>, b: seq<Command>)
    ensures Run(env, reg, a + b) == Run(env, Run(env, reg, a), b)
    ensures Logged(env, reg, a + b) == Logged(env, reg, a) + Logged(env, Run(env, reg, a), b)
    decreases a
  {
    hide Step, EventsOf;
    if a == [] {
      assert a + b == b;
    } else {
      assert (a + b)[1..] == a[1..] + b;
      RunInTwo(env, Step(env, reg, a[0]), a[1..], b);
    }
  }

  // ---------------- the index answers what a rebuilt one would ----------------

  /** Any index that represents the rows after a run answers every query as the live one does. */
  lemma RunAnswersLikeRebuild(env: Env, reg: Reg, cs: seq<Command>, rebuilt: Snap)
    requires Good(reg) && Represents(rebuilt, Run(env, reg, cs).rows)
    ensures SameAnswers(Run(env, reg, cs).snap, rebuilt)
  {
    RunKeepsGood(env, reg, cs);
    RepresentsDetermines(Run(env, reg, cs).snap, rebuilt, Run(env, reg, cs).rows);
  }

  // ---------------- bodies ----------------

  /** Every version row has its body, whatever was deleted on the way. */
  lemma HeldIdsHaveBodies(env: Env, cs: seq<Command>, ctx: string, slot: Slot)
    requires slot in At(Run(env, EMPTY_REG, cs), ctx).versions
    ensures At(Run(env, EMPTY_REG, cs), ctx).versions[slot].id in At(Run(env, EMPTY_REG, cs), ctx).schemas
  {
    EmptyIsGood();
    RunKeepsGood(env, EMPTY_REG, cs);
    assert Sound(SliceOf(Run(env, EMPTY_REG, cs).rows, ctx));
  }

  // ---------------- ids and their content ----------------

  lemma MoveKeepsContent(view: View, s: Slice, s': Slice, m: Move, id: nat)
    requires Sound(s) && Sound(s') && IsMove(view, s, s', m) && Held(s, id) && Held(s', id)
    ensures id in s.schemas && id in s'.schemas && s'.schemas[id].content == s.schemas[id].content
  {
  }

  lemma MoveRaisesCounter(view: View, s: Slice, s': Slice, m: Move)
    requires IsMove(view, s, s', m)
    ensures NextIdOf(s) <= NextIdOf(s')
  {
  }

  /** The id is held by some version in every state of the run. */
  predicate HeldThroughout(env: Env, reg: Reg, cs: seq<Command>, ctx: string, id: nat)
    decreases cs
  {
    Held(At(reg, ctx), id) && (cs == [] || HeldThroughout(env, Step(env, reg, cs[0]), cs[1..], ctx, id))
  }

  /** The content under an id stays the same as long as some version holds the id. */
  lemma {:induction false} HeldContentNeverChanges(env: Env, reg: Reg, cs: seq<Command>, ctx: string, id: nat)
    requires Good(reg) && HeldThroughout(env, reg, cs, ctx, id)
    ensures var s, s' := At(reg, ctx), At(Run(env, reg, cs), ctx);
            id in s.schemas && id in s'.schemas && s'.schemas[id].content == s.schemas[id].content
    decreases cs
  {
    assert Sound(SliceOf(reg.rows, ctx));
    if cs != [] {
      hide IsMove, Step, StepMove, Represents, Sound;
      var reg' := Step(env, reg, cs[0]);
      StepKeepsGood(env, reg, cs[0]);
      StepMoves(env, reg, cs[0], ctx);
      assert Sound(SliceOf(reg'.rows, ctx));
      MoveKeepsContent(ViewOf(reg, cs[0]), At(reg, ctx), At(reg', ctx), StepMove(env, reg, cs[0], ctx), id);
      HeldContentNeverChanges(env, reg', cs[1..], ctx, id);
    }
  }

  lemma {:induction false} CounterNeverFalls(env: Env, reg: Reg, cs: seq<Command>, ctx: string)
    requires Good(reg)
    ensures NextIdOf(At(reg, ctx)) <= NextIdOf(At(Run(env, reg, cs), ctx))
    decreases cs
  {
    if cs != [] {
      hide IsMove, Step, StepMove, Good, NextIdOf;
      var reg' := Step(env, reg, cs[0]);
      StepKeepsGood(env, reg, cs[0]);
      StepMoves(env, reg, cs[0], ctx);
      MoveRaisesCounter(ViewOf(reg, cs[0]), At(reg, ctx), At(reg', ctx), StepMove(env, reg, cs[0], ctx));
      CounterNeverFalls(env, reg', cs[1..], ctx);
    }
  }

  /** An id that was ever stored or held is below what would be allocated at any later time. */
  lemma IdsAreNeverReused(env: Env, before: seq<Command>, after: seq<Command>, ctx: string, id: nat)
    requires var s := At(Run(env, EMPTY_REG, before), ctx); id in s.schemas || Held(s, id)
    ensures id < NextId(Run(env, EMPTY_REG, before + after).snap, ctx)
  {
    var mid, end := Run(env, EMPTY_REG, before), Run(env, EMPTY_REG, before + after);
    EmptyIsGood();
    RunKeepsGood(env, EMPTY_REG, before);
    RunInTwo(env, EMPTY_REG, before, after);
    CounterNeverFalls(env, mid, after, ctx);
    RunKeepsGood(env, mid, after);
    assert Sound(SliceOf(mid.rows, ctx));
    assert RepresentsOn(end.snap, SliceOf(end.rows, ctx), ctx);
  }
}
