/**
 What each verb leaves in the version table, row by row, and what it logs: the
 events of any run, played back from nothing, give the ids and flags of every
 version there is. Nothing happens to a version that the log does not tell,
 and nothing is logged that did not happen.
 */
module Outcomes {
  import opened Wrappers
  import opened RegistryTypes
  import opened Store
  import opened Snapshot
  import opened Verbs
  import opened Effects
  import opened Moves
  import opened Steps
  import opened Registry
  import Reclamation

  // ---------------- the table a log tells ----------------

  datatype Status = Status(id: nat, deleted: bool)

  type Table = map<(string, Slot), Status>

  function Play(t: Table, e: LogEvent): Table {
    var k := (e.ctx, e.slot);
    match e.kind
    case Registered => t[k := Status(e.id, false)]
    case SoftDeleted => t[k := Status(e.id, true)]
    case HardDeleted => t - {k}
  }

  function PlayAll(t: Table, es: seq<LogEvent>): Table
    decreases es
  {
    if es == [] then t else PlayAll(Play(t, es[0]), es[1..])
  }

  function StatusAt(s: Slice, slot: Slot): Option<Status> {
    if slot in s.versions then Some(Status(s.versions[slot].id, s.versions[slot].deleted)) else None
  }

  ghost predicate Tells(t: Table, rows: Rows) {
    forall ctx: string, slot: Slot :: Lookup(t, (ctx, slot)) == StatusAt(SliceOf(rows, ctx), slot)
  }

  lemma {:induction false} PlayConcat(t: Table, a: seq<LogEvent>, b: seq<LogEvent>)
    ensures PlayAll(t, a + b) == PlayAll(PlayAll(t, a), b)
    decreases a
  {
    hide Play;
    if a == [] {
      assert a + b == b;
    } else {
      assert (a + b)[1..] == a[1..] + b;
      PlayConcat(Play(t, a[0]), a[1..], b);
    }
  }

  lemma {:induction false} PlayPurge(t: Table, doomed: seq<Doomed>, ctx: string, slot: Slot)
    ensures Lookup(PlayAll(t, PurgeEvents(doomed)), (ctx, slot)) ==
            if slot in Gone(doomed, ctx) then None else Lookup(t, (ctx, slot))
    decreases doomed
  {
    if doomed != [] {
      var es := PurgeEvents(doomed);
      assert es[1..] == PurgeEvents(doomed[1..]);
      PlayPurge(Play(t, es[0]), doomed[1..], ctx, slot);
      assert forall d :: d in doomed <==> d == doomed[0] || d in doomed[1..];
      assert slot in Gone(doomed, ctx) <==>
             slot in Gone(doomed[1..], ctx) || (doomed[0].q.ctx == ctx && SlotOf(doomed[0]) == slot);
    } else {
      assert Gone(doomed, ctx) == {};
    }
  }

  lemma {:induction false} PlayHide(t: Table, q: Qualified, vs: seq<Entry>, ctx: string, slot: Slot)
    requires Sorted(vs)
    ensures var hit := if ctx == q.ctx && slot.subject == q.subject then Find(vs, slot.version) else None;
            Lookup(PlayAll(t, HideEvents(q, vs)), (ctx, slot)) ==
            if hit.Some? then Some(Status(hit.value.id, true)) else Lookup(t, (ctx, slot))
    decreases vs
  {
    if vs != [] {
      var es := HideEvents(q, vs);
      assert es[1..] == HideEvents(q, vs[1..]);
      PlayHide(Play(t, es[0]), q, vs[1..], ctx, slot);
      FindIn(vs, slot.version);
      FindIn(vs[1..], slot.version);
    }
  }

  // ---------------- one step ----------------

  lemma PurgeIsTold(view: View, s: Slice, s': Slice, doomed: seq<Doomed>, t: Table, ctx: string, slot: Slot)
    requires IsMove(view, s, s', PurgeOf(view, doomed, ctx)) && Lookup(t, (ctx, slot)) == StatusAt(s, slot)
    ensures Lookup(PlayAll(t, PurgeEvents(doomed)), (ctx, slot)) == StatusAt(s', slot)
  {
    hide PlayAll, Unheld, Freed, Cut;
    PlayPurge(t, doomed, ctx, slot);
  }

  lemma HideIsTold(view: View, s: Slice, s': Slice, q: Qualified, vs: seq<Entry>, t: Table, ctx: string, slot: Slot)
    requires ctx == q.ctx ==> SeesOn(view, s, ctx)
    requires Sorted(vs) && (forall e | e in vs :: e in ListVersions(view.snap, q))
             && Lookup(t, (ctx, slot)) == StatusAt(s, slot)
    requires IsMove(view, s, s', Hiding(if ctx == q.ctx then SlotsOf(q, vs) else {}))
    ensures Lookup(PlayAll(t, HideEvents(q, vs)), (ctx, slot)) == StatusAt(s', slot)
  {
    hide PlayAll, SeesOn;
    PlayHide(t, q, vs, ctx, slot);
    FindIn(vs, slot.version);
    if ctx == q.ctx {
      ListedAreRows(view, s, q);
      assert slot in SlotsOf(q, vs) <==> slot.subject == q.subject && exists e :: e in vs && e.version == slot.version;
    }
  }

  lemma RecordIsTold(view: View, s: Slice, s': Slice, q: Qualified, c: Content, version: nat, id: nat, t: Table,
                     ctx: string, slot: Slot)
    requires ctx == q.ctx && IsMove(view, s, s', RecordingOf(view, q, c, version, id))
             && Lookup(t, (ctx, slot)) == StatusAt(s, slot)
    ensures Lookup(PlayAll(t, RegisterPlan(view, q, c, version, id).events), (ctx, slot)) == StatusAt(s', slot)
  {
    hide Unheld, Freed, Cut, Purge, PutWrites, Replaced, Stale;
    var replaced, stale := Replaced(view, q, version), Stale(view, q, version, id);
    var last := [LogEvent(q.ctx, Slot(q.subject, version), id, Registered)];
    PlayConcat(t, PurgeEvents(replaced) + PurgeEvents(stale), last);
    PlayConcat(t, PurgeEvents(replaced), PurgeEvents(stale));
    var t1 := PlayAll(t, PurgeEvents(replaced));
    var t2 := PlayAll(t1, PurgeEvents(stale));
    PlayPurge(t, replaced, ctx, slot);
    PlayPurge(t1, stale, ctx, slot);
    assert last[1..] == [];
    assert PlayAll(t2, last) == PlayAll(Play(t2, last[0]), []);
  }

  lemma RelinkIsTold(view: View, s: Slice, s': Slice, q: Qualified, c: Content, version: nat, id: nat, t: Table,
                     ctx: string, slot: Slot)
    requires ctx != q.ctx && IsMove(view, s, s', RelinkOf(view, q, c, version, id, ctx))
             && Lookup(t, (ctx, slot)) == StatusAt(s, slot)
    ensures Lookup(PlayAll(t, RegisterPlan(view, q, c, version, id).events), (ctx, slot)) == StatusAt(s', slot)
  {
    hide Cut, Purge, PutWrites, Replaced, Stale, EdgesIn;
    var replaced, stale := Replaced(view, q, version), Stale(view, q, version, id);
    var last := [LogEvent(q.ctx, Slot(q.subject, version), id, Registered)];
    NothingElsewhere(view, q, ctx, version, id);
    PlayConcat(t, PurgeEvents(replaced) + PurgeEvents(stale), last);
    PlayConcat(t, PurgeEvents(replaced), PurgeEvents(stale));
    var t1 := PlayAll(t, PurgeEvents(replaced));
    var t2 := PlayAll(t1, PurgeEvents(stale));
    PlayPurge(t, replaced, ctx, slot);
    PlayPurge(t1, stale, ctx, slot);
    assert last[1..] == [];
    assert PlayAll(t2, last) == PlayAll(Play(t2, last[0]), []);
  }

  lemma RegisterIsTold(env: Env, view: View, s: Slice, s': Slice, q: Qualified, d: Draft, normalize: bool, plan: Plan,
                       t: Table, ctx: string, slot: Slot)
    requires PlanRegister(env, view, q, d, normalize) == Success(plan)
             && IsMove(view, s, s', RegisterMove(env, view, q, d, normalize, ctx))
    requires Lookup(t, (ctx, slot)) == StatusAt(s, slot)
    ensures Lookup(PlayAll(t, plan.events), (ctx, slot)) == StatusAt(s', slot)
  {
    hide Prepare, Settle, RegisterPlan, RecordingOf, RelinkOf, PlayAll;
    var o := Settle(env, view, q, Prepare(env, view, q, d, normalize).value).value;
    if o.Already? {
      PlayNothing(t);
    } else if ctx == q.ctx {
      RecordIsTold(view, s, s', q, o.canon.content, o.version, o.id, t, ctx, slot);
    } else {
      RelinkIsTold(view, s, s', q, o.canon.content, o.version, o.id, t, ctx, slot);
    }
  }

  lemma PlayNothing(t: Table)
    ensures PlayAll(t, []) == t
  {
  }

  lemma DecidedIsTold(env: Env, view: View, s: Slice, s': Slice, verb: Verb, plan: Plan, t: Table, ctx: string,
                      slot: Slot)
    requires SeesOn(view, s, ctx) && SortedLists(view.snap) && Decide(env, view, verb) == Success(plan)
    requires IsMove(view, s, s', MoveOf(env, view, verb, ctx)) && Lookup(t, (ctx, slot)) == StatusAt(s, slot)
    ensures Lookup(PlayAll(t, plan.events), (ctx, slot)) == StatusAt(s', slot)
  {
    hide SeesOn, PlayAll, PlanRegister, RegisterMove, PurgeOf, Purge, HasSubjects, HasAnySubject, ReferencedLive,
      Objection, Allowed, InScope, ModeFor;
    PlayNothing(t);
    match verb
    case Register(q, d, normalize) => RegisterIsTold(env, view, s, s', q, d, normalize, plan, t, ctx, slot);
    case DropSubject(q, permanent) =>
      var all := ListVersions(view.snap, q);
      if permanent {
        PurgeIsTold(view, s, s', DoomAll(q, all), t, ctx, slot);
      } else {
        LiveOnesOf(all);
        HideIsTold(view, s, s', q, LiveOnes(all), t, ctx, slot);
      }
    case DropVersion(q, spec, permanent) =>
      GetExactIn(view.snap, q, spec, true);
      var e := GetExact(view.snap, q, spec, true).value;
      assert forall x | x in [e] :: x == e;
      if permanent {
        assert DoomAll(q, [e]) == [Doomed(q, e.version, e.rec)];
        PurgeIsTold(view, s, s', DoomAll(q, [e]), t, ctx, slot);
      } else {
        HideIsTold(view, s, s', q, [e], t, ctx, slot);
      }
    case ChangeMode(target, mode, force) =>
      if Purges(view.snap, target, mode, force) {
        PurgeIsTold(view, s, s', InScope(view.snap, target), t, ctx, slot);
      }
    case _ =>
  }

  lemma StepIsTold(env: Env, reg: Reg, c: Command, t: Table)
    requires Good(reg) && Tells(t, reg.rows)
    ensures Tells(PlayAll(t, EventsOf(env, reg, c)), Step(env, reg, c).rows)
  {
    hide Good, Decide, MoveOf, IsMove, SeesOn, SortedLists, PlayAll, Commit;
    var view, reg' := ViewOf(reg, c), Step(env, reg, c);
    PlayNothing(t);
    GoodIsSorted(reg);
    forall ctx: string, slot: Slot
      ensures Lookup(PlayAll(t, EventsOf(env, reg, c)), (ctx, slot)) == StatusAt(SliceOf(reg'.rows, ctx), slot)
    {
      assert Lookup(t, (ctx, slot)) == StatusAt(SliceOf(reg.rows, ctx), slot);
      if Decide(env, view, c.verb).Success? {
        StepMoves(env, reg, c, ctx);
        ViewSeesEach(reg, c, ctx);
        DecidedIsTold(env, view, At(reg, ctx), At(reg', ctx), c.verb, Decide(env, view, c.verb).value, t, ctx, slot);
      }
    }
  }

  lemma {:induction false} RunIsTold(env: Env, reg: Reg, cs: seq<Command>, t: Table)
    requires Good(reg) && Tells(t, reg.rows)
    ensures Tells(PlayAll(t, Logged(env, reg, cs)), Run(env, reg, cs).rows)
    decreases cs
  {
    if cs == [] {
      PlayNothing(t);
    } else {
      hide Good, Tells, Step, EventsOf, PlayAll;
      StepIsTold(env, reg, cs[0], t);
      StepKeepsGood(env, reg, cs[0]);
      RunIsTold(env, Step(env, reg, cs[0]), cs[1..], PlayAll(t, EventsOf(env, reg, cs[0])));
      PlayConcat(t, EventsOf(env, reg, cs[0]), Logged(env, Step(env, reg, cs[0]), cs[1..]));
    }
  }

  /** From an empty registry the log alone says which versions there are, under which ids, and which are deleted. */
  lemma LogTellsVersions(env: Env, cs: seq<Command>)
    ensures Tells(PlayAll(map[], Logged(env, EMPTY_REG, cs)), Run(env, EMPTY_REG, cs).rows)
  {
    EmptyIsGood();
    RunIsTold(env, EMPTY_REG, cs, map[]);
  }

  // ---------------- verb by verb ----------------

  /** The versions of a subject are hidden or removed; every other row of the registry is as it was. */
  lemma DropSubjectLeaves(env: Env, reg: Reg, c: Command, ctx: string, slot: Slot)
    requires Good(reg) && c.verb.DropSubject? && Decide(env, ViewOf(reg, c), c.verb).Success?
    ensures var q, was, now := c.verb.q, StatusAt(At(reg, ctx), slot), StatusAt(At(Step(env, reg, c), ctx), slot);
            if ctx == q.ctx && slot.subject == q.subject
            then now == (if c.verb.permanent || was.None? then None else Some(was.value.(deleted := true)))
            else now == was
  {
    hide Good, Step, PlanOf, SeesOn, Freed, Cut, Allowed, ModeFor, Unheld;
    var q, view := c.verb.q, ViewOf(reg, c);
    StepMoves(env, reg, c, ctx);
    if ctx == q.ctx {
      ViewSeesEach(reg, c, ctx);
      ListedAreRows(view, At(reg, ctx), q);
      var all := ListVersions(view.snap, q);
      LiveOnesOf(all);
      DoomedAre(q, all);
      if slot in At(reg, ctx).versions && slot.subject == q.subject {
        var e := Entry(slot.version, At(reg, ctx).versions[slot]);
        assert e in all && (Live(e) ==> e in LiveOnes(all));
        assert Doomed(q, slot.version, e.rec) in DoomAll(q, all);
      }
    }
  }

  /** The version a specification names: by its number, or the highest that is live. */
  predicate Names(s: Slice, subject: string, spec: VersionSpec, version: nat) {
    match spec
    case Exact(n) => version == n
    case Latest =>
      && Slot(subject, version) in s.versions && !s.versions[Slot(subject, version)].deleted
      && forall slot | slot in s.versions && slot.subject == subject && !s.versions[slot].deleted ::
        slot.version <= version
  }

  /** One version is hidden or removed, the one the request names. */
  lemma DropVersionLeaves(env: Env, reg: Reg, c: Command, ctx: string, slot: Slot)
    requires Good(reg) && c.verb.DropVersion? && Decide(env, ViewOf(reg, c), c.verb).Success?
    ensures var q, e := c.verb.q, GetExact(reg.snap, c.verb.q, c.verb.spec, true);
            var was, now := StatusAt(At(reg, ctx), slot), StatusAt(At(Step(env, reg, c), ctx), slot);
            && e.Some? && Names(At(reg, q.ctx), q.subject, c.verb.spec, e.value.version)
            && if ctx == q.ctx && slot == Slot(q.subject, e.value.version)
               then && was.Some? && was.value.deleted == c.verb.permanent
                    && now == if c.verb.permanent then None else Some(was.value.(deleted := true))
               else now == was
  {
    hide Good, Step, SeesOn, Freed, Cut, Allowed, ModeFor, Unheld, Purge, ReferencedLive, HasSubjects, GetExact, Names;
    var q, view := c.verb.q, ViewOf(reg, c);
    StepMoves(env, reg, c, ctx);
    var e := GetExact(view.snap, q, c.verb.spec, true).value;
    NamedRow(env, reg, c);
    DoomedAre(q, [e]);
    assert forall x | x in [e] :: x == e;
    assert Doomed(q, e.version, e.rec) in DoomAll(q, [e]);
  }

  /** The version to delete is there, live exactly if it is to be hidden. */
  lemma NamedRow(env: Env, reg: Reg, c: Command)
    requires Good(reg) && c.verb.DropVersion? && Decide(env, ViewOf(reg, c), c.verb).Success?
    ensures var q, e := c.verb.q, GetExact(reg.snap, c.verb.q, c.verb.spec, true);
            var s := At(reg, q.ctx);
            && e.Some? && Names(s, q.subject, c.verb.spec, e.value.version) && e.value.rec.deleted == c.verb.permanent
            && Slot(q.subject, e.value.version) in s.versions
            && s.versions[Slot(q.subject, e.value.version)] == e.value.rec
  {
    hide Good, SeesOn, Allowed, ModeFor, Purge, ReferencedLive, HasSubjects;
    var q, view, spec := c.verb.q, ViewOf(reg, c), c.verb.spec;
    var s, vs := At(reg, q.ctx), ListVersions(view.snap, q);
    ViewSeesEach(reg, c, q.ctx);
    ListedAreRows(view, s, q);
    GetExactIn(view.snap, q, spec, true);
    FindIn(vs, if spec.Exact? then spec.n else 0);
    if spec.Latest? {
      LatestIsNewest(vs);
    }
  }

  /** In a list by version number, the last live one is the highest. */
  lemma {:induction false} LatestIsNewest(vs: seq<Entry>)
    requires Sorted(vs)
    ensures var live := NewestFirst(LiveOnes(vs));
            && (live == [] <==> forall e | e in vs :: !Live(e))
            && (live != [] ==>
                live[0] in vs && Live(live[0]) && forall e | e in vs && Live(e) :: e.version <= live[0].version)
  {
    if vs != [] {
      LatestIsNewest(vs[1..]);
      var rest := NewestFirst(LiveOnes(vs[1..]));
      assert forall e | e in vs :: e == vs[0] || e in vs[1..];
      if Live(vs[0]) {
        var all := [vs[0]] + LiveOnes(vs[1..]);
        assert LiveOnes(vs) == all && all[1..] == LiveOnes(vs[1..]);
        assert NewestFirst(all) == rest + [vs[0]];
        assert forall e | e in vs[1..] :: vs[0].version < e.version;
      } else {
        assert LiveOnes(vs) == LiveOnes(vs[1..]);
      }
    }
  }

  /**
   A registration puts its row, removes the older soft-deleted rows of the
   subject that hold the same id, and nothing else.
   */
  lemma RegisterLeaves(env: Env, reg: Reg, c: Command, slot: Slot)
    requires Good(reg) && c.verb.Register? && StepMove(env, reg, c, c.verb.q.ctx).Recording?
    ensures var q, m := c.verb.q, StepMove(env, reg, c, c.verb.q.ctx);
            var was, now := StatusAt(At(reg, q.ctx), slot), StatusAt(At(Step(env, reg, c), q.ctx), slot);
            && m.q == q
            && now == (if slot == Slot(q.subject, m.version) then Some(Status(m.id, false))
                       else if && was.Some? && slot.subject == q.subject
                               && was.value == Status(m.id, true) && slot.version < m.version then None
                       else was)
  {
    hide Good, Step, Decide, SeesOn, Freed, Cut, Unheld, Prepare, Settle;
    var q, view := c.verb.q, ViewOf(reg, c);
    var m := StepMove(env, reg, c, q.ctx);
    StepMoves(env, reg, c, q.ctx);
    ViewSeesEach(reg, c, q.ctx);
    StaleExactly(view, At(reg, q.ctx), q, m.version, m.id, slot);
    assert slot != Slot(q.subject, m.version) ==> slot !in Gone(Replaced(view, q, m.version), q.ctx);
  }

  lemma StaleExactly(view: View, s: Slice, q: Qualified, version: nat, id: nat, slot: Slot)
    requires SeesOn(view, s, q.ctx)
    ensures slot in Gone(Stale(view, q, version, id), q.ctx) <==>
            StatusAt(s, slot) == Some(Status(id, true)) && slot.subject == q.subject && slot.version < version
  {
    hide SeesOn;
    ListedAreRows(view, s, q);
    var vs := StaleOnes(ListVersions(view.snap, q), id, version);
    DoomedAre(q, vs);
    if slot in Gone(Stale(view, q, version, id), q.ctx) {
      Reclamation.StaleHold(view, s, q, version, id, slot);
      var d :| d in Stale(view, q, version, id) && d.q.ctx == q.ctx && SlotOf(d) == slot;
      assert Entry(d.version, d.rec) in vs;
    }
    if StatusAt(s, slot) == Some(Status(id, true)) && slot.subject == q.subject && slot.version < version {
      var e := Entry(slot.version, s.versions[slot]);
      assert e in vs;
      assert Doomed(q, slot.version, e.rec) in Stale(view, q, version, id);
    }
  }

  /** Switching to IMPORT without force removes every row in scope, all of them soft-deleted before, and no other. */
  lemma ChangeModeLeaves(env: Env, reg: Reg, c: Command, ctx: string, slot: Slot)
    requires Good(reg) && c.verb.ChangeMode? && Decide(env, ViewOf(reg, c), c.verb).Success?
    ensures var was, now := StatusAt(At(reg, ctx), slot), StatusAt(At(Step(env, reg, c), ctx), slot);
            now == if Purges(reg.snap, c.verb.target, c.verb.mode, c.verb.force)
              && Covers(reg.snap, c.verb.target, Qualified(ctx, slot.subject))
                   then None else was
  {
    hide Good, Step, PlanOf, SeesOn, Freed, Cut, Allowed, Unheld, Purges, InScope;
    var view, target := ViewOf(reg, c), c.verb.target;
    StepMoves(env, reg, c, ctx);
    if Purges(view.snap, target, c.verb.mode, c.verb.force) {
      InScopeIs(view.snap, target);
      var q := Qualified(ctx, slot.subject);
      ViewSeesEach(reg, c, ctx);
      ListedAreRows(view, At(reg, ctx), q);
      if slot in At(reg, ctx).versions {
        var d := Doomed(q, slot.version, At(reg, ctx).versions[slot]);
        Reclamation.IsNamed(reg, q, Entry(slot.version, d.rec));
        assert Covers(view.snap, target, q) ==> d in InScope(view.snap, target) && SlotOf(d) == slot;
      }
      assert forall d | d in InScope(view.snap, target) && d.q.ctx == ctx && SlotOf(d) == slot :: d.q == q;
    }
  }

  // ---------------- frozen ----------------

  /** Verbs that the mode table lets through whatever the mode. */
  predicate Ungated(verb: Verb) {
    verb.ChangeMode? || verb.ClearMode? || verb.DropContext?
  }

  /** Under a registry-wide READONLY_OVERRIDE nothing else changes anything, whatever modes are set below it. */
  lemma {:induction false} OverrideFreezes(env: Env, reg: Reg, cs: seq<Command>)
    requires GlobalMode(reg.snap) == ReadonlyOverride && forall c | c in cs :: !Ungated(c.verb)
    ensures Run(env, reg, cs) == reg && Logged(env, reg, cs) == []
    decreases cs
  {
    if cs != [] {
      hide PlanOf;
      var c := cs[0];
      assert c in cs && !Ungated(c.verb);
      assert Decide(env, ViewOf(reg, c), c.verb).Failure?;
      assert forall x | x in cs[1..] :: x in cs;
      OverrideFreezes(env, reg, cs[1..]);
    }
  }
}
