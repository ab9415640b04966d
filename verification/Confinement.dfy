/**
 A verb writes only the context it targets, as long as references stay inside
 their context; and two indexes of the same rows of a context are alike there.
 */
module Confinement {
  import opened Wrappers
  import opened RegistryTypes
  import opened Store
  import opened Snapshot
  import opened Agreement
  import opened Verbs
  import opened Effects
  import opened Moves
  import opened Steps
  import opened References
  import opened Locality

  predicate WithinContext(ws: seq<Write>, ctx: string) {
    forall w | w in ws :: ContextOf(w) == Some(ctx)
  }

  // ---------------- what a plan writes ----------------

  lemma {:induction false} EdgesWithin(ctx: string, refs: seq<Reference>, id: nat)
    requires Local(ctx, refs)
    ensures WithinContext(AddEdges(ctx, refs, id), ctx) && WithinContext(CutEdges(ctx, refs, id), ctx)
    decreases refs
  {
    if refs != [] {
      assert refs[0] in refs;
      assert Local(ctx, refs[1..]);
      EdgesWithin(ctx, refs[1..], id);
    }
  }

  lemma {:induction false} PurgeWithin(view: View, doomed: seq<Doomed>, also: set<Slot>, ctx: string)
    requires LocalTo(view, ctx) && forall d | d in doomed :: d.q.ctx == ctx
    ensures WithinContext(Purge(view, doomed, also), ctx)
    decreases doomed
  {
    if doomed != [] {
      var d := doomed[0];
      assert d in doomed;
      if Frees(view, d, also) {
        EdgesWithin(ctx, Body(view, ctx, d.rec.id).value.content.refs, d.rec.id);
      }
      assert WithinContext(HardDelete(view, d, also), ctx);
      assert forall x | x in doomed[1..] :: x in doomed;
      PurgeWithin(view, doomed[1..], also, ctx);
    }
  }

  lemma {:induction false} HideWithin(q: Qualified, vs: seq<Entry>)
    ensures WithinContext(HideAll(q, vs) + DropSettings(q), q.ctx) && WithinContext(HideAll(q, vs), q.ctx)
    decreases vs
  {
    if vs != [] {
      HideWithin(q, vs[1..]);
    }
  }

  lemma RegisterWithin(env: Env, view: View, q: Qualified, d: Draft, normalize: bool, plan: Plan)
    requires LocalTo(view, q.ctx) && LocalIn(q.ctx, d.refs) && PlanRegister(env, view, q, d, normalize) == Success(plan)
    ensures WithinContext(plan.writes, q.ctx)
  {
    hide LocalTo, LocalIn, Prepare, Settle, RegisterPlan;
    var p := Prepare(env, view, q, d, normalize).value;
    var o := Settle(env, view, q, p).value;
    if o.Fresh? {
      StoresLocalRefs(env, view, q, d, normalize);
      SettledCanon(env, view, q, p);
      RegisterPlanWithin(view, q, o.canon.content, o.version, o.id);
    }
  }

  lemma DoomedAreOwn(view: View, q: Qualified, version: nat, id: nat)
    ensures forall d | d in Replaced(view, q, version) || d in Stale(view, q, version, id) :: d.q == q
  {
  }

  lemma RegisterPlanWithin(view: View, q: Qualified, c: Content, version: nat, id: nat)
    requires LocalTo(view, q.ctx) && Local(q.ctx, c.refs)
    ensures WithinContext(RegisterPlan(view, q, c, version, id).writes, q.ctx)
  {
    hide LocalTo, Local, Purge, Replaced, Stale;
    var replaced, stale := Replaced(view, q, version), Stale(view, q, version, id);
    DoomedAreOwn(view, q, version, id);
    PurgeWithin(view, replaced, {}, q.ctx);
    PurgeWithin(view, stale, Slots(stale), q.ctx);
    EdgesWithin(q.ctx, c.refs, id);
    assert WithinContext(PutWrites(view, q, c, version, id), q.ctx);
  }

  /** Every row a decided verb writes is one of the context it targets. */
  lemma DecidedWithin(env: Env, view: View, verb: Verb, ctx: string, plan: Plan)
    requires TargetOf(verb).Some? && TargetOf(verb).value.ctx == ctx && LocalTo(view, ctx) && LocalDraft(verb)
    requires Decide(env, view, verb) == Success(plan)
    ensures WithinContext(plan.writes, ctx)
  {
    hide LocalTo, LocalIn, Allowed, HasSubjects, Objection, Purge, ReferencedLive, HideAll, DropSettings, PlanRegister,
      InScope;
    match verb
    case Register(q, d, normalize) =>
      DraftIsLocal(verb);
      RegisterWithin(env, view, q, d, normalize, plan);
    case DropSubject(q, permanent) =>
      var all := ListVersions(view.snap, q);
      if permanent {
        PurgeWithin(view, DoomAll(q, all), Slots(DoomAll(q, all)), ctx);
      } else {
        HideWithin(q, LiveOnes(all));
      }
    case DropVersion(q, spec, permanent) =>
      var e := GetExact(view.snap, q, spec, true).value;
      PurgeWithin(view, [Doomed(q, e.version, e.rec)], {}, ctx);
      HideWithin(q, [e]);
    case ChangeMode(t, mode, force) =>
      InScopeIs(view.snap, t);
      PurgeWithin(view, InScope(view.snap, t), Slots(InScope(view.snap, t)), ctx);
    case _ =>
  }

  // ---------------- what it leaves alone ----------------

  lemma {:induction false} OthersUntouched(ctx: string, other: string, s: Slice, ws: seq<Write>)
    requires WithinContext(ws, ctx) && other != ctx
    ensures WriteAll(other, s, ws) == s && AllTruthful(other, s, ws)
    decreases ws
  {
    if ws != [] {
      assert ws[0] in ws;
      assert WithinContext(ws[1..], ctx);
      OthersUntouched(ctx, other, s, ws[1..]);
    }
  }

  lemma {:induction false} GlobalUntouched(ctx: string, rows: Rows, snap: Snap, ws: seq<Write>)
    requires WithinContext(ws, ctx)
    ensures WriteBatch(rows, ws).config == rows.config && WriteBatch(rows, ws).mode == rows.mode
    ensures GetConfig(ApplyAll(snap, ws), Global) == GetConfig(snap, Global)
            && GetMode(ApplyAll(snap, ws), Global) == GetMode(snap, Global)
    decreases ws
  {
    if ws != [] {
      hide WriteSlice, ApplyIn;
      assert ws[0] in ws;
      assert WithinContext(ws[1..], ctx);
      GlobalUntouched(ctx, WriteRow(rows, ws[0]), Apply(snap, ws[0]), ws[1..]);
    }
  }

  // ---------------- alike where they index the same rows ----------------

  lemma AlikeOn(a: View, b: View, s: Slice, ctx: string)
    requires SeesOn(a, s, ctx) && SeesOn(b, s, ctx) && a.now == b.now && a.guid == b.guid
    requires GetConfig(a.snap, Global) == GetConfig(b.snap, Global)
             && GetMode(a.snap, Global) == GetMode(b.snap, Global)
    ensures Alike(a, b, ctx)
  {
    forall name: string
      ensures ListVersions(a.snap, Qualified(ctx, name)) == ListVersions(b.snap, Qualified(ctx, name))
      ensures name in SubjectNames(a.snap, ctx) <==> name in SubjectNames(b.snap, ctx)
    {
      SameListOn(a, b, s, Qualified(ctx, name));
      SubjectsHaveVersions(a.snap, s, ctx, name);
      SubjectsHaveVersions(b.snap, s, ctx, name);
    }
    forall id: nat
      ensures IdUsages(a.snap, ctx, id) == IdUsages(b.snap, ctx, id) && Body(a, ctx, id) == Body(b, ctx, id)
    {
      assert UsagesOf(Ctx(a.snap, ctx), id) == Holders(s, id) == UsagesOf(Ctx(b.snap, ctx), id);
    }
    forall slot: Slot
      ensures ReferencedBy(a.snap, ctx, slot) == ReferencedBy(b.snap, ctx, slot)
    {
      assert ReferrersOf(Ctx(a.snap, ctx), slot) == Referrers(s, slot) == ReferrersOf(Ctx(b.snap, ctx), slot);
    }
    forall scope: Scope | scope.Global? || Within(scope, ctx)
      ensures GetConfig(a.snap, scope) == GetConfig(b.snap, scope) && GetMode(a.snap, scope) == GetMode(b.snap, scope)
    {
      if Within(scope, ctx) {
        assert GetConfig(a.snap, scope) == Lookup(s.config, scope) == GetConfig(b.snap, scope);
        assert GetMode(a.snap, scope) == Lookup(s.mode, scope) == GetMode(b.snap, scope);
      }
    }
  }

  lemma SameListOn(a: View, b: View, s: Slice, q: Qualified)
    requires SeesOn(a, s, q.ctx) && SeesOn(b, s, q.ctx)
    ensures ListVersions(a.snap, q) == ListVersions(b.snap, q)
  {
    var x, y := ListVersions(a.snap, q), ListVersions(b.snap, q);
    forall v: nat
      ensures Find(x, v) == Find(y, v)
    {
      RowFound(a, s, q, v);
      RowFound(b, s, q, v);
    }
    ListedAreRows(a, s, q);
    ListedAreRows(b, s, q);
    SameFindsSameList(x, y);
  }
}
