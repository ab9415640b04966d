/**
 The reference index is complete: in every reachable state with references
 kept inside their own context, a version that a held schema refers to lists
 that schema. So no delete hides or removes a version that a live schema
 refers to.
 */
module References {
  import opened Wrappers
  import opened RegistryTypes
  import opened Store
  import opened Snapshot
  import opened Agreement
  import opened Verbs
  import opened Effects
  import opened Moves
  import opened Steps
  import opened Registry
  import opened Compatibility

  predicate Local(ctx: string, refs: seq<Reference>) {
    forall r | r in refs :: RefTarget(ctx, r).ctx == ctx
  }

  predicate LocalBodies(s: Slice, ctx: string) {
    forall id | id in s.schemas :: Local(ctx, s.schemas[id].content.refs)
  }

  /** Every held schema is listed by each version it refers to. */
  predicate RefsListed(s: Slice, ctx: string)
    requires BodiesStored(s)
  {
    forall slot | slot in s.versions :: EdgesIn(ctx, ctx, ContentAt(s, slot).refs, s.versions[slot].id) <= s.refby
  }

  ghost predicate Linked(s: Slice, ctx: string) {
    BodiesStored(s) && LocalBodies(s, ctx) && RefsListed(s, ctx)
  }

  ghost predicate AllLinked(reg: Reg) {
    forall ctx: string :: Linked(At(reg, ctx), ctx)
  }

  // ---------------- edges that a purge cuts ----------------

  lemma LocalEdgesStay(ctx: string, own: string, refs: seq<Reference>, id: nat)
    requires Local(own, refs) && own != ctx
    ensures EdgesIn(ctx, own, refs, id) == {}
  {
    forall e: Edge
      ensures e !in EdgesIn(ctx, own, refs, id)
    {
      EdgeIsIn(ctx, own, refs, id, e);
    }
  }

  ghost predicate SeesLocal(view: View) {
    forall ctx: string :: LocalTo(view, ctx)
  }

  lemma {:induction false} CutOnlyFreed(view: View, doomed: seq<Doomed>, also: set<Slot>, ctx: string, e: Edge)
    requires SeesLocal(view) && e in Cut(view, doomed, also, ctx)
    ensures e.id in Freed(view, doomed, also, ctx)
    decreases doomed
  {
    var d := doomed[0];
    assert LocalTo(view, d.q.ctx);
    if e in CutBy(view, d, also, ctx) {
      var refs := Body(view, d.q.ctx, d.rec.id).value.content.refs;
      EdgeIsIn(ctx, d.q.ctx, refs, d.rec.id, e);
      if d.q.ctx != ctx {
        LocalEdgesStay(ctx, d.q.ctx, refs, d.rec.id);
      }
      assert d in doomed;
    } else {
      CutOnlyFreed(view, doomed[1..], also, ctx, e);
      var x :| x in doomed[1..] && x.q.ctx == ctx && Frees(view, x, also) && x.rec.id == e.id;
      assert x in doomed;
    }
  }

  /** The move cuts only edges of schemas it frees, and a registration elsewhere cuts none. */
  predicate CutsFreed(m: Move) {
    match m
    case Relink(cut, _) => cut == {}
    case Purging(_, freed, cut) => forall e | e in cut :: e.id in freed
    case Recording(_, freed, cut, _, _, _, _) => forall e | e in cut :: e.id in freed
    case _ => true
  }

  lemma PurgeCutsFreed(view: View, doomed: seq<Doomed>, ctx: string)
    requires SeesLocal(view)
    ensures CutsFreed(PurgeOf(view, doomed, ctx))
  {
    forall e | e in Cut(view, doomed, Slots(doomed), ctx)
      ensures e.id in Freed(view, doomed, Slots(doomed), ctx)
    {
      CutOnlyFreed(view, doomed, Slots(doomed), ctx, e);
    }
  }

  lemma RegisterCutsFreed(view: View, q: Qualified, c: Content, version: nat, id: nat, ctx: string)
    requires SeesLocal(view)
    ensures CutsFreed(RecordingOf(view, q, c, version, id))
    ensures ctx != q.ctx ==> CutsFreed(RelinkOf(view, q, c, version, id, ctx))
  {
    hide Cut, Freed, Replaced, Stale;
    var replaced, stale := Replaced(view, q, version), Stale(view, q, version, id);
    forall e | e in Cut(view, replaced, {}, q.ctx) + Cut(view, stale, Slots(stale), q.ctx)
      ensures e.id in Freed(view, replaced, {}, q.ctx) + Freed(view, stale, Slots(stale), q.ctx)
    {
      CutOnlyFreedByBoth(view, replaced, stale, q.ctx, e);
    }
    if ctx != q.ctx {
      NothingElsewhere(view, q, ctx, version, id);
      var cut := Cut(view, replaced, {}, ctx) + Cut(view, stale, Slots(stale), ctx);
      if e :| e in cut {
        CutOnlyFreedByBoth(view, replaced, stale, ctx, e);
      }
    }
  }

  lemma CutOnlyFreedByBoth(view: View, replaced: seq<Doomed>, stale: seq<Doomed>, ctx: string, e: Edge)
    requires SeesLocal(view) && e in Cut(view, replaced, {}, ctx) + Cut(view, stale, Slots(stale), ctx)
    ensures e.id in Freed(view, replaced, {}, ctx) + Freed(view, stale, Slots(stale), ctx)
  {
    hide Cut, Freed;
    if e in Cut(view, replaced, {}, ctx) {
      CutOnlyFreed(view, replaced, {}, ctx, e);
    } else {
      CutOnlyFreed(view, stale, Slots(stale), ctx, e);
    }
  }

  lemma MovesCutFreed(env: Env, view: View, verb: Verb, ctx: string)
    requires SeesLocal(view)
    ensures CutsFreed(MoveOf(env, view, verb, ctx))
  {
    hide SeesLocal, PurgeOf, RecordingOf, RelinkOf, Prepare, Settle, SlotsOf, InScope, GetExact, LiveOnes;
    match verb
    case Register(q, d, normalize) =>
      var p := Prepare(env, view, q, d, normalize);
      var o := if p.Success? then Settle(env, view, q, p.value) else Failure(InvalidSchema);
      if o.Success? && o.value.Fresh? {
        RegisterCutsFreed(view, q, o.value.canon.content, o.value.version, o.value.id, ctx);
      }
    case DropSubject(q, permanent) => PurgeCutsFreed(view, DoomAll(q, ListVersions(view.snap, q)), ctx);
    case DropVersion(q, spec, permanent) =>
      var e := GetExact(view.snap, q, spec, true);
      if e.Some? {
        PurgeCutsFreed(view, DoomAll(q, [e.value]), ctx);
      }
    case ChangeMode(t, mode, force) => PurgeCutsFreed(view, InScope(view.snap, t), ctx);
    case _ =>
  }

  // ---------------- the invariant ----------------

  lemma MoveKeepsLinked(view: View, s: Slice, s': Slice, m: Move, ctx: string)
    requires Sound(s) && Sound(s') && IsMove(view, s, s', m) && Linked(s, ctx) && CutsFreed(m)
    requires m.Recording? ==> m.q.ctx == ctx && Local(ctx, m.c.refs)
    ensures Linked(s', ctx)
  {
    hide EdgesIn, Local;
    forall slot | slot in s'.versions
      ensures EdgesIn(ctx, ctx, ContentAt(s', slot).refs, s'.versions[slot].id) <= s'.refby
    {
      if !(m.Recording? && s'.versions[slot].id == m.id) {
        KeptContent(view, s, s', m, slot);
        KeptEdges(view, s, s', m, ctx, slot);
      }
    }
  }

  lemma KeptEdges(view: View, s: Slice, s': Slice, m: Move, ctx: string, slot: Slot)
    requires Sound(s) && IsMove(view, s, s', m) && Linked(s, ctx) && CutsFreed(m)
    requires slot in s.versions && slot in s'.versions && s'.versions[slot].id == s.versions[slot].id
    requires m.Recording? ==> s'.versions[slot].id != m.id
    ensures EdgesIn(ctx, ctx, ContentAt(s, slot).refs, s.versions[slot].id) <= s'.refby
  {
    var id, refs := s.versions[slot].id, ContentAt(s, slot).refs;
    assert slot in Holders(s, id);
    forall e | e in EdgesIn(ctx, ctx, refs, id)
      ensures e in s'.refby
    {
      EdgeIsIn(ctx, ctx, refs, id, e);
    }
  }

  /** A registration whose references stay in its context. */
  predicate LocalDraft(verb: Verb) {
    verb.Register? ==> forall r | r in verb.draft.refs :: r.RefIn? ==> OrElse(r.ctx, verb.q.ctx) == verb.q.ctx
  }

  predicate LocalIn(ctx: string, refs: seq<RefIn>) {
    forall r | r in refs :: r.RefIn? ==> OrElse(r.ctx, ctx) == ctx
  }

  lemma {:induction false} ResolvedAreLocal(view: View, ctx: string, refs: seq<RefIn>, acc: Resolved)
    requires LocalIn(ctx, refs) && Local(ctx, acc.refs)
    ensures var r := ResolveRefs(view, ctx, refs, acc); r.Success? ==> Local(ctx, r.value.refs)
    decreases refs
  {
    hide CollectRef, GetExact;
    if refs != [] && ResolveRefs(view, ctx, refs, acc).Success? {
      var r := refs[0];
      assert r in refs;
      var target := Qualified(OrElse(r.ctx, ctx), r.subject);
      var found := GetExact(view.snap, target, if r.version == -1 then Latest else Exact(r.version), true);
      var closure := CollectRef(view, target, found.value.version, acc.closure, 0).value;
      var concrete := Reference(r.name, r.ctx, r.subject, found.value.version);
      ResolvedAreLocal(view, ctx, refs[1..], Resolved(acc.refs + [concrete], closure));
    }
  }

  ghost predicate LocalTo(view: View, ctx: string) {
    forall id: nat | Body(view, ctx, id).Some? :: Local(ctx, Body(view, ctx, id).value.content.refs)
  }

  /** What is stored after canonicalising local references refers locally. */
  lemma StoresLocalRefs(env: Env, view: View, q: Qualified, d: Draft, normalize: bool)
    requires LocalTo(view, q.ctx) && LocalIn(q.ctx, d.refs)
    ensures var p := Prepare(env, view, q, d, normalize);
            p.Success? && p.value.canon.Some? ==> Local(q.ctx, p.value.canon.value.content.refs)
  {
    hide ConfigInScope, ModeInScope, ResolveRefs, NewestFirst, LiveOnes, ListVersions;
    var p := Prepare(env, view, q, d, normalize);
    if p.Success? && p.value.canon.Some? {
      var refs := p.value.draft.refs;
      var live := NewestFirst(LiveOnes(ListVersions(view.snap, q)));
      if live != [] && Body(view, q.ctx, live[0].rec.id).Some? {
        SentAreLocal(q.ctx, Body(view, q.ctx, live[0].rec.id).value.content.refs);
      }
      assert LocalIn(q.ctx, refs);
      ResolvedAreLocal(view, q.ctx, refs, NOTHING);
    }
  }

  lemma SentAreLocal(ctx: string, refs: seq<Reference>)
    requires Local(ctx, refs)
    ensures LocalIn(ctx, AllAsSent(refs))
  {
    forall r | r in AllAsSent(refs)
      ensures r.RefIn? ==> OrElse(r.ctx, ctx) == ctx
    {
      var i :| 0 <= i < |refs| && AllAsSent(refs)[i] == r;
      assert RefTarget(ctx, refs[i]).ctx == ctx;
    }
  }

  lemma ViewIsLocal(reg: Reg, c: Command)
    requires Good(reg) && AllLinked(reg)
    ensures SeesLocal(ViewOf(reg, c))
  {
    hide Local;
    forall ctx: string
      ensures LocalTo(ViewOf(reg, c), ctx)
    {
      assert Linked(At(reg, ctx), ctx);
      forall id: nat
        ensures Body(ViewOf(reg, c), ctx, id) == Lookup(At(reg, ctx).schemas, id)
      {
        BodyShown(reg, c, ctx, id);
      }
    }
  }

  lemma BodyShown(reg: Reg, c: Command, ctx: string, id: nat)
    requires Good(reg)
    ensures Body(ViewOf(reg, c), ctx, id) == Lookup(At(reg, ctx).schemas, id)
  {
    ViewSeesEach(reg, c, ctx);
  }

  lemma RecordsLocalRefs(env: Env, reg: Reg, c: Command, ctx: string)
    requires Good(reg) && AllLinked(reg) && LocalDraft(c.verb)
    ensures var m := StepMove(env, reg, c, ctx); m.Recording? ==> m.q.ctx == ctx && Local(ctx, m.c.refs)
  {
    hide Represents, Settle, Prepare, PlanOf, LocalTo, Local, LocalIn, AllLinked;
    ViewIsLocal(reg, c);
    var view, verb := ViewOf(reg, c), c.verb;
    var m := StepMove(env, reg, c, ctx);
    if m.Recording? {
      var p := Prepare(env, view, verb.q, verb.draft, verb.normalize).value;
      DraftIsLocal(verb);
      StoresLocalRefs(env, view, verb.q, verb.draft, verb.normalize);
      SettledCanon(env, view, verb.q, p);
    }
  }

  lemma DraftIsLocal(verb: Verb)
    requires verb.Register? && LocalDraft(verb)
    ensures LocalIn(verb.q.ctx, verb.draft.refs)
  {
  }

  lemma SettledCanon(env: Env, view: View, q: Qualified, p: Prepared)
    ensures var o := Settle(env, view, q, p); o.Success? && o.value.Fresh? ==> p.canon == Some(o.value.canon)
  {
    hide CheckCandidates, FindEqual, HitVersion, SchemaIdOf, ConfigInScope, ModeInScope, PickId, PickVersion;
  }

  lemma StepKeepsLinked(env: Env, reg: Reg, c: Command)
    requires Good(reg) && AllLinked(reg) && LocalDraft(c.verb)
    ensures AllLinked(Step(env, reg, c))
  {
    hide Represents, IsMove, Step, Linked, Sound, SeesLocal, MoveOf, Decide;
    var reg' := Step(env, reg, c);
    StepKeepsGood(env, reg, c);
    ViewIsLocal(reg, c);
    forall ctx: string
      ensures Linked(At(reg', ctx), ctx)
    {
      var m := StepMove(env, reg, c, ctx);
      assert Sound(SliceOf(reg.rows, ctx)) && Sound(SliceOf(reg'.rows, ctx));
      StepMoves(env, reg, c, ctx);
      RecordsLocalRefs(env, reg, c, ctx);
      MovesCutFreed(env, ViewOf(reg, c), c.verb, ctx);
      assert Linked(At(reg, ctx), ctx);
      MoveKeepsLinked(ViewOf(reg, c), At(reg, ctx), At(reg', ctx), m, ctx);
    }
  }

  lemma {:induction false} RunKeepsLinked(env: Env, reg: Reg, cs: seq<Command>)
    requires Good(reg) && AllLinked(reg) && forall c | c in cs :: LocalDraft(c.verb)
    ensures AllLinked(Run(env, reg, cs))
    decreases cs
  {
    if cs != [] {
      hide Good, AllLinked, Step, LocalDraft;
      StepKeepsGood(env, reg, cs[0]);
      StepKeepsLinked(env, reg, cs[0]);
      assert forall x | x in cs[1..] :: x in cs;
      RunKeepsLinked(env, Step(env, reg, cs[0]), cs[1..]);
    }
  }

  // ---------------- what deletes spare ----------------

  /** The schema of the referrer names the target. */
  predicate Refers(s: Slice, ctx: string, referrer: Slot, target: Slot)
    requires BodiesStored(s)
  {
    && LiveSlot(s, referrer)
    && exists r | r in ContentAt(s, referrer).refs ::
      RefTarget(ctx, r) == Qualified(ctx, target.subject) && AtLeastOne(r.version) == target.version
  }

  lemma ReferrerIsSeen(view: View, s: Slice, ctx: string, referrer: Slot, target: Slot)
    requires SeesOn(view, s, ctx) && Linked(s, ctx) && Refers(s, ctx, referrer, target)
    ensures ReferencedLive(view.snap, ctx, target)
  {
    var id := s.versions[referrer].id;
    var r :| r in ContentAt(s, referrer).refs && RefTarget(ctx, r) == Qualified(ctx, target.subject)
      && AtLeastOne(r.version) == target.version;
    EdgeIsIn(ctx, ctx, ContentAt(s, referrer).refs, id, EdgeOf(r, id));
    assert EdgeOf(r, id) in s.refby;
    assert id in Referrers(s, target);
    assert ReferrersOf(Ctx(view.snap, ctx), target) == Referrers(s, target);
    assert UsagesOf(Ctx(view.snap, ctx), id) == Holders(s, id);
    assert referrer in IdUsages(view.snap, ctx, id);
    RowFound(view, s, Qualified(ctx, referrer.subject), referrer.version);
    assert LiveIn(view.snap, ctx, id);
  }

  lemma {:induction false} NoObjection(snap: Snap, q: Qualified, vs: seq<Entry>, permanent: bool, e: Entry)
    requires Objection(snap, q, vs, permanent).None? && e in vs
    ensures !ReferencedLive(snap, q.ctx, Slot(q.subject, e.version))
  {
    if e != vs[0] {
      assert e in vs[1..];
      NoObjection(snap, q, vs[1..], permanent, e);
    }
  }

  /** Slots of `ctx` that a move hides or removes. */
  function Touched(m: Move): set<Slot> {
    match m
    case Purging(gone, _, _) => gone
    case Hiding(hidden) => hidden
    case Recording(gone, _, _, _, _, _, _) => gone
    case _ => {}
  }

  lemma DeletesSpare(env: Env, view: View, verb: Verb, ctx: string, target: Slot)
    requires !verb.Register? && Decide(env, view, verb).Success? && ReferencedLive(view.snap, ctx, target)
    ensures target !in Touched(MoveOf(env, view, verb, ctx))
  {
    hide Allowed, HasSubjects, ReferencedLive, Freed, Cut, PlanRegister;
    match verb
    case DropSubject(q, permanent) =>
      var all := ListVersions(view.snap, q);
      if permanent {
        DoomedAre(q, all);
        SpareDoomed(view.snap, q, all, permanent, ctx, target);
      } else {
        SpareHidden(view.snap, q, LiveOnes(all), ctx, target);
      }
    case DropVersion(q, spec, permanent) =>
      var e := GetExact(view.snap, q, spec, true);
      if e.Some? {
        assert forall x | x in [e.value] :: x == e.value;
        DoomedAre(q, [e.value]);
      }
    case ChangeMode(t, mode, force) =>
    case _ =>
  }

  lemma SpareDoomed(snap: Snap, q: Qualified, vs: seq<Entry>, permanent: bool, ctx: string, target: Slot)
    requires Objection(snap, q, vs, permanent).None? && ReferencedLive(snap, ctx, target)
    ensures target !in Gone(DoomAll(q, vs), ctx)
  {
    hide ReferencedLive;
    DoomedAre(q, vs);
    if d :| d in DoomAll(q, vs) && d.q.ctx == ctx && SlotOf(d) == target {
      NoObjection(snap, q, vs, permanent, Entry(d.version, d.rec));
    }
  }

  lemma SpareHidden(snap: Snap, q: Qualified, vs: seq<Entry>, ctx: string, target: Slot)
    requires Objection(snap, q, vs, false).None? && ReferencedLive(snap, ctx, target)
    ensures ctx == q.ctx ==> target !in SlotsOf(q, vs)
  {
    hide ReferencedLive;
    if ctx == q.ctx && target in SlotsOf(q, vs) {
      var e :| e in vs && Slot(q.subject, e.version) == target;
      NoObjection(snap, q, vs, false, e);
    }
  }

  lemma UntouchedStays(view: View, s: Slice, s': Slice, m: Move, slot: Slot)
    requires IsMove(view, s, s', m) && slot in s.versions && slot !in Touched(m) && !m.Recording?
    ensures slot in s'.versions && s'.versions[slot] == s.versions[slot]
  {
  }

  /** No delete and no purge hides or removes a version that a live schema refers to. */
  lemma ReferencedVersionsSurvive(env: Env, cs: seq<Command>, c: Command, ctx: string, referrer: Slot, target: Slot)
    requires (forall x | x in cs :: LocalDraft(x.verb)) && !c.verb.Register?
    requires var s := At(Run(env, EMPTY_REG, cs), ctx);
             BodiesStored(s) && Refers(s, ctx, referrer, target) && target in s.versions
    ensures var reg := Run(env, EMPTY_REG, cs);
            var s, s' := At(reg, ctx), At(Step(env, reg, c), ctx);
            target in s'.versions && s'.versions[target] == s.versions[target]
  {
    hide Represents, IsMove, Step, Linked, Sound, MoveOf, Decide, Refers, ReferencedLive;
    EmptyIsGood();
    EmptyIsLinked();
    RunKeepsGood(env, EMPTY_REG, cs);
    RunKeepsLinked(env, EMPTY_REG, cs);
    var reg := Run(env, EMPTY_REG, cs);
    ViewSeesEach(reg, c, ctx);
    assert Linked(At(reg, ctx), ctx);
    ReferrerIsSeen(ViewOf(reg, c), At(reg, ctx), ctx, referrer, target);
    StepMoves(env, reg, c, ctx);
    if Decide(env, ViewOf(reg, c), c.verb).Success? {
      DeletesSpare(env, ViewOf(reg, c), c.verb, ctx, target);
    }
    OnlyRegisterRecords(env, ViewOf(reg, c), c.verb, ctx);
    UntouchedStays(ViewOf(reg, c), At(reg, ctx), At(Step(env, reg, c), ctx), StepMove(env, reg, c, ctx), target);
  }

  lemma OnlyRegisterRecords(env: Env, view: View, verb: Verb, ctx: string)
    ensures MoveOf(env, view, verb, ctx).Recording? ==> verb.Register?
  {
  }

  lemma EmptyIsLinked()
    ensures AllLinked(EMPTY_REG)
  {
  }
}
