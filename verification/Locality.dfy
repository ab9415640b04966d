/**
 What a verb decides depends only on the context it targets, the registry-wide
 settings and nothing else, as long as references stay inside their context.
 So a writer that holds a context's lock decides the same whatever other
 contexts look like in its snapshot.
 */
module Locality {
  import opened Wrappers
  import opened RegistryTypes
  import opened Snapshot
  import opened Verbs
  import opened References
  import N = Names

  /** Two views that answer every question about one context alike. */
  ghost predicate Alike(a: View, b: View, ctx: string) {
    && a.now == b.now && a.guid == b.guid
    && (forall name: string :: ListVersions(a.snap, Qualified(ctx, name)) == ListVersions(b.snap, Qualified(ctx, name)))
    && SubjectNames(a.snap, ctx) == SubjectNames(b.snap, ctx)
    && (forall id: nat :: IdUsages(a.snap, ctx, id) == IdUsages(b.snap, ctx, id))
    && (forall slot: Slot :: ReferencedBy(a.snap, ctx, slot) == ReferencedBy(b.snap, ctx, slot))
    && (forall c: Content :: IdForContent(a.snap, ctx, c) == IdForContent(b.snap, ctx, c))
    && NextId(a.snap, ctx) == NextId(b.snap, ctx)
    && (forall id: nat :: Body(a, ctx, id) == Body(b, ctx, id))
    && AlikeSettings(a.snap, b.snap, ctx)
  }

  ghost predicate AlikeSettings(a: Snap, b: Snap, ctx: string) {
    && (forall scope: Scope | scope.Global? || Within(scope, ctx) :: GetConfig(a, scope) == GetConfig(b, scope))
    && (forall scope: Scope | scope.Global? || Within(scope, ctx) :: GetMode(a, scope) == GetMode(b, scope))
  }

  // ---------------- lookups ----------------

  lemma SameLists(a: View, b: View, q: Qualified)
    requires Alike(a, b, q.ctx)
    ensures ListVersions(a.snap, q) == ListVersions(b.snap, q)
    ensures forall spec, deleted :: GetExact(a.snap, q, spec, deleted) == GetExact(b.snap, q, spec, deleted)
    ensures forall deleted :: AnyVersion(a.snap, q, deleted) == AnyVersion(b.snap, q, deleted)
  {
    assert q == Qualified(q.ctx, q.subject);
  }

  lemma SameVersion(a: View, b: View, ctx: string, slot: Slot)
    requires Alike(a, b, ctx)
    ensures GetVersion(a.snap, ctx, slot) == GetVersion(b.snap, ctx, slot)
  {
    assert ListVersions(a.snap, Qualified(ctx, slot.subject)) == ListVersions(b.snap, Qualified(ctx, slot.subject));
  }

  lemma SameSubjects(a: View, b: View, q: Qualified, deleted: bool)
    requires Alike(a, b, q.ctx)
    ensures HasSubjects(a.snap, q, deleted) == HasSubjects(b.snap, q, deleted)
  {
    SameLists(a, b, q);
    forall name: string
      ensures AnyVersion(a.snap, Qualified(q.ctx, name), deleted) == AnyVersion(b.snap, Qualified(q.ctx, name), deleted)
    {
      SameLists(a, b, Qualified(q.ctx, name));
    }
  }

  lemma SameReferenced(a: View, b: View, ctx: string, slot: Slot)
    requires Alike(a, b, ctx)
    ensures ReferencedLive(a.snap, ctx, slot) == ReferencedLive(b.snap, ctx, slot)
  {
    forall id: nat
      ensures LiveIn(a.snap, ctx, id) == LiveIn(b.snap, ctx, id)
    {
      forall u: Slot
        ensures GetVersion(a.snap, ctx, u) == GetVersion(b.snap, ctx, u)
      {
        SameVersion(a, b, ctx, u);
      }
      assert IdUsages(a.snap, ctx, id) == IdUsages(b.snap, ctx, id);
    }
    assert ReferencedBy(a.snap, ctx, slot) == ReferencedBy(b.snap, ctx, slot);
  }

  lemma SameSettings(env: Env, a: Snap, b: Snap, q: Qualified)
    requires AlikeSettings(a, b, q.ctx)
    ensures ModeInScope(a, q) == ModeInScope(b, q) && ConfigInScope(env, a, q) == ConfigInScope(env, b, q)
    ensures GlobalMode(a) == GlobalMode(b)
  {
    assert GetMode(a, Global) == GetMode(b, Global);
  }

  // ---------------- references ----------------

  lemma {:induction false} SameCollect(a: View, b: View, q: Qualified, version: nat, acc: Closure, depth: nat)
    requires Alike(a, b, q.ctx) && LocalTo(a, q.ctx)
    ensures CollectRef(a, q, version, acc, depth) == CollectRef(b, q, version, acc, depth)
    decreases if depth > 64 then 0 else 65 - depth, 1, 0
  {
    if depth <= 64 && (q, version) !in acc.visited {
      SameVersion(a, b, q.ctx, Slot(q.subject, version));
      var vr := GetVersion(a.snap, q.ctx, Slot(q.subject, version));
      if vr.Some? {
        assert Body(a, q.ctx, vr.value.id) == Body(b, q.ctx, vr.value.id);
        var rec := Body(a, q.ctx, vr.value.id);
        if rec.Some? {
          SameCollectAll(a, b, q.ctx, rec.value.content.refs, acc.(visited := acc.visited + {(q, version)}), depth + 1);
        }
      }
    }
  }

  lemma {:induction false} SameCollectAll(a: View, b: View, ctx: string, refs: seq<Reference>, acc: Closure, depth: nat)
    requires Alike(a, b, ctx) && LocalTo(a, ctx) && Local(ctx, refs)
    ensures CollectAll(a, ctx, refs, acc, depth) == CollectAll(b, ctx, refs, acc, depth)
    decreases if depth > 64 then 0 else 65 - depth, 2, |refs|
  {
    hide Alike, LocalTo;
    if refs != [] {
      assert refs[0] in refs;
      SameCollect(a, b, RefTarget(ctx, refs[0]), AtLeastOne(refs[0].version), acc, depth);
      var next := CollectRef(a, RefTarget(ctx, refs[0]), AtLeastOne(refs[0].version), acc, depth);
      if next.Success? {
        assert forall r | r in refs[1..] :: r in refs;
        SameCollectAll(a, b, ctx, refs[1..], next.value, depth);
      }
    }
  }

  lemma {:induction false} SameResolve(a: View, b: View, ctx: string, refs: seq<RefIn>, acc: Resolved)
    requires Alike(a, b, ctx) && LocalTo(a, ctx) && LocalIn(ctx, refs)
    ensures ResolveRefs(a, ctx, refs, acc) == ResolveRefs(b, ctx, refs, acc)
    decreases |refs|
  {
    hide Alike, LocalTo, CollectRef, GetExact;
    if refs != [] && refs[0].RefIn? {
      var r := refs[0];
      assert r in refs;
      var target := Qualified(OrElse(r.ctx, ctx), r.subject);
      SameLists(a, b, target);
      var found := GetExact(a.snap, target, if r.version == -1 then Latest else Exact(AtLeastOne(r.version)), true);
      if found.Some? {
        SameCollect(a, b, target, found.value.version, acc.closure, 0);
        var closure := CollectRef(a, target, found.value.version, acc.closure, 0);
        if closure.Success? {
          assert LocalIn(ctx, refs[1..]);
          SameResolve(a, b, ctx, refs[1..], Resolved(acc.refs +
                                                     [Reference(r.name, r.ctx, r.subject, found.value.version)],
                                                       closure.value));
        }
      }
    }
  }

  lemma SameReadable(a: View, b: View, ctx: string, c: Content)
    requires Alike(a, b, ctx) && LocalTo(a, ctx) && Local(ctx, c.refs)
    ensures ReadableOf(a, ctx, c) == ReadableOf(b, ctx, c)
  {
    hide Alike, LocalTo, ResolveRefs;
    SentAreLocal(ctx, c.refs);
    SameResolve(a, b, ctx, AllAsSent(c.refs), NOTHING);
  }

  // ---------------- purges ----------------

  lemma SameHardDelete(a: View, b: View, d: Doomed, also: set<Slot>)
    requires Alike(a, b, d.q.ctx)
    ensures HardDelete(a, d, also) == HardDelete(b, d, also)
  {
    assert IdUsages(a.snap, d.q.ctx, d.rec.id) == IdUsages(b.snap, d.q.ctx, d.rec.id);
    assert Body(a, d.q.ctx, d.rec.id) == Body(b, d.q.ctx, d.rec.id);
  }

  lemma {:induction false} SamePurge(a: View, b: View, doomed: seq<Doomed>, also: set<Slot>)
    requires forall d | d in doomed :: Alike(a, b, d.q.ctx)
    ensures Purge(a, doomed, also) == Purge(b, doomed, also)
    decreases doomed
  {
    if doomed != [] {
      hide Alike, HardDelete;
      assert doomed[0] in doomed;
      SameHardDelete(a, b, doomed[0], also);
      assert forall d | d in doomed[1..] :: d in doomed;
      SamePurge(a, b, doomed[1..], also);
    }
  }

  // ---------------- registration ----------------

  lemma SameCanon(env: Env, a: View, b: View, q: Qualified, d: Draft, isNew: bool, normalize: bool)
    requires Alike(a, b, q.ctx) && LocalTo(a, q.ctx) && LocalIn(q.ctx, d.refs)
    ensures Canonicalize(env, a, q, d, isNew, normalize) == Canonicalize(env, b, q, d, isNew, normalize)
  {
    hide Alike, LocalTo, ResolveRefs;
    SameResolve(a, b, q.ctx, d.refs, NOTHING);
  }

  lemma SamePopulate(env: Env, a: View, b: View, q: Qualified, d: Draft)
    requires Alike(a, b, q.ctx) && LocalTo(a, q.ctx) && LocalIn(q.ctx, d.refs)
    ensures Populate(env, a, q, d) == Populate(env, b, q, d)
    ensures Populate(env, a, q, d).Success? ==> LocalIn(q.ctx, Populate(env, a, q, d).value.refs)
  {
    SameLists(a, b, q);
    SameSettings(env, a.snap, b.snap, q);
    var live := NewestFirst(LiveOnes(ListVersions(a.snap, q)));
    if live != [] {
      var id := live[0].rec.id;
      assert Body(a, q.ctx, id) == Body(b, q.ctx, id);
      if Body(a, q.ctx, id).Some? {
        SentAreLocal(q.ctx, Body(a, q.ctx, id).value.content.refs);
      }
    }
  }

  lemma SamePrepare(env: Env, a: View, b: View, q: Qualified, d: Draft, normalize: bool)
    requires Alike(a, b, q.ctx) && LocalTo(a, q.ctx) && LocalIn(q.ctx, d.refs)
    ensures Prepare(env, a, q, d, normalize) == Prepare(env, b, q, d, normalize)
  {
    hide LocalTo, Canonicalize, Populate, ModeInScope, ConfigInScope;
    SameSettings(env, a.snap, b.snap, q);
    SamePopulate(env, a, b, q, d);
    var normalizing := normalize || ConfigInScope(env, a.snap, q).normalize == Some(true);
    var full := if ModeInScope(a.snap, q) == Mode.Import then Success(d) else Populate(env, a, q, d);
    if full.Success? {
      SameCanon(env, a, b, q, full.value, full.value.id < 0, normalizing);
    }
  }

  lemma SameHash(a: View, b: View, q: Qualified, c: Content)
    requires Alike(a, b, q.ctx)
    ensures HashLookup(a.snap, q, c) == HashLookup(b.snap, q, c)
  {
    assert IdForContent(a.snap, q.ctx, c) == IdForContent(b.snap, q.ctx, c);
    var id := IdForContent(a.snap, q.ctx, c);
    if id.Some? {
      assert IdUsages(a.snap, q.ctx, id.value) == IdUsages(b.snap, q.ctx, id.value);
      var v := HighestUse(IdUsages(a.snap, q.ctx, id.value), q.subject);
      if v.Some? {
        SameVersion(a, b, q.ctx, Slot(q.subject, v.value));
      }
    }
  }

  lemma {:induction false} SameFindEqual(env: Env, a: View, b: View, q: Qualified, c: Content, schemaId: int,
                                         live: seq<Entry>)
    requires Alike(a, b, q.ctx)
    ensures FindEqual(env, a, q, c, schemaId, live) == FindEqual(env, b, q, c, schemaId, live)
    decreases live
  {
    if live != [] {
      assert Body(a, q.ctx, live[0].rec.id) == Body(b, q.ctx, live[0].rec.id);
      hide Alike;
      SameFindEqual(env, a, b, q, c, schemaId, live[1..]);
    }
  }

  lemma {:induction false} SameCandidates(a: View, b: View, q: Qualified, cfg: Config, c: Content, live: seq<Entry>)
    requires Alike(a, b, q.ctx) && LocalTo(a, q.ctx)
    ensures Candidates(a, q, cfg, c, live) == Candidates(b, q, cfg, c, live)
    ensures Candidates(a, q, cfg, c, live).Success? ==>
              forall x | x in Candidates(a, q, cfg, c, live).value :: Local(q.ctx, x.refs)
    decreases live
  {
    if live != [] {
      assert Body(a, q.ctx, live[0].rec.id) == Body(b, q.ctx, live[0].rec.id);
      SameCandidates(a, b, q, cfg, c, live[1..]);
    }
  }

  lemma {:induction false} SameCheckAll(env: Env, a: View, b: View, ctx: string, level: Level, newer: Readable,
                                        olds: seq<Content>)
    requires Alike(a, b, ctx) && LocalTo(a, ctx) && forall x | x in olds :: Local(ctx, x.refs)
    ensures CheckAll(env, a, ctx, level, newer, olds) == CheckAll(env, b, ctx, level, newer, olds)
    decreases olds
  {
    if olds != [] {
      hide Alike, LocalTo, Local, ReadableOf, Compatible;
      assert olds[0] in olds;
      SameReadable(a, b, ctx, olds[0]);
      assert forall x | x in olds[1..] :: x in olds;
      SameCheckAll(env, a, b, ctx, level, newer, olds[1..]);
    }
  }

  lemma SameCheck(env: Env, a: View, b: View, q: Qualified, cfg: Config, c: Canon, live: seq<Entry>)
    requires Alike(a, b, q.ctx) && LocalTo(a, q.ctx)
    ensures CheckCandidates(env, a, q, cfg, c, live) == CheckCandidates(env, b, q, cfg, c, live)
  {
    hide Alike, LocalTo, Local, Candidates, CheckAll;
    SameCandidates(a, b, q, cfg, c.content, live);
    var olds := Candidates(a, q, cfg, c.content, live);
    if olds.Success? && olds.value != [] {
      var level := OrElse(cfg.level, env.defaultLevel);
      var some := if Transitive(level) then olds.value else olds.value[..1];
      assert forall x | x in some :: x in olds.value;
      SameCheckAll(env, a, b, q.ctx, level, Readable(c.content.kind, c.content.text, c.deps), some);
    }
  }

  lemma SameSettle(env: Env, a: View, b: View, q: Qualified, p: Prepared)
    requires Alike(a, b, q.ctx) && LocalTo(a, q.ctx)
    ensures Settle(env, a, q, p) == Settle(env, b, q, p)
  {
    SameLists(a, b, q);
    SameSettings(env, a.snap, b.snap, q);
    SamePick(a, b, q, p);
    hide Alike, LocalTo, CheckCandidates, FindEqual, HashLookup, ModeInScope, ConfigInScope, PickId, AsI32, NewestFirst,
      LiveOnes, ListVersions;
    var live := NewestFirst(LiveOnes(ListVersions(a.snap, q)));
    if p.canon.Some? {
      SameFindEqual(env, a, b, q, p.canon.value.content, SchemaIdOf(a.snap, q, p), live);
      SameCheck(env, a, b, q, ConfigInScope(env, a.snap, q), p.canon.value, live);
    }
  }

  lemma SamePick(a: View, b: View, q: Qualified, p: Prepared)
    requires Alike(a, b, q.ctx)
    ensures SchemaIdOf(a.snap, q, p) == SchemaIdOf(b.snap, q, p) && HitVersion(a.snap, q, p) == HitVersion(b.snap, q, p)
    ensures forall id, c :: PickId(a, q, id, c) == PickId(b, q, id, c)
  {
    hide HashLookup, AsI32;
    if p.canon.Some? {
      SameHash(a, b, q, p.canon.value.content);
    }
    forall id: int, c: Content
      ensures PickId(a, q, id, c) == PickId(b, q, id, c)
    {
      if id >= 0 {
        assert Body(a, q.ctx, id) == Body(b, q.ctx, id) && IdUsages(a.snap, q.ctx, id) == IdUsages(b.snap, q.ctx, id);
      }
    }
  }

  lemma SameRegisterPlan(a: View, b: View, q: Qualified, c: Content, version: nat, id: nat)
    requires Alike(a, b, q.ctx)
    ensures RegisterPlan(a, q, c, version, id) == RegisterPlan(b, q, c, version, id)
  {
    SameLists(a, b, q);
    assert Body(a, q.ctx, id) == Body(b, q.ctx, id);
    var replaced, stale := Replaced(a, q, version), Stale(a, q, version, id);
    assert PutWrites(a, q, c, version, id) == PutWrites(b, q, c, version, id);
    hide Alike, Purge, PutWrites;
    forall d: Doomed | d in replaced + stale
      ensures d.q == q
    {
    }
    SamePurge(a, b, replaced, {});
    SamePurge(a, b, stale, Slots(stale));
  }

  lemma SamePlanRegister(env: Env, a: View, b: View, q: Qualified, d: Draft, normalize: bool)
    requires Alike(a, b, q.ctx) && LocalTo(a, q.ctx) && LocalIn(q.ctx, d.refs)
    ensures PlanRegister(env, a, q, d, normalize) == PlanRegister(env, b, q, d, normalize)
  {
    hide Alike, LocalTo, LocalIn, Prepare, Settle, RegisterPlan;
    SamePrepare(env, a, b, q, d, normalize);
    var p := Prepare(env, a, q, d, normalize);
    if p.Success? {
      SameSettle(env, a, b, q, p.value);
      var o := Settle(env, a, q, p.value);
      if o.Success? && o.value.Fresh? {
        SameRegisterPlan(a, b, q, o.value.canon.content, o.value.version, o.value.id);
      }
    }
  }

  // ---------------- deletes and settings ----------------

  lemma {:induction false} SameObjection(a: View, b: View, q: Qualified, vs: seq<Entry>, permanent: bool)
    requires Alike(a, b, q.ctx)
    ensures Objection(a.snap, q, vs, permanent) == Objection(b.snap, q, vs, permanent)
    decreases vs
  {
    if vs != [] {
      hide Alike, ReferencedLive;
      SameReferenced(a, b, q.ctx, Slot(q.subject, vs[0].version));
      SameObjection(a, b, q, vs[1..], permanent);
    }
  }

  lemma SameDropSubject(a: View, b: View, q: Qualified, permanent: bool)
    requires Alike(a, b, q.ctx)
    ensures PlanDropSubject(a, q, permanent) == PlanDropSubject(b, q, permanent)
  {
    hide Alike, HasSubjects, Objection, Purge;
    SameLists(a, b, q);
    SameSubjects(a, b, q, true);
    SameSubjects(a, b, q, false);
    var all := ListVersions(a.snap, q);
    SameObjection(a, b, q, if permanent then all else LiveOnes(all), permanent);
    SamePurgeOf(a, b, q, all);
  }

  lemma SamePurgeOf(a: View, b: View, q: Qualified, vs: seq<Entry>)
    requires Alike(a, b, q.ctx)
    ensures forall also: set<Slot> :: Purge(a, DoomAll(q, vs), also) == Purge(b, DoomAll(q, vs), also)
  {
    hide Alike, Purge;
    forall also: set<Slot>
      ensures Purge(a, DoomAll(q, vs), also) == Purge(b, DoomAll(q, vs), also)
    {
      SamePurge(a, b, DoomAll(q, vs), also);
    }
  }

  lemma SameDropVersion(a: View, b: View, q: Qualified, spec: VersionSpec, permanent: bool)
    requires Alike(a, b, q.ctx)
    ensures PlanDropVersion(a, q, spec, permanent) == PlanDropVersion(b, q, spec, permanent)
  {
    hide Alike, HasSubjects, ReferencedLive, Purge, GetExact;
    SameLists(a, b, q);
    SameSubjects(a, b, q, true);
    var any := GetExact(a.snap, q, spec, true);
    if any.Some? {
      SameReferenced(a, b, q.ctx, Slot(q.subject, any.value.version));
      SamePurge(a, b, [Doomed(q, any.value.version, any.value.rec)], {});
    }
  }

  lemma {:induction false} SameAllOf(a: View, b: View, ctx: string, names: seq<string>)
    requires Alike(a, b, ctx)
    ensures AllOf(a.snap, ctx, names) == AllOf(b.snap, ctx, names)
            && forall d | d in AllOf(a.snap, ctx, names) :: d.q.ctx == ctx
    decreases names
  {
    if names != [] {
      SameLists(a, b, Qualified(ctx, names[0]));
      hide Alike, ListVersions;
      SameAllOf(a, b, ctx, names[1..]);
    }
  }

  lemma SameInScope(a: View, b: View, q: Qualified)
    requires Alike(a, b, q.ctx)
    ensures InScope(a.snap, Some(q)) == InScope(b.snap, Some(q))
            && forall d | d in InScope(a.snap, Some(q)) :: d.q.ctx == q.ctx
  {
    SameLists(a, b, q);
    SameAllOf(a, b, q.ctx, N.InOrder(SubjectNames(a.snap, q.ctx)));
  }

  /** A purge that both views plan alike when they see the same rows in scope. */
  lemma SamePurging(a: View, b: View, doomed: seq<Doomed>)
    requires forall d | d in doomed :: Alike(a, b, d.q.ctx)
    ensures Purge(a, doomed, Slots(doomed)) == Purge(b, doomed, Slots(doomed))
    ensures (exists d | d in doomed :: ReferencedLive(a.snap, d.q.ctx, SlotOf(d))) <==>
              (exists d | d in doomed :: ReferencedLive(b.snap, d.q.ctx, SlotOf(d)))
  {
    hide Alike, ReferencedLive, Purge;
    SamePurge(a, b, doomed, Slots(doomed));
    forall d | d in doomed
      ensures ReferencedLive(a.snap, d.q.ctx, SlotOf(d)) == ReferencedLive(b.snap, d.q.ctx, SlotOf(d))
    {
      SameReferenced(a, b, d.q.ctx, SlotOf(d));
    }
  }

  lemma SameChangeMode(a: View, b: View, q: Qualified, mode: Mode, force: bool)
    requires Alike(a, b, q.ctx)
    ensures PlanChangeMode(a, Some(q), mode, force) == PlanChangeMode(b, Some(q), mode, force)
  {
    assert ModeInScope(a.snap, q) == ModeInScope(b.snap, q) by {
      assert GetMode(a.snap, Global) == GetMode(b.snap, Global);
    }
    hide Alike, HasSubjects, ReferencedLive, Purge, InScope, ModeInScope, HasAnySubject;
    SameSubjects(a, b, q, false);
    SameInScope(a, b, q);
    SamePurging(a, b, InScope(a.snap, Some(q)));
  }

  lemma SameOthers(a: View, b: View, verb: Verb, ctx: string)
    requires Alike(a, b, ctx) && TargetOf(verb).Some? && TargetOf(verb).value.ctx == ctx
    requires verb.ClearMode? || verb.DropContext? || verb.UpdateConfig? || verb.ClearConfig?
    ensures forall env :: PlanOf(env, a, verb) == PlanOf(env, b, verb)
  {
    assert GetMode(a.snap, Global) == GetMode(b.snap, Global);
    var scope := ScopeFor(TargetOf(verb));
    assert GetMode(a.snap, scope) == GetMode(b.snap, scope) && GetConfig(a.snap, scope) == GetConfig(b.snap, scope);
  }

  /** A verb about one context is decided by what that context looks like. */
  lemma DecidedByOwnContext(env: Env, a: View, b: View, verb: Verb, ctx: string)
    requires TargetOf(verb).Some? && TargetOf(verb).value.ctx == ctx && Alike(a, b, ctx)
    requires LocalTo(a, ctx) && LocalDraft(verb)
    ensures Decide(env, a, verb) == Decide(env, b, verb)
  {
    hide LocalTo, LocalIn, ModeInScope, PlanRegister, PlanDropSubject, PlanDropVersion, PlanChangeMode, Allowed;
    SameSettings(env, a.snap, b.snap, TargetOf(verb).value);
    hide Alike;
    match verb
    case Register(q, d, normalize) =>
      DraftIsLocal(verb);
      SamePlanRegister(env, a, b, q, d, normalize);
    case DropSubject(q, permanent) => SameDropSubject(a, b, q, permanent);
    case DropVersion(q, spec, permanent) => SameDropVersion(a, b, q, spec, permanent);
    case ChangeMode(t, mode, force) => SameChangeMode(a, b, t.value, mode, force);
    case _ => SameOthers(a, b, verb, ctx);
  }

  // ---------------- verbs about the registry as a whole ----------------

  lemma {:induction false} SameAllIn(a: View, b: View, ctxs: seq<string>)
    requires forall ctx: string :: Alike(a, b, ctx)
    ensures AllIn(a.snap, ctxs) == AllIn(b.snap, ctxs)
    decreases ctxs
  {
    if ctxs != [] {
      assert Alike(a, b, ctxs[0]);
      SameAllOf(a, b, ctxs[0], N.InOrder(SubjectNames(a.snap, ctxs[0])));
      SameAllIn(a, b, ctxs[1..]);
    }
  }

  lemma SameAnySubject(a: View, b: View, deleted: bool)
    requires Contexts(a.snap) == Contexts(b.snap) && forall ctx: string :: Alike(a, b, ctx)
    ensures HasAnySubject(a.snap, deleted) == HasAnySubject(b.snap, deleted)
  {
    forall ctx: string
      ensures (exists name | name in SubjectNames(a.snap, ctx) ::
               AnyVersion(a.snap, Qualified(ctx, name), deleted)) <==>
              (exists name | name in SubjectNames(b.snap, ctx) :: AnyVersion(b.snap, Qualified(ctx, name), deleted))
    {
      assert Alike(a, b, ctx);
      forall name: string
        ensures AnyVersion(a.snap, Qualified(ctx, name), deleted) == AnyVersion(b.snap, Qualified(ctx, name), deleted)
      {
        SameLists(a, b, Qualified(ctx, name));
      }
    }
  }

  lemma SameEverythingInScope(a: View, b: View)
    requires Contexts(a.snap) == Contexts(b.snap) && forall ctx: string :: Alike(a, b, ctx)
    ensures var doomed := InScope(a.snap, None);
            && doomed == InScope(b.snap, None)
            && Purge(a, doomed, Slots(doomed)) == Purge(b, doomed, Slots(doomed))
            && ((exists d | d in doomed :: ReferencedLive(a.snap, d.q.ctx, SlotOf(d))) <==>
                (exists d | d in doomed :: ReferencedLive(b.snap, d.q.ctx, SlotOf(d))))
  {
    hide Alike, ReferencedLive, Purge, AllIn;
    SameAllIn(a, b, N.InOrder(Contexts(a.snap)));
    SamePurging(a, b, InScope(a.snap, None));
  }

  lemma SameGlobalMode(a: View, b: View, mode: Mode, force: bool)
    requires Contexts(a.snap) == Contexts(b.snap) && forall ctx: string :: Alike(a, b, ctx)
    ensures PlanChangeMode(a, None, mode, force) == PlanChangeMode(b, None, mode, force)
  {
    assert GlobalMode(a.snap) == GlobalMode(b.snap) by {
      assert Alike(a, b, "");
      assert GetMode(a.snap, Global) == GetMode(b.snap, Global);
    }
    hide Alike, HasSubjects, ReferencedLive, Purge, InScope, HasAnySubject, GlobalMode, Slots;
    SameAnySubject(a, b, false);
    SameEverythingInScope(a, b);
  }

  lemma DecidedByEverything(env: Env, a: View, b: View, verb: Verb)
    requires TargetOf(verb).None? && Contexts(a.snap) == Contexts(b.snap) && forall ctx: string :: Alike(a, b, ctx)
    ensures Decide(env, a, verb) == Decide(env, b, verb)
  {
    assert Alike(a, b, "");
    assert GetMode(a.snap, Global) == GetMode(b.snap, Global) && GetConfig(a.snap, Global) == GetConfig(b.snap, Global);
    hide Alike, PlanChangeMode, Allowed;
    match verb
    case ChangeMode(t, mode, force) => SameGlobalMode(a, b, mode, force);
    case _ =>
  }
}
