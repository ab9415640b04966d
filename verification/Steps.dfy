/** Every decided verb is a move on every context, and its deletes are truthful. */
module Steps {
  import opened Wrappers
  import opened RegistryTypes
  import opened Store
  import opened Snapshot
  import opened Agreement
  import opened Verbs
  import opened Effects
  import opened Moves
  import N = Names

  // ---------------- purging elsewhere ----------------

  /** The move of a purge, whichever contexts its rows are in. */
  function PurgeOf(view: View, doomed: seq<Doomed>, ctx: string): Move {
    var also := Slots(doomed);
    Purging(Gone(doomed, ctx), Freed(view, doomed, also, ctx), Cut(view, doomed, also, ctx))
  }

  lemma PurgeElsewhere(view: View, s: Slice, ctx: string, doomed: seq<Doomed>, more: seq<Write>)
    requires (forall d | d in doomed :: d.q.ctx != ctx) && forall w | w in more :: Settings(w)
    ensures var ws := Purge(view, doomed, Slots(doomed)) + more;
            AllTruthful(ctx, s, ws) && IsMove(view, s, WriteAll(ctx, s, ws), PurgeOf(view, doomed, ctx))
  {
    hide WriteSlice;
    var also := Slots(doomed);
    PurgeEffect(view, doomed, also, ctx, s);
    assert Gone(doomed, ctx) == {} && Freed(view, doomed, also, ctx) == {};
    var s1 := WriteAll(ctx, s, Purge(view, doomed, also));
    assert s1 == Without(s, {}, {}, Cut(view, doomed, also, ctx));
    WriteAllConcat(ctx, s, Purge(view, doomed, also), more);
    TruthfulConcat(ctx, s, Purge(view, doomed, also), more);
    SettingsEffect(ctx, s1, more);
  }

  // ---------------- registering ----------------

  lemma ReplacedAndStale(view: View, s: Slice, q: Qualified, version: nat, id: nat)
    requires SeesOn(view, s, q.ctx)
    ensures var replaced, stale := Replaced(view, q, version), Stale(view, q, version, id);
            && Rooted(replaced, s, q.ctx) && Rooted(stale, s, q.ctx)
            && (forall d | d in replaced :: d.q == q) && (forall d | d in stale :: d.q == q)
            && (Slot(q.subject, version) in s.versions ==> Slot(q.subject, version) in Gone(replaced, q.ctx))
            && Slots(stale) == Gone(stale, q.ctx)
  {
    ListedAreRows(view, s, q);
    RowFound(view, s, q, version);
    var replaced, stale := Replaced(view, q, version), Stale(view, q, version, id);
    forall d | d in stale
      ensures d.q == q && SlotOf(d) in s.versions && s.versions[SlotOf(d)] == d.rec
    {
      var i :| 0 <= i < |stale| && stale[i] == d;
      var e := StaleOnes(ListVersions(view.snap, q), id, version)[i];
      assert e in StaleOnes(ListVersions(view.snap, q), id, version);
    }
    if replaced != [] {
      assert replaced[0] in replaced;
    }
  }

  lemma UnheldUnion(s: Slice, a: set<Slot>, ids: set<nat>, b: set<Slot>, ids': set<nat>)
    requires Unheld(s, a, ids) && Unheld(s, b, ids')
    ensures Unheld(s, a + b, ids + ids')
  {
  }

  function RecordingOf(view: View, q: Qualified, c: Content, version: nat, id: nat): Move {
    var replaced, stale := Replaced(view, q, version), Stale(view, q, version, id);
    var also := Slots(stale);
    Recording(Gone(replaced, q.ctx) + Gone(stale, q.ctx),
              Freed(view, replaced, {}, q.ctx) + Freed(view, stale, also, q.ctx),
              Cut(view, replaced, {}, q.ctx) + Cut(view, stale, also, q.ctx),
              q, c, version, id)
  }

  lemma RegisterHere(view: View, s: Slice, q: Qualified, c: Content, version: nat, id: nat)
    requires SeesOn(view, s, q.ctx) && GoodId(s, c, id) && version >= 1
    ensures var ws := RegisterPlan(view, q, c, version, id).writes;
            AllTruthful(q.ctx, s, ws) && IsMove(view, s, WriteAll(q.ctx, s, ws), RecordingOf(view, q, c, version, id))
  {
    hide SeesOn, Unheld, Recorded, WriteSlice, PutWrites, Stale, Replaced, Rooted, Named, Freed, Gone, Cut;
    var ctx := q.ctx;
    var replaced, stale := Replaced(view, q, version), Stale(view, q, version, id);
    var also := Slots(stale);
    ReplacedAndStale(view, s, q, version, id);
    RootedIsNamed(replaced, s, ctx);
    RootedIsNamed(stale, s, ctx);
    FreedAreUnheld(view, s, ctx, replaced, {});
    FreedAreUnheld(view, s, ctx, stale, also);
    UnheldUnion(s, Gone(replaced, ctx), Freed(view, replaced, {}, ctx), Gone(stale, ctx),
                Freed(view, stale, also, ctx));
    PurgeEffect(view, replaced, {}, ctx, s);
    var s1 := WriteAll(ctx, s, Purge(view, replaced, {}));
    NamedShrinks(stale, s, ctx, Gone(replaced, ctx), Freed(view, replaced, {}, ctx), Cut(view, replaced, {}, ctx));
    PurgeEffect(view, stale, also, ctx, s1);
    var s2 := WriteAll(ctx, s1, Purge(view, stale, also));
    WithoutTwice(s, Gone(replaced, ctx), Freed(view, replaced, {}, ctx), Cut(view, replaced, {}, ctx),
                 Gone(stale, ctx), Freed(view, stale, also, ctx), Cut(view, stale, also, ctx));
    PutEffect(view, q, c, version, id, ctx, s2);
    ThreeParts(ctx, s, Purge(view, replaced, {}), Purge(view, stale, also), PutWrites(view, q, c, version, id));
    CounterSeen(view, s, ctx);
  }

  lemma CounterSeen(view: View, s: Slice, ctx: string)
    requires SeesOn(view, s, ctx)
    ensures NextId(view.snap, ctx) == NextIdOf(s)
  {
  }

  lemma NamedShrinks(doomed: seq<Doomed>, s: Slice, ctx: string, slots: set<Slot>, ids: set<nat>, edges: set<Edge>)
    requires Named(doomed, s, ctx)
    ensures Named(doomed, Without(s, slots, ids, edges), ctx)
  {
  }

  lemma ThreeParts(ctx: string, s: Slice, a: seq<Write>, b: seq<Write>, c: seq<Write>)
    ensures WriteAll(ctx, s, a + b + c) == WriteAll(ctx, WriteAll(ctx, WriteAll(ctx, s, a), b), c)
    ensures AllTruthful(ctx, s, a + b + c) <==>
            && AllTruthful(ctx, s, a) && AllTruthful(ctx, WriteAll(ctx, s, a), b)
            && AllTruthful(ctx, WriteAll(ctx, WriteAll(ctx, s, a), b), c)
  {
    WriteAllConcat(ctx, s, a, b);
    WriteAllConcat(ctx, s, a + b, c);
    TruthfulConcat(ctx, s, a, b);
    TruthfulConcat(ctx, s, a + b, c);
  }

  function RelinkOf(view: View, q: Qualified, c: Content, version: nat, id: nat, ctx: string): Move {
    var replaced, stale := Replaced(view, q, version), Stale(view, q, version, id);
    Relink(Cut(view, replaced, {}, ctx) + Cut(view, stale, Slots(stale), ctx), EdgesIn(ctx, q.ctx, c.refs, id))
  }

  lemma NothingElsewhere(view: View, q: Qualified, ctx: string, version: nat, id: nat)
    requires ctx != q.ctx
    ensures var replaced, stale := Replaced(view, q, version), Stale(view, q, version, id);
            && (forall d | d in replaced + stale :: d.q.ctx != ctx)
            && Gone(replaced, ctx) == {} == Gone(stale, ctx)
            && Freed(view, replaced, {}, ctx) == {} == Freed(view, stale, Slots(stale), ctx)
  {
    var replaced, stale := Replaced(view, q, version), Stale(view, q, version, id);
    assert forall d | d in replaced :: d.q == q;
    assert forall d | d in stale :: d.q == q;
  }

  lemma RegisterElsewhere(view: View, s: Slice, ctx: string, q: Qualified, c: Content, version: nat, id: nat)
    requires ctx != q.ctx
    ensures var ws := RegisterPlan(view, q, c, version, id).writes;
            AllTruthful(ctx, s, ws) && IsMove(view, s, WriteAll(ctx, s, ws), RelinkOf(view, q, c, version, id, ctx))
  {
    hide WriteSlice, WriteAll, AllTruthful, PutWrites, Cut, EdgesIn, Purge, Replaced, Stale, Gone, Freed, Recorded,
      Unheld;
    var replaced, stale := Replaced(view, q, version), Stale(view, q, version, id);
    var also := Slots(stale);
    NothingElsewhere(view, q, ctx, version, id);
    PurgeEffect(view, replaced, {}, ctx, s);
    var s1 := WriteAll(ctx, s, Purge(view, replaced, {}));
    PurgeEffect(view, stale, also, ctx, s1);
    var s2 := WriteAll(ctx, s1, Purge(view, stale, also));
    WithoutTwice(s, {}, {}, Cut(view, replaced, {}, ctx), {}, {}, Cut(view, stale, also, ctx));
    PutEffect(view, q, c, version, id, ctx, s2);
    ThreeParts(ctx, s, Purge(view, replaced, {}), Purge(view, stale, also), PutWrites(view, q, c, version, id));
    assert s.versions - ({} + {}) == s.versions && s.schemas - ({} + {}) == s.schemas;
  }

  /** What a settled registration knows about its id and version. */
  lemma SettledFacts(env: Env, view: View, s: Slice, q: Qualified, p: Prepared, o: Outcome)
    requires SeesOn(view, s, q.ctx) && Sound(s)
    requires Settle(env, view, q, p) == Success(o) && o.Fresh?
    ensures p.canon == Some(o.canon) && o.version >= 1 && GoodId(s, o.canon.content, o.id)
    ensures ModeInScope(view.snap, q) != Mode.Import ==> o.version == NewVersion(ListVersions(view.snap, q))
    ensures var schemaId := SchemaIdOf(view.snap, q, p);
            o.id == if schemaId < 0 then NextIdOf(s) else schemaId
  {
    hide FindEqual, CheckCandidates, ConfigInScope, ModeInScope, HashLookup;
    CounterSeen(view, s, q.ctx);
    var schemaId := SchemaIdOf(view.snap, q, p);
    assert UsagesOf(Ctx(view.snap, q.ctx), o.id) == Holders(s, o.id);
    assert Body(view, q.ctx, o.id) == Lookup(s.schemas, o.id);
    if Held(s, o.id) {
      var slot :| slot in s.versions && s.versions[slot].id == o.id;
      assert slot in Holders(s, o.id);
    }
  }

  // ---------------- soft deletes ----------------

  lemma {:induction false} LiveOnesOf(vs: seq<Entry>)
    ensures forall e :: e in LiveOnes(vs) <==> e in vs && Live(e)
    ensures Sorted(vs) ==> Sorted(LiveOnes(vs))
  {
    if vs != [] {
      LiveOnesOf(vs[1..]);
      assert forall e :: e in vs <==> e == vs[0] || e in vs[1..];
      if Sorted(vs) {
        assert forall e | e in vs[1..] :: vs[0].version < e.version;
        assert forall i | 0 <= i < |LiveOnes(vs[1..])| :: LiveOnes(vs[1..])[i] in LiveOnes(vs[1..]);
      }
    }
  }

  lemma {:induction false} NewestFirstOf(vs: seq<Entry>)
    ensures forall e :: e in NewestFirst(vs) <==> e in vs
    ensures NewestFirst(vs) == [] <==> vs == []
  {
    if vs != [] {
      NewestFirstOf(vs[1..]);
      assert forall e :: e in vs <==> e == vs[0] || e in vs[1..];
    }
  }

  function SlotsOf(q: Qualified, vs: seq<Entry>): set<Slot> {
    set e | e in vs :: Slot(q.subject, e.version)
  }

  lemma HideMoves(view: View, s: Slice, ctx: string, q: Qualified, vs: seq<Entry>, more: seq<Write>)
    requires ctx == q.ctx ==> SeesOn(view, s, ctx)
    requires Sorted(vs) && (forall e | e in vs :: e in ListVersions(view.snap, q))
             && forall w | w in more :: Settings(w)
    ensures var ws := HideAll(q, vs) + more;
            && AllTruthful(ctx, s, ws)
            && IsMove(view, s, WriteAll(ctx, s, ws), Hiding(if ctx == q.ctx then SlotsOf(q, vs) else {}))
  {
    hide WriteSlice, SeesOn;
    HideEffect(ctx, s, q, vs);
    var s1 := WriteAll(ctx, s, HideAll(q, vs));
    WriteAllConcat(ctx, s, HideAll(q, vs), more);
    TruthfulConcat(ctx, s, HideAll(q, vs), more);
    SettingsEffect(ctx, s1, more);
    if ctx == q.ctx && vs != [] {
      ListedAreRows(view, s, q);
      HiddenVersions(s, q, vs, s1.versions);
      assert Slot(q.subject, vs[0].version) in SlotsOf(q, vs);
    }
  }

  lemma HiddenVersions(s: Slice, q: Qualified, vs: seq<Entry>, after: map<Slot, VersionRecord>)
    requires Sorted(vs) && after == Hidden(s.versions, q, vs)
    requires forall e | e in vs :: Slot(q.subject,
                                        e.version) in s.versions && s.versions[Slot(q.subject, e.version)] == e.rec
    ensures after.Keys == s.versions.Keys && SlotsOf(q, vs) <= s.versions.Keys
    ensures forall slot | slot in s.versions ::
              after[slot] == if slot in SlotsOf(q, vs) then s.versions[slot].(deleted := true) else s.versions[slot]
  {
    forall slot: Slot
      ensures Lookup(after, slot) ==
              if slot in SlotsOf(q, vs) then Some(s.versions[slot].(deleted := true)) else Lookup(s.versions, slot)
    {
      HiddenAt(s.versions, q, vs, slot);
      FindIn(vs, slot.version);
      assert slot in SlotsOf(q, vs) <==> slot.subject == q.subject && exists e :: e in vs && e.version == slot.version;
    }
    assert forall slot :: slot in after <==> Lookup(after, slot).Some?;
  }

  // ---------------- the purge of a mode change ----------------

  lemma {:induction false} AllOfIn(snap: Snap, ctx: string, names: seq<string>)
    ensures forall d :: d in AllOf(snap, ctx, names) <==>
              d.q.ctx == ctx && d.q.subject in names && Entry(d.version, d.rec) in ListVersions(snap, d.q)
    decreases names
  {
    if names != [] {
      AllOfIn(snap, ctx, names[1..]);
      var q := Qualified(ctx, names[0]);
      DoomedAre(q, ListVersions(snap, q));
      assert forall n :: n in names <==> n == names[0] || n in names[1..];
    }
  }

  lemma DoomedAre(q: Qualified, vs: seq<Entry>)
    ensures forall d :: d in DoomAll(q, vs) <==> d.q == q && Entry(d.version, d.rec) in vs
  {
    var ds := DoomAll(q, vs);
    forall d
      ensures d in ds <==> d.q == q && Entry(d.version, d.rec) in vs
    {
      if d in ds {
        var i :| 0 <= i < |ds| && ds[i] == d;
        assert vs[i] == Entry(d.version, d.rec);
      }
      if d.q == q && Entry(d.version, d.rec) in vs {
        var i :| 0 <= i < |vs| && vs[i] == Entry(d.version, d.rec);
        assert ds[i] == d;
      }
    }
  }

  lemma {:induction false} AllInIn(snap: Snap, ctxs: seq<string>)
    ensures forall d: Doomed :: d in AllIn(snap, ctxs) <==>
              d.q.ctx in ctxs && d.q.subject in SubjectNames(snap, d.q.ctx)
                && Entry(d.version, d.rec) in ListVersions(snap, d.q)
    decreases ctxs
  {
    if ctxs != [] {
      AllInIn(snap, ctxs[1..]);
      AllOfIn(snap, ctxs[0], N.InOrder(SubjectNames(snap, ctxs[0])));
      assert forall n :: n in ctxs <==> n == ctxs[0] || n in ctxs[1..];
    }
  }

  /** Which rows a mode change over `target` dooms. */
  predicate Covers(snap: Snap, target: Option<Qualified>, q: Qualified) {
    if target.None? then q.ctx in Contexts(snap)
    else if ContextOnly(target.value) then q.ctx == target.value.ctx
    else q == target.value
  }

  lemma InScopeIs(snap: Snap, target: Option<Qualified>)
    ensures forall d | d in InScope(snap, target) ::
              Covers(snap, target, d.q) && Entry(d.version, d.rec) in ListVersions(snap, d.q)
    ensures forall d: Doomed | Covers(snap, target, d.q) && Entry(d.version, d.rec) in ListVersions(snap, d.q)
                       && d.q.subject in SubjectNames(snap, d.q.ctx) :: d in InScope(snap, target)
  {
    if target.None? {
      AllInIn(snap, N.InOrder(Contexts(snap)));
    } else if ContextOnly(target.value) {
      AllOfIn(snap, target.value.ctx, N.InOrder(SubjectNames(snap, target.value.ctx)));
    } else {
      DoomedAre(target.value, ListVersions(snap, target.value));
    }
  }

  /** Within a context the purge reaches, it takes every version it also excuses. */
  lemma PurgeCovers(view: View, s: Slice, ctx: string, target: Option<Qualified>)
    requires SeesOn(view, s, ctx) && Sound(s)
    requires target.Some? ==> target.value.ctx == ctx
    ensures var doomed := InScope(view.snap, target);
            && Rooted(doomed, s, ctx)
            && forall slot | slot in Slots(doomed) && slot in s.versions :: slot in Gone(doomed, ctx)
  {
    var doomed := InScope(view.snap, target);
    InScopeIs(view.snap, target);
    forall d | d in doomed && d.q.ctx == ctx
      ensures SlotOf(d) in s.versions && s.versions[SlotOf(d)] == d.rec
    {
      ListedAreRows(view, s, d.q);
    }
    forall slot | slot in Slots(doomed) && slot in s.versions
      ensures slot in Gone(doomed, ctx)
    {
      if target.None? {
        var d := Doomed(Qualified(ctx, slot.subject), slot.version, s.versions[slot]);
        assert s.known && ctx in Contexts(view.snap);
        ListedAreRows(view, s, d.q);
        SubjectsHaveVersions(view.snap, s, ctx, slot.subject);
        assert d in doomed && SlotOf(d) == slot;
      } else {
        var d :| d in doomed && SlotOf(d) == slot;
        assert d.q.ctx == ctx;
      }
    }
  }

  // ---------------- every verb ----------------

  function RegisterMove(env: Env, view: View, q: Qualified, d: Draft, normalize: bool, ctx: string): Move {
    var p := Prepare(env, view, q, d, normalize);
    var o := if p.Success? then Settle(env, view, q, p.value) else Failure(InvalidSchema);
    if o.Failure? || o.value.Already? then Stay
    else if ctx == q.ctx then RecordingOf(view, q, o.value.canon.content, o.value.version, o.value.id)
    else RelinkOf(view, q, o.value.canon.content, o.value.version, o.value.id, ctx)
  }

  /** What a decided verb does to a context. */
  function MoveOf(env: Env, view: View, verb: Verb, ctx: string): Move {
    match verb
    case Register(q, d, normalize) => RegisterMove(env, view, q, d, normalize, ctx)
    case DropSubject(q, permanent) =>
      var all := ListVersions(view.snap, q);
      if permanent then PurgeOf(view, DoomAll(q, all), ctx)
      else Hiding(if ctx == q.ctx then SlotsOf(q, LiveOnes(all)) else {})
    case DropVersion(q, spec, permanent) =>
      var e := GetExact(view.snap, q, spec, true);
      if e.None? then Stay
      else if permanent then PurgeOf(view, DoomAll(q, [e.value]), ctx)
      else Hiding(if ctx == q.ctx then SlotsOf(q, [e.value]) else {})
    case ChangeMode(t, mode, force) =>
      if Purges(view.snap, t, mode, force) then PurgeOf(view, InScope(view.snap, t), ctx) else Stay
    case _ => Stay
  }

  predicate Purges(snap: Snap, target: Option<Qualified>, mode: Mode, force: bool) {
    mode == Mode.Import && ModeFor(snap, target) != Mode.Import && !force
  }

  lemma DropSubjectMoves(env: Env, view: View, rows: Rows, q: Qualified, permanent: bool, plan: Plan, ctx: string)
    requires Sees(view, rows) && PlanDropSubject(view, q, permanent) == Success(plan)
    ensures var s := SliceOf(rows, ctx);
            AllTruthful(ctx, s, plan.writes) && IsMove(view, s, WriteAll(ctx, s, plan.writes),
                                                       MoveOf(env, view, DropSubject(q, permanent), ctx))
  {
    hide WriteSlice, WriteAll, Sees, SeesOn, IsMove, AllTruthful;
    var s, home := SliceOf(rows, ctx), SliceOf(rows, q.ctx);
    SeesEach(view, rows, q.ctx);
    var all := ListVersions(view.snap, q);
    ListedAreRows(view, home, q);
    if permanent {
      DoomMoves(view, s, ctx, q, all);
      assert plan.writes == Purge(view, DoomAll(q, all), Slots(DoomAll(q, all))) + [];
    } else {
      LiveOnesOf(all);
      HideMoves(view, s, ctx, q, LiveOnes(all), DropSettings(q));
    }
  }

  /** Removing versions of one subject for good, all at once. */
  lemma DoomMoves(view: View, s: Slice, ctx: string, q: Qualified, vs: seq<Entry>)
    requires ctx == q.ctx ==> SeesOn(view, s, ctx) && forall e | e in vs :: e in ListVersions(view.snap, q)
    ensures var doomed := DoomAll(q, vs);
            var ws := Purge(view, doomed, Slots(doomed)) + [];
            AllTruthful(ctx, s, ws) && IsMove(view, s, WriteAll(ctx, s, ws), PurgeOf(view, doomed, ctx))
  {
    hide WriteSlice, WriteAll, IsMove;
    var doomed := DoomAll(q, vs);
    DoomedAre(q, vs);
    if ctx == q.ctx {
      ListedAreRows(view, s, q);
      assert Rooted(doomed, s, ctx);
      assert Slots(doomed) == Gone(doomed, ctx);
      PurgeMoves(view, s, ctx, doomed, Slots(doomed), []);
    } else {
      PurgeElsewhere(view, s, ctx, doomed, []);
    }
  }

  lemma GetExactIn(snap: Snap, q: Qualified, spec: VersionSpec, deleted: bool)
    requires Sorted(ListVersions(snap, q))
    ensures var e := GetExact(snap, q, spec, deleted); e.Some? ==> e.value in ListVersions(snap, q)
  {
    var vs := ListVersions(snap, q);
    LiveOnesOf(vs);
    NewestFirstOf(LiveOnes(vs));
    if spec.Exact? {
      FindIn(vs, spec.n);
      if Find(vs, spec.n).Some? {
        var i :| 0 <= i < |vs| && vs[i].version == spec.n;
        assert vs[i] == Entry(spec.n, Find(vs, spec.n).value);
      }
    } else if NewestFirst(LiveOnes(vs)) != [] {
      assert NewestFirst(LiveOnes(vs))[0] in NewestFirst(LiveOnes(vs));
    }
  }

  /** Excusing the one doomed version or nothing is the same. */
  lemma OneDoomed(view: View, d: Doomed)
    ensures Purge(view, [d], {}) == Purge(view, [d], Slots([d]))
  {
    assert Slots([d]) == {SlotOf(d)};
    assert StillUsed(view, d, {}) == StillUsed(view, d, {SlotOf(d)});
    assert HardDelete(view, d, {}) == HardDelete(view, d, {SlotOf(d)});
    assert [d][1..] == [];
  }

  lemma DropVersionMoves(env: Env, view: View, rows: Rows, q: Qualified, spec: VersionSpec, permanent: bool, plan: Plan,
                         ctx: string)
    requires Sees(view, rows) && PlanDropVersion(view, q, spec, permanent) == Success(plan)
    ensures var s := SliceOf(rows, ctx);
            && AllTruthful(ctx, s, plan.writes)
            && IsMove(view, s, WriteAll(ctx, s, plan.writes), MoveOf(env, view, DropVersion(q, spec, permanent), ctx))
  {
    hide WriteSlice, WriteAll, Sees, SeesOn, IsMove, Purge, AllTruthful;
    var s, home := SliceOf(rows, ctx), SliceOf(rows, q.ctx);
    SeesEach(view, rows, q.ctx);
    ListedAreRows(view, home, q);
    GetExactIn(view.snap, q, spec, true);
    var e := GetExact(view.snap, q, spec, true).value;
    assert forall x | x in [e] :: x == e;
    if permanent {
      DoomMoves(view, s, ctx, q, [e]);
      assert DoomAll(q, [e]) == [Doomed(q, e.version, e.rec)];
      OneDoomed(view, Doomed(q, e.version, e.rec));
      assert plan.writes == Purge(view, DoomAll(q, [e]), Slots(DoomAll(q, [e]))) + [];
    } else {
      var others := exists x | x in ListVersions(view.snap, q) :: x.version != e.version && Live(x);
      HideMoves(view, s, ctx, q, [e], if others then [] else DropSettings(q));
    }
  }

  lemma ChangeModeMoves(env: Env, view: View, rows: Rows, target: Option<Qualified>, mode: Mode, force: bool,
                        plan: Plan, ctx: string)
    requires Sees(view, rows) && AllSound(rows) && PlanChangeMode(view, target, mode, force) == Success(plan)
    ensures var s := SliceOf(rows, ctx);
            && AllTruthful(ctx, s, plan.writes)
            && IsMove(view, s, WriteAll(ctx, s, plan.writes), MoveOf(env, view, ChangeMode(target, mode, force), ctx))
  {
    hide WriteSlice, WriteAll, Sees, Purge, AllTruthful, PurgeOf, InScope, IsMove, AllSound, HasSubjects, HasAnySubject,
      ReferencedLive;
    var s := SliceOf(rows, ctx);
    if Purges(view.snap, target, mode, force) {
      ScopePurgeMoves(view, rows, target, [PutMode(ScopeFor(target), mode)], ctx);
    } else {
      NothingMoves(view, s, ctx, [PutMode(ScopeFor(target), mode)]);
    }
  }

  /** A purge of everything in scope, in every context. */
  lemma ScopePurgeMoves(view: View, rows: Rows, target: Option<Qualified>, put: seq<Write>, ctx: string)
    requires Sees(view, rows) && AllSound(rows) && forall w | w in put :: Settings(w)
    ensures var s, doomed := SliceOf(rows, ctx), InScope(view.snap, target);
            var ws := Purge(view, doomed, Slots(doomed)) + put;
            AllTruthful(ctx, s, ws) && IsMove(view, s, WriteAll(ctx, s, ws), PurgeOf(view, doomed, ctx))
  {
    hide WriteSlice, WriteAll, Sees, SeesOn, Purge, AllTruthful, Sound, PurgeOf, IsMove, InScope, Rooted, Gone;
    var s, doomed := SliceOf(rows, ctx), InScope(view.snap, target);
    SeesEach(view, rows, ctx);
    if target.Some? && target.value.ctx != ctx {
      InScopeIs(view.snap, target);
      PurgeElsewhere(view, s, ctx, doomed, put);
    } else {
      PurgeCovers(view, s, ctx, target);
      PurgeMoves(view, s, ctx, doomed, Slots(doomed), put);
      PurgeOfIs(view, doomed, ctx);
    }
  }

  lemma PurgeOfIs(view: View, doomed: seq<Doomed>, ctx: string)
    ensures PurgeOf(view, doomed, ctx) ==
            Purging(Gone(doomed, ctx), Freed(view, doomed, Slots(doomed), ctx), Cut(view, doomed, Slots(doomed), ctx))
  {
  }

  lemma DropContextMoves(view: View, rows: Rows, name: string, plan: Plan, ctx: string)
    requires Sees(view, rows) && PlanDropContext(view, name) == Success(plan)
    ensures var s := SliceOf(rows, ctx);
            AllTruthful(ctx, s, plan.writes) && IsMove(view, s, WriteAll(ctx, s, plan.writes), Stay)
  {
    hide SeesOn, Sees;
    var s := SliceOf(rows, ctx);
    SeesEach(view, rows, ctx);
    var ws := plan.writes;
    var s1 := WriteSlice(ctx, s, ws[0]);
    assert ws[1..] == [DeleteConfig(Context(name)), DeleteMode(Context(name))];
    SettingsEffect(ctx, s1, ws[1..]);
    if ctx == name && s.versions != map[] {
      var slot :| slot in s.versions;
      ListedAreRows(view, s, Qualified(ctx, slot.subject));
      NoSubjectsNoVersions(view, s, ctx, slot.subject);
    }
  }

  lemma NoSubjectsNoVersions(view: View, s: Slice, ctx: string, name: string)
    requires SeesOn(view, s, ctx) && name !in SubjectNames(view.snap, ctx)
    ensures ListVersions(view.snap, Qualified(ctx, name)) == []
  {
    SubjectsHaveVersions(view.snap, s, ctx, name);
  }

  lemma NothingMoves(view: View, s: Slice, ctx: string, ws: seq<Write>)
    requires forall w | w in ws :: Settings(w)
    ensures AllTruthful(ctx, s, ws) && IsMove(view, s, WriteAll(ctx, s, ws), Stay)
  {
    SettingsEffect(ctx, s, ws);
  }

  lemma RegisterMoves(env: Env, view: View, rows: Rows, q: Qualified, d: Draft, normalize: bool, plan: Plan,
                      ctx: string)
    requires Sees(view, rows) && AllSound(rows) && PlanRegister(env, view, q, d, normalize) == Success(plan)
    ensures var s := SliceOf(rows, ctx);
            && AllTruthful(ctx, s, plan.writes)
            && IsMove(view, s, WriteAll(ctx, s, plan.writes), RegisterMove(env, view, q, d, normalize, ctx))
  {
    hide WriteSlice, WriteAll, Sees, SeesOn, IsMove, Settle, Prepare, RegisterPlan, AllTruthful, RecordingOf, RelinkOf;
    var s, home := SliceOf(rows, ctx), SliceOf(rows, q.ctx);
    SeesEach(view, rows, q.ctx);
    var p := Prepare(env, view, q, d, normalize).value;
    var o := Settle(env, view, q, p).value;
    if o.Already? {
      NothingMoves(view, s, ctx, []);
    } else {
      SettledFacts(env, view, home, q, p, o);
      if ctx == q.ctx {
        RegisterHere(view, s, q, o.canon.content, o.version, o.id);
      } else {
        RegisterElsewhere(view, s, ctx, q, o.canon.content, o.version, o.id);
      }
    }
  }

  /** Every decided verb, on every context. */
  lemma DecidedMoves(env: Env, view: View, rows: Rows, verb: Verb, plan: Plan, ctx: string)
    requires Sees(view, rows) && AllSound(rows) && Decide(env, view, verb) == Success(plan)
    ensures var s := SliceOf(rows, ctx);
            AllTruthful(ctx, s, plan.writes) && IsMove(view, s, WriteAll(ctx, s, plan.writes),
                                                       MoveOf(env, view, verb, ctx))
  {
    hide WriteSlice, WriteAll, Sees, IsMove, AllSound, AllTruthful, RegisterMove, PurgeOf;
    hide PlanRegister, PlanDropSubject, PlanDropVersion, PlanChangeMode, PlanDropContext, Allowed;
    var s := SliceOf(rows, ctx);
    match verb
    case Register(q, d, normalize) => RegisterMoves(env, view, rows, q, d, normalize, plan, ctx);
    case DropSubject(q, permanent) => DropSubjectMoves(env, view, rows, q, permanent, plan, ctx);
    case DropVersion(q, spec, permanent) => DropVersionMoves(env, view, rows, q, spec, permanent, plan, ctx);
    case ChangeMode(t, mode, force) => ChangeModeMoves(env, view, rows, t, mode, force, plan, ctx);
    case DropContext(name) => DropContextMoves(view, rows, name, plan, ctx);
    case _ => NothingMoves(view, s, ctx, plan.writes);
  }
}
