/**
 Dumping a registry and replaying the dump (src/backup.rs): every version is
 registered again in IMPORT mode under its own id and number, dependencies
 first, and soft-deleted versions are deleted again. What each of those calls
 does to a registry that is somewhere on the way to the dumped one.
 */
module Backup {
  import opened Wrappers
  import opened RegistryTypes
  import opened Store
  import opened Snapshot
  import opened Agreement
  import opened Verbs
  import opened Effects
  import opened Moves
  import opened Steps
  import opened Registry
  import opened Compatibility
  import Reclamation

  datatype Row = Row(version: nat, id: nat, deleted: bool, content: Content)

  /** What a dump says of a version. */
  function RowAt(s: Slice, slot: Slot): Option<Row> {
    if slot in s.versions && s.versions[slot].id in s.schemas
    then Some(Row(slot.version, s.versions[slot].id, s.versions[slot].deleted, s.schemas[s.versions[slot].id].content))
      else None
  }

  function RowIn(reg: Reg, q: Qualified, version: nat): Option<Row> {
    RowAt(At(reg, q.ctx), Slot(q.subject, version))
  }

  /** The two registries hold the same rows. */
  ghost predicate SameRows(a: Reg, b: Reg) {
    forall q: Qualified, version: nat :: RowIn(a, q, version) == RowIn(b, q, version)
  }

  // ---------------- what can be restored ----------------

  function Plainly(reg: Reg): View {
    ViewOf(reg, Command(DropContext(""), 0, ""))
  }

  /** References point at live versions of lower rank: they are acyclic. */
  predicate RefFits(src: Reg, rank: (Qualified, nat) -> nat, q: Qualified, version: nat, r: Reference) {
    && r.version >= 1
    && var target, row := RefTarget(q.ctx, r), RowIn(src, RefTarget(q.ctx, r), r.version);
       row.Some? && !row.value.deleted && rank(target, r.version) < rank(q, version)
  }

  ghost predicate RowFits(env: Env, src: Reg, rank: (Qualified, nat) -> nat, q: Qualified, row: Row) {
    && 1 <= row.version < I32_LIMIT && row.id < I32_LIMIT
    && (forall r | r in row.content.refs :: RefFits(src, rank, q, row.version, r))
    && var readable := ReadableOf(Plainly(src), q.ctx, row.content);
       // What is stored still parses, and is its own canonical text.
       readable.Success? && env.canonText(readable.value, false, false) == Some(row.content.text)
  }

  ghost predicate Restorable(env: Env, src: Reg, rank: (Qualified, nat) -> nat) {
    && Good(src)
    && forall q: Qualified, version: nat | RowIn(src, q, version).Some? ::
      RowFits(env, src, rank, q, RowIn(src, q, version).value)
  }

  // ---------------- on the way ----------------

  /** Every row there is one of the source, up to its flag, and every listed referrer is one of the source too. */
  ghost predicate Towards(reg: Reg, src: Reg) {
    && Good(reg)
    && (forall q: Qualified, version: nat | RowIn(reg, q, version).Some? ::
        Resembles(RowIn(reg, q, version), RowIn(src, q, version)))
    && (forall ctx: string, e | e in At(reg, ctx).refby :: Referenced(src, ctx, e.slot))
  }

  predicate Resembles(a: Option<Row>, b: Option<Row>) {
    a.Some? && b.Some? && a.value == b.value.(deleted := a.value.deleted)
  }

  /** Some version of the source refers to the slot. */
  ghost predicate Referenced(src: Reg, ctx: string, slot: Slot) {
    exists q: Qualified, version: nat ::
      RowIn(src, q, version).Some? && RefersTo(q, RowIn(src, q, version).value.content, ctx, slot)
  }

  predicate RefersTo(q: Qualified, c: Content, ctx: string, slot: Slot) {
    exists r | r in c.refs ::
      RefTarget(q.ctx, r) == Qualified(ctx, slot.subject) && AtLeastOne(r.version) == slot.version
  }

  /** What has been written, live, with everything it refers to. */
  ghost predicate Written(reg: Reg, src: Reg, written: set<(Qualified, nat)>) {
    forall x | x in written :: WrittenRow(reg, src, written, x)
  }

  ghost predicate WrittenRow(reg: Reg, src: Reg, written: set<(Qualified, nat)>, x: (Qualified, nat)) {
    && Resembles(RowIn(reg, x.0, x.1), RowIn(src, x.0, x.1))
    && forall r | r in RowIn(reg, x.0, x.1).value.content.refs ::
      (RefTarget(x.0.ctx, r), AtLeastOne(r.version)) in written
  }

  lemma VersionShown(reg: Reg, ctx: string, slot: Slot)
    requires Good(reg)
    ensures GetVersion(reg.snap, ctx, slot) == Lookup(At(reg, ctx).versions, slot)
    ensures RowAt(At(reg, ctx), slot).Some? <==> slot in At(reg, ctx).versions
    ensures slot in At(reg, ctx).versions ==>
              At(reg, ctx).versions[slot].id in At(reg, ctx).schemas && slot.version >= 1
  {
    assert RepresentsOn(reg.snap, SliceOf(reg.rows, ctx), ctx);
    assert Find(VersionsOf(Ctx(reg.snap, ctx), slot.subject), slot.version) == Lookup(At(reg, ctx).versions, slot);
    assert Sound(SliceOf(reg.rows, ctx));
  }

  lemma BodyShown(reg: Reg, c: Command, ctx: string, id: nat)
    requires Good(reg)
    ensures Body(ViewOf(reg, c), ctx, id) == Lookup(At(reg, ctx).schemas, id)
  {
    ViewSeesEach(reg, c, ctx);
  }

  // ---------------- references resolve as they did ----------------

  lemma {:induction false} SameCollect(src: Reg, reg: Reg, c: Command, written: set<(Qualified, nat)>, q: Qualified,
                                       version: nat, acc: Closure, depth: nat)
    requires Good(src) && Good(reg) && Written(reg, src, written) && (q, version) in written
    ensures CollectRef(Plainly(src), q, version, acc, depth) == CollectRef(ViewOf(reg, c), q, version, acc, depth)
    decreases if depth > 64 then 0 else 65 - depth, 1, 0
  {
    hide Good;
    assert WrittenRow(reg, src, written, (q, version));
    if depth <= 64 && (q, version) !in acc.visited {
      var slot := Slot(q.subject, version);
      VersionShown(src, q.ctx, slot);
      VersionShown(reg, q.ctx, slot);
      var id := At(reg, q.ctx).versions[slot].id;
      BodyShown(src, Command(DropContext(""), 0, ""), q.ctx, id);
      BodyShown(reg, c, q.ctx, id);
      var refs := RowIn(reg, q, version).value.content.refs;
      SameCollectAll(src, reg, c, written, q.ctx, refs, acc.(visited := acc.visited + {(q, version)}), depth + 1);
    }
  }

  lemma {:induction false} SameCollectAll(src: Reg, reg: Reg, c: Command, written: set<(Qualified, nat)>, ctx: string,
                                          refs: seq<Reference>, acc: Closure, depth: nat)
    requires Good(src) && Good(reg) && Written(reg, src, written)
    requires forall r | r in refs :: (RefTarget(ctx, r), AtLeastOne(r.version)) in written
    ensures CollectAll(Plainly(src), ctx, refs, acc, depth) == CollectAll(ViewOf(reg, c), ctx, refs, acc, depth)
    decreases if depth > 64 then 0 else 65 - depth, 2, |refs|
  {
    hide Good, Written;
    if refs != [] {
      assert refs[0] in refs;
      SameCollect(src, reg, c, written, RefTarget(ctx, refs[0]), AtLeastOne(refs[0].version), acc, depth);
      var next := CollectRef(Plainly(src), RefTarget(ctx, refs[0]), AtLeastOne(refs[0].version), acc, depth);
      if next.Success? {
        assert forall r | r in refs[1..] :: r in refs;
        SameCollectAll(src, reg, c, written, ctx, refs[1..], next.value, depth);
      }
    }
  }

  /** A stored, concrete reference resolves to itself. */
  lemma {:induction false} SameResolve(src: Reg, reg: Reg, c: Command, written: set<(Qualified, nat)>, ctx: string,
                                       refs: seq<Reference>, acc: Resolved)
    requires Good(src) && Good(reg) && Written(reg, src, written)
    requires forall r | r in refs :: r.version >= 1 && (RefTarget(ctx, r), AtLeastOne(r.version)) in written
    ensures ResolveRefs(Plainly(src), ctx, AllAsSent(refs), acc) ==
            ResolveRefs(ViewOf(reg, c), ctx, AllAsSent(refs), acc)
    ensures var r := ResolveRefs(Plainly(src), ctx, AllAsSent(refs), acc);
            r.Success? ==> r.value.refs == acc.refs + refs
    decreases |refs|
  {
    hide Good, Written, CollectRef;
    if refs != [] {
      var r := refs[0];
      assert r in refs && AllAsSent(refs)[0] == AsSent(r) && AllAsSent(refs)[1..] == AllAsSent(refs[1..]);
      var target := RefTarget(ctx, r);
      ExactFound(src, reg, c, written, target, r.version);
      SameCollect(src, reg, c, written, target, r.version, acc.closure, 0);
      var closure := CollectRef(Plainly(src), target, r.version, acc.closure, 0);
      if closure.Success? {
        assert forall x | x in refs[1..] :: x in refs;
        SameResolve(src, reg, c, written, ctx, refs[1..], Resolved(acc.refs + [r], closure.value));
        assert acc.refs + [r] + refs[1..] == acc.refs + refs;
      }
    }
  }

  lemma ExactFound(src: Reg, reg: Reg, c: Command, written: set<(Qualified, nat)>, q: Qualified, version: nat)
    requires Good(src) && Good(reg) && Written(reg, src, written) && (q, version) in written
    ensures var a, b := GetExact(src.snap, q, Exact(version), true), GetExact(reg.snap, q, Exact(version), true);
            a.Some? && b.Some? && a.value.version == version == b.value.version
  {
    hide Good;
    assert WrittenRow(reg, src, written, (q, version));
    VersionShown(src, q.ctx, Slot(q.subject, version));
    VersionShown(reg, q.ctx, Slot(q.subject, version));
  }

  // ---------------- one version, imported ----------------

  function DraftOf(row: Row): Draft {
    var c := row.content;
    Draft(Some(c.kind), Some(c.text), AllAsSent(c.refs), c.metadata, c.rules, AsI32(row.version), AsI32(row.id))
  }

  /** The subject is in IMPORT mode and does not normalize. */
  predicate Importing(snap: Snap, q: Qualified) {
    && GlobalMode(snap) != ReadonlyOverride && GetMode(snap, ScopeOf(q)) == Some(Mode.Import)
    && GetConfig(snap, ScopeOf(q)).Some? && GetConfig(snap, ScopeOf(q)).value.normalize == Some(false)
  }

  /** Everything the row refers to has been written. */
  predicate DepsWritten(q: Qualified, row: Row, written: set<(Qualified, nat)>) {
    forall r | r in row.content.refs :: (RefTarget(q.ctx, r), AtLeastOne(r.version)) in written
  }

  ghost predicate CanImport(env: Env, src: Reg, rank: (Qualified, nat) -> nat, reg: Reg, written: set<(Qualified, nat)>,
                            q: Qualified, row: Row) {
    && Restorable(env, src, rank) && Towards(reg, src) && Written(reg, src, written)
    && RowIn(src, q, row.version) == Some(row) && Importing(reg.snap, q) && DepsWritten(q, row, written)
  }

  lemma PrepareComputes(env: Env, view: View, q: Qualified, row: Row, closure: Closure)
    requires ModeInScope(view.snap, q) == Mode.Import && ConfigInScope(env, view.snap, q).normalize == Some(false)
    requires ResolveRefs(view, q.ctx, AllAsSent(row.content.refs), NOTHING) ==
             Success(Resolved(row.content.refs, closure))
    requires env.canonText(Readable(row.content.kind, row.content.text, closure.texts), false, false) ==
             Some(row.content.text)
    ensures Prepare(env, view, q, DraftOf(row), false) ==
            Success(Prepared(DraftOf(row), Some(Canon(row.content, closure.texts))))
  {
    hide ResolveRefs, ModeInScope, ConfigInScope, AsI32;
  }

  /** The parts of what an import needs. */
  lemma ImportParts(env: Env, src: Reg, rank: (Qualified, nat) -> nat, reg: Reg, written: set<(Qualified, nat)>,
                    q: Qualified, row: Row)
    requires CanImport(env, src, rank, reg, written, q, row)
    ensures Good(src) && Good(reg) && Written(reg, src, written)
    ensures 1 <= row.version < I32_LIMIT && row.id < I32_LIMIT && AsI32(row.version) == row.version
            && AsI32(row.id) == row.id
    ensures forall r | r in row.content.refs ::
              r.version >= 1 && (RefTarget(q.ctx, r), AtLeastOne(r.version)) in written
    ensures ModeInScope(reg.snap, q) == Mode.Import && ConfigInScope(env, reg.snap, q).normalize == Some(false)
    ensures var readable := ReadableOf(Plainly(src), q.ctx, row.content);
            readable.Success? && env.canonText(readable.value, false, false) == Some(row.content.text)
  {
    hide Good, Written, ReadableOf;
    assert RowFits(env, src, rank, q, row);
    forall r | r in row.content.refs
      ensures r.version >= 1
    {
      assert RefFits(src, rank, q, row.version, r);
    }
  }

  lemma PreparesRow(env: Env, src: Reg, rank: (Qualified, nat) -> nat, reg: Reg, written: set<(Qualified, nat)>,
                    q: Qualified, row: Row, c: Command) returns (texts: seq<string>)
    requires CanImport(env, src, rank, reg, written, q, row)
    ensures Prepare(env, ViewOf(reg, c), q, DraftOf(row), false) ==
            Success(Prepared(DraftOf(row), Some(Canon(row.content, texts))))
  {
    hide CanImport, Written, ResolveRefs, Good, Prepare, ModeInScope, ConfigInScope, AsI32;
    ImportParts(env, src, rank, reg, written, q, row);
    SameResolve(src, reg, c, written, q.ctx, row.content.refs, NOTHING);
    var resolved := ResolveRefs(Plainly(src), q.ctx, AllAsSent(row.content.refs), NOTHING).value;
    assert NOTHING.refs + row.content.refs == row.content.refs;
    assert resolved == Resolved(row.content.refs, resolved.closure);
    PrepareComputes(env, ViewOf(reg, c), q, row, resolved.closure);
    texts := resolved.closure.texts;
  }

  lemma GoodParts(env: Env, src: Reg, rank: (Qualified, nat) -> nat, reg: Reg)
    requires Restorable(env, src, rank) && Towards(reg, src)
    ensures Good(src) && Good(reg)
  {
  }

  /** An id that is held on the way holds what it holds in the source. */
  lemma HeldIsSame(src: Reg, reg: Reg, ctx: string, id: nat)
    requires Towards(reg, src) && Good(src) && Held(At(reg, ctx), id)
    ensures id in At(reg, ctx).schemas && id in At(src, ctx).schemas
    ensures At(reg, ctx).schemas[id].content == At(src, ctx).schemas[id].content
  {
    hide Good;
    var slot :| slot in At(reg, ctx).versions && At(reg, ctx).versions[slot].id == id;
    VersionShown(reg, ctx, slot);
    var q := Qualified(ctx, slot.subject);
    assert Slot(q.subject, slot.version) == slot;
    assert Resembles(RowIn(reg, q, slot.version), RowIn(src, q, slot.version));
  }

  lemma PicksItsId(env: Env, src: Reg, rank: (Qualified, nat) -> nat, reg: Reg, written: set<(Qualified, nat)>,
                   q: Qualified, row: Row, c: Command)
    requires CanImport(env, src, rank, reg, written, q, row)
    ensures PickId(ViewOf(reg, c), q, row.id, row.content) == Success(row.id)
  {
    hide Written, Good, Importing;
    GoodParts(env, src, rank, reg);
    BodyShown(reg, c, q.ctx, row.id);
    UsagesShown(reg, q.ctx, row.id);
    if Held(At(reg, q.ctx), row.id) {
      HeldIsSame(src, reg, q.ctx, row.id);
    }
  }

  lemma UsagesShown(reg: Reg, ctx: string, id: nat)
    requires Good(reg)
    ensures IdUsages(reg.snap, ctx, id) != {} ==> Held(At(reg, ctx), id)
  {
    assert RepresentsOn(reg.snap, SliceOf(reg.rows, ctx), ctx);
    assert UsagesOf(Ctx(reg.snap, ctx), id) == Holders(SliceOf(reg.rows, ctx), id);
    if IdUsages(reg.snap, ctx, id) != {} {
      var u :| u in Holders(SliceOf(reg.rows, ctx), id);
    }
  }

  lemma SettleComputes(env: Env, view: View, q: Qualified, row: Row, canon: Canon)
    requires ModeInScope(view.snap, q) == Mode.Import && canon.content == row.content
    requires 1 <= row.version && AsI32(row.version) == row.version && AsI32(row.id) == row.id
    requires PickId(view, q, row.id, row.content) == Success(row.id)
    ensures Settle(env, view, q, Prepared(DraftOf(row), Some(canon))) == Success(Fresh(canon, row.version, row.id))
  {
    hide CheckCandidates, FindEqual, HashLookup, PickId, ConfigInScope, AsI32, ModeInScope;
    var p := Prepared(DraftOf(row), Some(canon));
    assert SchemaIdOf(view.snap, q, p) == row.id;
    assert HitVersion(view.snap, q, p).None?;
  }

  lemma RegisterComputes(env: Env, reg: Reg, c: Command, q: Qualified, row: Row, canon: Canon, ctx: string)
    requires c.verb == Register(q, DraftOf(row), false) && ModeInScope(reg.snap, q) == Mode.Import
             && canon.content == row.content
    requires AsI32(row.id) == row.id
    requires Prepare(env, ViewOf(reg, c), q, DraftOf(row), false) == Success(Prepared(DraftOf(row), Some(canon)))
    requires Settle(env, ViewOf(reg, c), q, Prepared(DraftOf(row), Some(canon))) ==
             Success(Fresh(canon, row.version, row.id))
    ensures Decide(env, ViewOf(reg, c), c.verb) ==
            Success(RegisterPlan(ViewOf(reg, c), q, row.content, row.version, row.id))
    ensures StepMove(env, reg, c, ctx) ==
            if ctx == q.ctx then RecordingOf(ViewOf(reg, c), q, row.content, row.version, row.id)
            else RelinkOf(ViewOf(reg, c), q, row.content, row.version, row.id, ctx)
  {
    hide Prepare, Settle, RegisterPlan, RecordingOf, RelinkOf, ModeInScope, AsI32;
  }

  /** The registration goes through, under the id and number it asks for. */
  lemma ImportDecides(env: Env, src: Reg, rank: (Qualified, nat) -> nat, reg: Reg, written: set<(Qualified, nat)>,
                      q: Qualified, row: Row, c: Command, ctx: string)
    requires CanImport(env, src, rank, reg, written, q, row) && c.verb == Register(q, DraftOf(row), false)
    ensures Decide(env, ViewOf(reg, c), c.verb) ==
            Success(RegisterPlan(ViewOf(reg, c), q, row.content, row.version, row.id))
    ensures StepMove(env, reg, c, ctx) ==
            if ctx == q.ctx then RecordingOf(ViewOf(reg, c), q, row.content, row.version, row.id)
            else RelinkOf(ViewOf(reg, c), q, row.content, row.version, row.id, ctx)
  {
    hide CanImport, Written, Good, Prepare, Settle, RegisterPlan, RecordingOf, RelinkOf, ModeInScope, AsI32, PickId,
      ConfigInScope, Decide, StepMove, ReadableOf;
    ImportParts(env, src, rank, reg, written, q, row);
    PicksItsId(env, src, rank, reg, written, q, row, c);
    var texts := PreparesRow(env, src, rank, reg, written, q, row, c);
    SettleComputes(env, ViewOf(reg, c), q, row, Canon(row.content, texts));
    RegisterComputes(env, reg, c, q, row, Canon(row.content, texts), ctx);
  }

  // ---------------- what the import leaves ----------------

  /** In its context: the row itself, and every row that is live or of another subject as it was. */
  lemma RecordedRows(view: View, s: Slice, s': Slice, q: Qualified, row: Row, slot: Slot)
    requires SeesOn(view, s, q.ctx) && Sound(s) && Sound(s')
    requires IsMove(view, s, s', RecordingOf(view, q, row.content, row.version, row.id))
    ensures slot == Slot(q.subject, row.version) ==> RowAt(s', slot) == Some(row.(deleted := false))
    ensures slot != Slot(q.subject, row.version) && RowAt(s', slot).Some? ==> RowAt(s', slot) == RowAt(s, slot)
    ensures slot != Slot(q.subject, row.version) && RowAt(s, slot).Some?
            && (slot.subject != q.subject || !RowAt(s, slot).value.deleted) ==>
              RowAt(s', slot) == RowAt(s, slot)
  {
    hide SeesOn, Sound, Replaced, Stale, Freed, Cut, Unheld;
    var m := RecordingOf(view, q, row.content, row.version, row.id);
    if slot != Slot(q.subject, row.version) {
      GoneAreStale(view, s, q, row.version, row.id, slot);
      assert slot in s'.versions <==> slot in s.versions && slot !in m.gone;
      if slot in s'.versions {
        KeptContent(view, s, s', m, slot);
        assert s'.versions[slot] == s.versions[slot];
        SoundHasBodies(s, slot);
        SoundHasBodies(s', slot);
      }
    }
  }

  lemma SoundHasBodies(s: Slice, slot: Slot)
    requires Sound(s) && slot in s.versions
    ensures s.versions[slot].id in s.schemas
  {
  }

  lemma GoneAreStale(view: View, s: Slice, q: Qualified, version: nat, id: nat, slot: Slot)
    requires SeesOn(view, s, q.ctx) && slot != Slot(q.subject, version)
    ensures slot in Gone(Replaced(view, q, version), q.ctx) + Gone(Stale(view, q, version, id), q.ctx) ==>
              slot in s.versions && s.versions[slot].deleted && slot.subject == q.subject
  {
    hide SeesOn, Stale;
    assert slot !in Gone(Replaced(view, q, version), q.ctx);
    if slot in Gone(Stale(view, q, version, id), q.ctx) {
      Reclamation.StaleHold(view, s, q, version, id, slot);
    }
  }

  lemma RelinkedRows(view: View, s: Slice, s': Slice, m: Move, slot: Slot)
    requires m.Relink? && IsMove(view, s, s', m)
    ensures RowAt(s', slot) == RowAt(s, slot)
  {
  }

  /** No schema of the batch outside its own references is listed by an import. */
  lemma ImportEdges(view: View, s: Slice, s': Slice, q: Qualified, row: Row, ctx: string, m: Move, e: Edge)
    requires IsMove(view, s, s', m) && e in s'.refby
    requires m == if ctx == q.ctx then RecordingOf(view, q, row.content, row.version, row.id)
             else RelinkOf(view, q, row.content, row.version, row.id, ctx)
    ensures e in s.refby || RefersTo(q, row.content, ctx, e.slot)
  {
    hide Cut, Gone, Freed, Replaced, Stale, Unheld;
    if e !in s.refby {
      assert e in EdgesIn(ctx, q.ctx, row.content.refs, row.id);
      EdgeIsIn(ctx, q.ctx, row.content.refs, row.id, e);
      var r :| r in row.content.refs && RefTarget(q.ctx, r).ctx == ctx && e == EdgeOf(r, row.id);
      assert RefTarget(q.ctx, r) == Qualified(ctx, e.slot.subject);
    }
  }

  /** The written rows of the subject are live. */
  predicate WrittenLive(reg: Reg, q: Qualified, written: set<(Qualified, nat)>) {
    forall x | x in written && x.0 == q :: RowIn(reg, x.0, x.1).Some? && !RowIn(reg, x.0, x.1).value.deleted
  }

  /** How a registry changes when one row is imported. */
  ghost predicate Imported(reg: Reg, reg': Reg, q: Qualified, row: Row) {
    && RowIn(reg', q, row.version) == Some(row.(deleted := false))
    && (forall p: Qualified, v: nat | (p, v) != (q, row.version)
        && RowIn(reg', p, v).Some? :: RowIn(reg', p, v) == RowIn(reg, p, v))
    && (forall p: Qualified, v: nat | (p, v) != (q, row.version) && RowIn(reg, p, v).Some?
        && (p != q || !RowIn(reg, p, v).value.deleted) ::
          RowIn(reg', p, v) == RowIn(reg, p, v))
  }

  lemma ImportRows(env: Env, src: Reg, rank: (Qualified, nat) -> nat, reg: Reg, written: set<(Qualified, nat)>,
                   q: Qualified, row: Row, c: Command)
    requires CanImport(env, src, rank, reg, written, q, row) && c.verb == Register(q, DraftOf(row), false)
    ensures Imported(reg, Step(env, reg, c), q, row) && Good(Step(env, reg, c))
  {
    hide CanImport, Good, IsMove, Step, StepMove, RecordingOf, RelinkOf, RowAt, Decide, RegisterPlan, SeesOn, Sound;
    var reg' := Step(env, reg, c);
    ImportParts(env, src, rank, reg, written, q, row);
    StepKeepsGood(env, reg, c);
    forall p: Qualified, v: nat
      ensures (p, v) == (q, row.version) ==> RowIn(reg', p, v) == Some(row.(deleted := false))
      ensures (p, v) != (q, row.version) && RowIn(reg', p, v).Some? ==> RowIn(reg', p, v) == RowIn(reg, p, v)
      ensures (p, v) != (q, row.version) && RowIn(reg, p, v).Some? && (p != q || !RowIn(reg, p, v).value.deleted) ==>
                RowIn(reg', p, v) == RowIn(reg, p, v)
    {
      ImportDecides(env, src, rank, reg, written, q, row, c, p.ctx);
      StepMoves(env, reg, c, p.ctx);
      if p.ctx == q.ctx {
        ViewSeesEach(reg, c, p.ctx);
        SoundAt(reg, p.ctx);
        SoundAt(reg', p.ctx);
        RecordedRows(ViewOf(reg, c), At(reg, p.ctx), At(reg', p.ctx), q, row, Slot(p.subject, v));
      } else {
        RelinkIsRelink(ViewOf(reg, c), q, row, p.ctx);
        RelinkedRows(ViewOf(reg, c), At(reg, p.ctx), At(reg', p.ctx), StepMove(env, reg, c, p.ctx), Slot(p.subject, v));
      }
    }
  }

  lemma RelinkIsRelink(view: View, q: Qualified, row: Row, ctx: string)
    ensures RelinkOf(view, q, row.content, row.version, row.id, ctx).Relink?
  {
  }

  lemma ImportReferrers(env: Env, src: Reg, rank: (Qualified, nat) -> nat, reg: Reg, written: set<(Qualified, nat)>,
                        q: Qualified, row: Row, c: Command)
    requires CanImport(env, src, rank, reg, written, q, row) && c.verb == Register(q, DraftOf(row), false)
    ensures forall ctx: string, e | e in At(Step(env, reg, c), ctx).refby :: Referenced(src, ctx, e.slot)
  {
    hide Good, IsMove, Step, StepMove, RecordingOf, RelinkOf, Decide, RegisterPlan, Written, Restorable, RefersTo,
      Importing;
    var reg' := Step(env, reg, c);
    GoodParts(env, src, rank, reg);
    forall ctx: string, e | e in At(reg', ctx).refby
      ensures Referenced(src, ctx, e.slot)
    {
      ImportDecides(env, src, rank, reg, written, q, row, c, ctx);
      StepMoves(env, reg, c, ctx);
      ImportEdges(ViewOf(reg, c), At(reg, ctx), At(reg', ctx), q, row, ctx, StepMove(env, reg, c, ctx), e);
    }
  }

  /** One more row written; nothing else that was written is lost. */
  lemma ImportKeeps(env: Env, src: Reg, rank: (Qualified, nat) -> nat, reg: Reg, written: set<(Qualified, nat)>,
                    q: Qualified, row: Row, c: Command)
    requires CanImport(env, src, rank, reg, written, q, row) && WrittenLive(reg, q, written)
             && c.verb == Register(q, DraftOf(row), false)
    ensures var reg' := Step(env, reg, c);
            Towards(reg', src) && Written(reg', src, written + {(q, row.version)}) && Imported(reg, reg', q, row)
  {
    hide Good, Step, Restorable, Importing, Referenced;
    var reg' := Step(env, reg, c);
    ImportRows(env, src, rank, reg, written, q, row, c);
    ImportReferrers(env, src, rank, reg, written, q, row, c);
    forall p: Qualified, v: nat | RowIn(reg', p, v).Some?
      ensures Resembles(RowIn(reg', p, v), RowIn(src, p, v))
    {
      assert (p, v) != (q, row.version) ==> RowIn(reg', p, v) == RowIn(reg, p, v);
    }
    forall x | x in written + {(q, row.version)}
      ensures WrittenRow(reg', src, written + {(q, row.version)}, x)
    {
      if x != (q, row.version) {
        assert WrittenRow(reg, src, written, x);
        assert RowIn(reg', x.0, x.1) == RowIn(reg, x.0, x.1);
      }
    }
  }

  // ---------------- settings ----------------

  lemma {:induction false} OtherWritesKeepSettings(snap: Snap, ws: seq<Write>)
    requires forall w | w in ws :: !Settings(w)
    ensures ApplyAll(snap, ws).config == snap.config && ApplyAll(snap, ws).mode == snap.mode
    decreases ws
  {
    if ws != [] {
      hide ApplyIn;
      assert ws[0] in ws && forall w | w in ws[1..] :: w in ws;
      OtherWritesKeepSettings(Apply(snap, ws[0]), ws[1..]);
    }
  }

  lemma {:induction false} EdgesAreNotSettings(ctx: string, refs: seq<Reference>, id: nat)
    ensures forall w | w in AddEdges(ctx, refs, id) + CutEdges(ctx, refs, id) :: !Settings(w)
    decreases refs
  {
    if refs != [] {
      EdgesAreNotSettings(ctx, refs[1..], id);
    }
  }

  lemma {:induction false} PurgeIsNotSettings(view: View, doomed: seq<Doomed>, also: set<Slot>)
    ensures forall w | w in Purge(view, doomed, also) :: !Settings(w)
    decreases doomed
  {
    if doomed != [] {
      var d := doomed[0];
      if Frees(view, d, also) {
        EdgesAreNotSettings(d.q.ctx, Body(view, d.q.ctx, d.rec.id).value.content.refs, d.rec.id);
      }
      PurgeIsNotSettings(view, doomed[1..], also);
    }
  }

  lemma RegisterPlanIsNotSettings(view: View, q: Qualified, c: Content, version: nat, id: nat)
    ensures forall w | w in RegisterPlan(view, q, c, version, id).writes :: !Settings(w)
  {
    hide Purge, Replaced, Stale, RecordFor, AddEdges;
    var replaced, stale := Replaced(view, q, version), Stale(view, q, version, id);
    PurgeIsNotSettings(view, replaced, {});
    PurgeIsNotSettings(view, stale, Slots(stale));
    EdgesAreNotSettings(q.ctx, c.refs, id);
    assert forall w | w in PutWrites(view, q, c, version, id) :: !Settings(w);
  }

  /** A registration changes no setting. */
  lemma ImportSettings(env: Env, src: Reg, rank: (Qualified, nat) -> nat, reg: Reg, written: set<(Qualified, nat)>,
                       q: Qualified, row: Row, c: Command)
    requires CanImport(env, src, rank, reg, written, q, row) && c.verb == Register(q, DraftOf(row), false)
    ensures Step(env, reg, c).snap.config == reg.snap.config && Step(env, reg, c).snap.mode == reg.snap.mode
  {
    hide CanImport, Decide, StepMove, RecordingOf, RelinkOf, RegisterPlan, Settings;
    ImportDecides(env, src, rank, reg, written, q, row, c, q.ctx);
    RegisterPlanIsNotSettings(ViewOf(reg, c), q, row.content, row.version, row.id);
    OtherWritesKeepSettings(reg.snap, RegisterPlan(ViewOf(reg, c), q, row.content, row.version, row.id).writes);
  }

  /** The verbs a restore uses for settings: modes are forced, so none of them purges. */
  predicate SettingVerb(verb: Verb) {
    (verb.ChangeMode? && verb.force) || verb.ClearMode? || verb.UpdateConfig? || verb.ClearConfig?
  }

  lemma SettingStep(env: Env, reg: Reg, c: Command)
    requires Good(reg) && SettingVerb(c.verb)
    ensures Good(Step(env, reg, c)) && SameRows(reg, Step(env, reg, c))
    ensures forall ctx: string :: At(Step(env, reg, c), ctx).refby == At(reg, ctx).refby
  {
    hide Good, Step, Decide;
    StepKeepsGood(env, reg, c);
    forall ctx: string
      ensures SameCore(At(reg, ctx), At(Step(env, reg, c), ctx))
    {
      StepMoves(env, reg, c, ctx);
    }
    forall q: Qualified, version: nat
      ensures RowIn(reg, q, version) == RowIn(Step(env, reg, c), q, version)
    {
      assert SameCore(At(reg, q.ctx), At(Step(env, reg, c), q.ctx));
    }
  }

  lemma SettingKeeps(env: Env, src: Reg, reg: Reg, written: set<(Qualified, nat)>, c: Command)
    requires Towards(reg, src) && Written(reg, src, written) && SettingVerb(c.verb)
    ensures var reg' := Step(env, reg, c); Towards(reg', src) && Written(reg', src, written) && SameRows(reg, reg')
  {
    hide Good, Step, Referenced, SettingVerb;
    var reg' := Step(env, reg, c);
    SettingStep(env, reg, c);
    forall q: Qualified, version: nat | RowIn(reg', q, version).Some?
      ensures Resembles(RowIn(reg', q, version), RowIn(src, q, version))
    {
      assert RowIn(reg, q, version) == RowIn(reg', q, version);
    }
    forall x | x in written
      ensures WrittenRow(reg', src, written, x)
    {
      assert WrittenRow(reg, src, written, x) && RowIn(reg, x.0, x.1) == RowIn(reg', x.0, x.1);
    }
  }

  const UNNORMALIZED := NO_CONFIG.(normalize := Some(false))

  /** Putting a subject into IMPORT mode is always let through, and turning normalizing off then is too. */
  lemma PreparesSubject(env: Env, reg: Reg, q: Qualified, a: Command, b: Command)
    requires GlobalMode(reg.snap) != ReadonlyOverride
    requires a.verb == ChangeMode(Some(q), Mode.Import, true) && b.verb == UpdateConfig(Some(q), UNNORMALIZED)
    ensures var mid := Step(env, reg, a);
            && Decide(env, ViewOf(reg, a), a.verb).Success?
            && mid.snap.mode == reg.snap.mode[ScopeOf(q) := Mode.Import] && mid.snap.config == reg.snap.config
            && Decide(env, ViewOf(mid, b), b.verb).Success?
            && var end, was := Step(env, mid, b), OrElse(GetConfig(reg.snap, ScopeOf(q)), NO_CONFIG);
               && end.snap.mode == mid.snap.mode && Importing(end.snap, q)
               && end.snap.config == reg.snap.config[ScopeOf(q) := Merged(was, UNNORMALIZED)]
               && forall p: Qualified | Importing(reg.snap, p) :: Importing(end.snap, p)
  {
    var mid := Step(env, reg, a);
    var put := [PutMode(ScopeOf(q), Mode.Import)];
    assert put[1..] == [];
    assert ApplyAll(reg.snap, put) == ApplyAll(Apply(reg.snap, put[0]), []);
    assert mid.snap.mode == reg.snap.mode[ScopeOf(q) := Mode.Import] && mid.snap.config == reg.snap.config;
    assert GlobalMode(mid.snap) == GlobalMode(reg.snap);
    assert ModeInScope(mid.snap, q) == Mode.Import;
    var config := Merged(OrElse(GetConfig(mid.snap, ScopeOf(q)), NO_CONFIG), UNNORMALIZED);
    var set_ := [PutConfig(ScopeOf(q), config)];
    assert set_[1..] == [];
    assert ApplyAll(mid.snap, set_) == ApplyAll(Apply(mid.snap, set_[0]), []);
    var end := Step(env, mid, b);
    assert end.snap.config == mid.snap.config[ScopeOf(q) := config] && end.snap.mode == mid.snap.mode;
  }

  // ---------------- a soft delete, replayed ----------------

  lemma ReferencedIsLive(env: Env, src: Reg, rank: (Qualified, nat) -> nat, ctx: string, slot: Slot)
    requires Restorable(env, src, rank) && Referenced(src, ctx, slot)
    ensures var row := RowIn(src, Qualified(ctx, slot.subject), slot.version); row.Some? && !row.value.deleted
  {
    hide Good, RowAt;
    var p: Qualified, v: nat :| RowIn(src, p, v).Some? && RefersTo(p, RowIn(src, p, v).value.content, ctx, slot);
    var row := RowIn(src, p, v).value;
    assert RowFits(env, src, rank, p, row);
    var r :| r in row.content.refs && RefTarget(p.ctx, r) == Qualified(ctx, slot.subject)
      && AtLeastOne(r.version) == slot.version;
    assert RefFits(src, rank, p, row.version, r);
  }

  /** Nothing in the source refers to a deleted version, so nothing on the way does. */
  lemma DeletedIsUnreferenced(env: Env, src: Reg, rank: (Qualified, nat) -> nat, reg: Reg, q: Qualified, version: nat)
    requires Restorable(env, src, rank) && Towards(reg, src)
    requires RowIn(src, q, version).Some? && RowIn(src, q, version).value.deleted
    ensures !ReferencedLive(reg.snap, q.ctx, Slot(q.subject, version))
  {
    hide Good, RowAt, Restorable, Referenced;
    var slot := Slot(q.subject, version);
    GoodParts(env, src, rank, reg);
    forall e | e in At(reg, q.ctx).refby
      ensures e.slot != slot
    {
      ReferencedIsLive(env, src, rank, q.ctx, e.slot);
    }
    ReferrersShown(reg, q.ctx, slot);
  }

  lemma ReferrersShown(reg: Reg, ctx: string, slot: Slot)
    requires Good(reg)
    ensures forall id | id in ReferencedBy(reg.snap, ctx, slot) :: Edge(slot, id) in At(reg, ctx).refby
  {
    assert RepresentsOn(reg.snap, SliceOf(reg.rows, ctx), ctx);
    assert ReferrersOf(Ctx(reg.snap, ctx), slot) == Referrers(SliceOf(reg.rows, ctx), slot);
    forall id | id in ReferencedBy(reg.snap, ctx, slot)
      ensures Edge(slot, id) in At(reg, ctx).refby
    {
      var e :| e in At(reg, ctx).refby && e.slot == slot && e.id == id;
      assert e == Edge(slot, id);
    }
  }

  /** Some other version of the subject is live. */
  ghost predicate OthersLive(reg: Reg, q: Qualified, version: nat) {
    exists v: nat :: v != version && RowIn(reg, q, v).Some? && !RowIn(reg, q, v).value.deleted
  }

  lemma DropComputes(env: Env, reg: Reg, c: Command, q: Qualified, e: Entry, ctx: string)
    requires c.verb == DropVersion(q, Exact(e.version), false) && ModeInScope(reg.snap, q) == Mode.Import
    requires GetExact(reg.snap, q, Exact(e.version), true) == Some(e) == GetExact(reg.snap, q, Exact(e.version), false)
    requires !ReferencedLive(reg.snap, q.ctx, Slot(q.subject, e.version))
    ensures var plan := Decide(env, ViewOf(reg, c), c.verb);
            plan.Success? && plan.value.writes == HideAll(q, [e]) +
              if exists x | x in ListVersions(reg.snap, q) :: x.version != e.version && Live(x) then []
                else DropSettings(q)
    ensures StepMove(env, reg, c, ctx) == Hiding(if ctx == q.ctx then {Slot(q.subject, e.version)} else {})
  {
    hide ReferencedLive, ModeInScope, HasSubjects, Purge, GetExact, HideAll, DropSettings, PurgeOf;
    assert SlotsOf(q, [e]) == {Slot(q.subject, e.version)};
  }

  ghost predicate CanDrop(env: Env, src: Reg, rank: (Qualified, nat) -> nat, reg: Reg, q: Qualified, row: Row) {
    && Restorable(env, src, rank) && Towards(reg, src) && RowIn(src, q, row.version) == Some(row) && row.deleted
    && RowIn(reg, q, row.version) == Some(row.(deleted := false)) && ModeInScope(reg.snap, q) == Mode.Import
  }

  lemma DropDecides(env: Env, src: Reg, rank: (Qualified, nat) -> nat, reg: Reg, q: Qualified, row: Row, c: Command,
                    ctx: string)
    requires CanDrop(env, src, rank, reg, q, row) && c.verb == DropVersion(q, Exact(row.version), false)
    ensures Decide(env, ViewOf(reg, c), c.verb).Success?
    ensures StepMove(env, reg, c, ctx) == Hiding(if ctx == q.ctx then {Slot(q.subject, row.version)} else {})
  {
    hide Restorable, Towards, Good, ReferencedLive, ModeInScope, Decide, StepMove;
    GoodParts(env, src, rank, reg);
    DeletedIsUnreferenced(env, src, rank, reg, q, row.version);
    var e := LiveEntry(reg, q, row);
    DropComputes(env, reg, c, q, e, ctx);
  }

  lemma LiveEntry(reg: Reg, q: Qualified, row: Row) returns (e: Entry)
    requires Good(reg) && RowIn(reg, q, row.version) == Some(row.(deleted := false))
    ensures e.version == row.version
    ensures GetExact(reg.snap, q, Exact(e.version), true) == Some(e) == GetExact(reg.snap, q, Exact(e.version), false)
  {
    hide Good;
    var slot := Slot(q.subject, row.version);
    VersionShown(reg, q.ctx, slot);
    e := Entry(row.version, At(reg, q.ctx).versions[slot]);
  }

  /** While another version is live the subject keeps its settings. */
  lemma DropKeepsSettings(env: Env, src: Reg, rank: (Qualified, nat) -> nat, reg: Reg, q: Qualified, row: Row,
                          c: Command)
    requires CanDrop(env, src, rank, reg, q, row) && c.verb == DropVersion(q, Exact(row.version), false)
    requires OthersLive(reg, q, row.version)
    ensures Step(env, reg, c).snap.config == reg.snap.config && Step(env, reg, c).snap.mode == reg.snap.mode
  {
    hide Restorable, Towards, Good, ReferencedLive, ModeInScope, Decide, StepMove;
    GoodParts(env, src, rank, reg);
    DeletedIsUnreferenced(env, src, rank, reg, q, row.version);
    var e := LiveEntry(reg, q, row);
    DropComputes(env, reg, c, q, e, q.ctx);
    OthersShown(reg, q, row.version);
    assert [e][1..] == [];
    assert HideAll(q, [e]) == [PutVersion(q.ctx, Slot(q.subject, e.version), e.rec.(deleted := true))];
    OtherWritesKeepSettings(reg.snap, HideAll(q, [e]) + []);
  }

  lemma OthersShown(reg: Reg, q: Qualified, version: nat)
    requires Good(reg) && OthersLive(reg, q, version)
    ensures exists x | x in ListVersions(reg.snap, q) :: x.version != version && Live(x)
  {
    hide Good;
    var v: nat :| v != version && RowIn(reg, q, v).Some? && !RowIn(reg, q, v).value.deleted;
    var c := Command(DropContext(""), 0, "");
    ViewSeesEach(reg, c, q.ctx);
    ListedAreRows(ViewOf(reg, c), At(reg, q.ctx), q);
    var slot := Slot(q.subject, v);
    var x := Entry(slot.version, At(reg, q.ctx).versions[slot]);
    assert x in ListVersions(reg.snap, q);
  }

  lemma HiddenRows(view: View, s: Slice, s': Slice, hidden: set<Slot>, slot: Slot)
    requires IsMove(view, s, s', Hiding(hidden))
    ensures RowAt(s', slot) == if slot in hidden && RowAt(s, slot).Some?
            then Some(RowAt(s, slot).value.(deleted := true)) else RowAt(s, slot)
    ensures s'.refby == s.refby
  {
  }

  lemma DropRowAt(env: Env, src: Reg, rank: (Qualified, nat) -> nat, reg: Reg, q: Qualified, row: Row, c: Command,
                  p: Qualified, v: nat)
    requires CanDrop(env, src, rank, reg, q, row) && c.verb == DropVersion(q, Exact(row.version), false)
    ensures RowIn(Step(env, reg, c), p, v) == if (p, v) == (q, row.version) then Some(row) else RowIn(reg, p, v)
    ensures At(Step(env, reg, c), p.ctx).refby == At(reg, p.ctx).refby
  {
    hide Restorable, Towards, Good, Step, StepMove, IsMove, Decide, RowAt, ModeInScope;
    GoodParts(env, src, rank, reg);
    DropDecides(env, src, rank, reg, q, row, c, p.ctx);
    StepMoves(env, reg, c, p.ctx);
    var hidden := if p.ctx == q.ctx then {Slot(q.subject, row.version)} else {};
    HiddenRows(ViewOf(reg, c), At(reg, p.ctx), At(Step(env, reg, c), p.ctx), hidden, Slot(p.subject, v));
  }

  /** Only the flag of the one version changes. */
  lemma DropRows(env: Env, src: Reg, rank: (Qualified, nat) -> nat, reg: Reg, q: Qualified, row: Row, c: Command)
    requires CanDrop(env, src, rank, reg, q, row) && c.verb == DropVersion(q, Exact(row.version), false)
    ensures var reg' := Step(env, reg, c);
            && Towards(reg', src) && RowIn(reg', q, row.version) == Some(row)
            && (forall p: Qualified, v: nat | (p, v) != (q, row.version) :: RowIn(reg', p, v) == RowIn(reg, p, v))
  {
    hide Good, Step, RowAt, ModeInScope, Referenced, Restorable;
    var reg' := Step(env, reg, c);
    StepKeepsGood(env, reg, c);
    forall p: Qualified, v: nat
      ensures RowIn(reg', p, v) == if (p, v) == (q, row.version) then Some(row) else RowIn(reg, p, v)
      ensures RowIn(reg', p, v).Some? ==> Resembles(RowIn(reg', p, v), RowIn(src, p, v))
    {
      DropRowAt(env, src, rank, reg, q, row, c, p, v);
      assert RowIn(reg, p, v).Some? ==> Resembles(RowIn(reg, p, v), RowIn(src, p, v));
    }
    forall ctx: string, e | e in At(reg', ctx).refby
      ensures Referenced(src, ctx, e.slot)
    {
      DropRowAt(env, src, rank, reg, q, row, c, Qualified(ctx, ""), 0);
    }
  }

  /** No mode is set but IMPORT, as in a registry that is being filled. */
  predicate OnlyImports(snap: Snap) {
    forall scope | scope in snap.mode :: snap.mode[scope] == Mode.Import
  }

  /** No subject is configured but for the setting it is imported with. */
  predicate OnlyOpened(snap: Snap) {
    forall scope | scope in snap.config && scope.Subject? :: snap.config[scope] == UNNORMALIZED
  }

  /** Deleting a version sets no mode and no configuration, and leaves the registry-wide mode alone. */
  lemma DropModes(env: Env, src: Reg, rank: (Qualified, nat) -> nat, reg: Reg, q: Qualified, row: Row, c: Command)
    requires CanDrop(env, src, rank, reg, q, row) && c.verb == DropVersion(q, Exact(row.version), false)
    ensures GlobalMode(Step(env, reg, c).snap) == GlobalMode(reg.snap)
    ensures OnlyImports(reg.snap) ==> OnlyImports(Step(env, reg, c).snap)
    ensures OnlyOpened(reg.snap) ==> OnlyOpened(Step(env, reg, c).snap)
  {
    hide Restorable, Towards, Good, ReferencedLive, ModeInScope, Decide, StepMove;
    GoodParts(env, src, rank, reg);
    DeletedIsUnreferenced(env, src, rank, reg, q, row.version);
    var e := LiveEntry(reg, q, row);
    DropComputes(env, reg, c, q, e, q.ctx);
    var hides := [PutVersion(q.ctx, Slot(q.subject, e.version), e.rec.(deleted := true))];
    assert [e][1..] == [] && HideAll(q, [e]) == hides;
    OtherWritesKeepSettings(reg.snap, hides);
    assert hides + [] == hides;
    ApplyAllConcat(reg.snap, hides, DropSettings(q));
    DropSettingsModes(ApplyAll(reg.snap, hides), q);
  }

  /** The subject's configuration and mode go with its last live version, and no other. */
  lemma DropSettled(env: Env, src: Reg, rank: (Qualified, nat) -> nat, reg: Reg, q: Qualified, row: Row, c: Command)
    requires CanDrop(env, src, rank, reg, q, row) && c.verb == DropVersion(q, Exact(row.version), false)
    ensures var gone := if OthersLive(reg, q, row.version) then {} else {Subject(q.ctx, q.subject)};
            && Step(env, reg, c).snap.config == reg.snap.config - gone
            && Step(env, reg, c).snap.mode == reg.snap.mode - gone
  {
    hide Restorable, Towards, Good, ReferencedLive, ModeInScope, Decide, StepMove, OthersLive;
    if OthersLive(reg, q, row.version) {
      DropKeepsSettings(env, src, rank, reg, q, row, c);
    } else {
      GoodParts(env, src, rank, reg);
      DeletedIsUnreferenced(env, src, rank, reg, q, row.version);
      var e := LiveEntry(reg, q, row);
      DropComputes(env, reg, c, q, e, q.ctx);
      OthersAreLive(reg, q, row.version);
      var hides := [PutVersion(q.ctx, Slot(q.subject, e.version), e.rec.(deleted := true))];
      assert [e][1..] == [] && HideAll(q, [e]) == hides;
      OtherWritesKeepSettings(reg.snap, hides);
      ApplyAllConcat(reg.snap, hides, DropSettings(q));
      DropSettingsAre(ApplyAll(reg.snap, hides), q);
    }
  }

  lemma OthersAreLive(reg: Reg, q: Qualified, version: nat)
    requires Good(reg) && !OthersLive(reg, q, version)
    ensures !exists x | x in ListVersions(reg.snap, q) :: x.version != version && Live(x)
  {
    hide Good;
    forall x | x in ListVersions(reg.snap, q) && x.version != version
      ensures !Live(x)
    {
      ListedIsThere(reg, q, x);
      assert RowIn(reg, q, x.version).Some?;
    }
  }

  lemma ListedIsThere(reg: Reg, q: Qualified, x: Entry)
    requires Good(reg) && x in ListVersions(reg.snap, q)
    ensures RowIn(reg, q, x.version).Some? && RowIn(reg, q, x.version).value.deleted == x.rec.deleted
  {
    var s := SliceOf(reg.rows, q.ctx);
    assert Sound(s) && RepresentsOn(reg.snap, s, q.ctx);
    var c := Command(ClearMode(q), 0, "");
    ViewSeesEach(reg, c, q.ctx);
    ListedAreRows(ViewOf(reg, c), s, q);
  }

  lemma DropSettingsAre(snap: Snap, q: Qualified)
    ensures var snap', scope := ApplyAll(snap, DropSettings(q)), Subject(q.ctx, q.subject);
            snap'.config == snap.config - {scope} && snap'.mode == snap.mode - {scope}
  {
    var ws := DropSettings(q);
    var rest := [DeleteConfig(Subject(q.ctx, q.subject))];
    assert ws[1..] == rest && rest[1..] == [];
    var s1 := Apply(snap, ws[0]);
    assert ApplyAll(snap, ws) == ApplyAll(s1, rest) == ApplyAll(Apply(s1, rest[0]), []);
  }

  lemma DropSettingsModes(snap: Snap, q: Qualified)
    ensures GlobalMode(ApplyAll(snap, DropSettings(q))) == GlobalMode(snap)
    ensures OnlyImports(snap) ==> OnlyImports(ApplyAll(snap, DropSettings(q)))
    ensures OnlyOpened(snap) ==> OnlyOpened(ApplyAll(snap, DropSettings(q)))
  {
    var ws := DropSettings(q);
    var rest := [DeleteConfig(Subject(q.ctx, q.subject))];
    assert ws[1..] == rest && rest[1..] == [];
    var s1 := Apply(snap, ws[0]);
    assert ApplyAll(snap, ws) == ApplyAll(s1, rest) == ApplyAll(Apply(s1, rest[0]), []);
  }

  /** A configuration update is let through whenever no mode but IMPORT is set. */
  lemma ConfigIsLetThrough(env: Env, reg: Reg, c: Command)
    requires c.verb.UpdateConfig? && OnlyImports(reg.snap)
    ensures Decide(env, ViewOf(reg, c), c.verb).Success?
  {
  }

  /** And under READONLY_OVERRIDE it never is. */
  lemma OverrideRefusesConfig(env: Env, reg: Reg, c: Command)
    requires c.verb.UpdateConfig? && GlobalMode(reg.snap) == ReadonlyOverride
    ensures Decide(env, ViewOf(reg, c), c.verb) == Failure(ModeRefuses) && Step(env, reg, c) == reg
  {
  }

  /** What a configuration verb that is let through leaves of the settings. */
  lemma ConfigModes(env: Env, reg: Reg, c: Command)
    requires c.verb.UpdateConfig? || c.verb.ClearConfig?
    ensures var reg' := Step(env, reg, c);
            var scope := ScopeFor(c.verb.target);
            && reg'.snap.mode == reg.snap.mode
            && (OnlyImports(reg.snap) || Decide(env, ViewOf(reg, c), c.verb).Success? ==>
                  reg'.snap.config ==
                  if c.verb.ClearConfig? then reg.snap.config - {scope}
                  else reg.snap.config[scope := Merged(OrElse(GetConfig(reg.snap, scope), NO_CONFIG), c.verb.update)])
  {
    var plan := Decide(env, ViewOf(reg, c), c.verb);
    if plan.Success? {
      var ws := plan.value.writes;
      assert |ws| == 1 && ws[1..] == [];
      assert ApplyAll(reg.snap, ws) == ApplyAll(Apply(reg.snap, ws[0]), []);
    } else if OnlyImports(reg.snap) {
      assert Allowed(Modifies, ModeFor(reg.snap, c.verb.target));
      assert c.verb.ClearConfig? && ScopeFor(c.verb.target) !in reg.snap.config;
    }
  }

  /** And a mode verb; setting a mode with force is always let through. */
  lemma ModeModes(env: Env, reg: Reg, c: Command)
    requires (c.verb.ChangeMode? && c.verb.force) || c.verb.ClearMode?
    ensures var reg' := Step(env, reg, c);
            && reg'.snap.config == reg.snap.config
            && reg'.snap.mode == if c.verb.ChangeMode? then reg.snap.mode[ScopeFor(c.verb.target) := c.verb.mode]
                                 else reg.snap.mode - {ScopeOf(c.verb.q)}
  {
    var plan := Decide(env, ViewOf(reg, c), c.verb);
    if plan.Success? {
      var ws := plan.value.writes;
      assert |ws| == 1 && ws[1..] == [];
      assert ApplyAll(reg.snap, ws) == ApplyAll(Apply(reg.snap, ws[0]), []);
    } else {
      assert c.verb.ClearMode? && ScopeOf(c.verb.q) !in reg.snap.mode;
    }
  }
}
