/**
 A transitive level is a promise about a whole history: as long as a subject's
 level stays BACKWARD_TRANSITIVE, every live version reads the data of every
 older live one, whatever was registered and deleted in between; FORWARD and
 FULL likewise. Schemas without references, no compatibility group, no imports.
 */
module Compatibility {
  import opened Wrappers
  import opened RegistryTypes
  import opened Store
  import opened Snapshot
  import opened Agreement
  import opened Verbs
  import opened Effects
  import opened Moves
  import opened Steps
  import opened Registry

  function Plain(c: Content): Readable {
    Readable(c.kind, c.text, [])
  }

  /** The stored content of a version. */
  function ContentAt(s: Slice, slot: Slot): Content
    requires BodiesStored(s) && slot in s.versions
  {
    s.schemas[s.versions[slot].id].content
  }

  predicate LiveSlot(s: Slice, slot: Slot) {
    slot in s.versions && !s.versions[slot].deleted
  }

  predicate WithoutRefs(s: Slice, subject: string)
    requires BodiesStored(s)
  {
    forall slot | slot in s.versions && slot.subject == subject :: ContentAt(s, slot).refs == []
  }

  /** Every live version is compatible, at the level, with every older live one. */
  ghost predicate Chain(env: Env, level: Level, s: Slice, subject: string)
    requires BodiesStored(s)
  {
    forall slot, later | LiveSlot(s, slot) && LiveSlot(s, later) && slot.subject == subject == later.subject
      && slot.version < later.version ::
      Compatible(env, level, Plain(ContentAt(s, later)), Plain(ContentAt(s, slot)))
  }

  // ---------------- what a registration checks ----------------

  lemma {:induction false} CandidatesAreAll(view: View, q: Qualified, cfg: Config, c: Content, live: seq<Entry>,
                                            e: Entry)
    requires cfg.group.None? && Candidates(view, q, cfg, c, live).Success? && e in live
    ensures Body(view, q.ctx, e.rec.id).Some?
    ensures Body(view, q.ctx, e.rec.id).value.content in Candidates(view, q, cfg, c, live).value
  {
    if e != live[0] {
      assert e in live[1..];
      CandidatesAreAll(view, q, cfg, c, live[1..], e);
    }
  }

  lemma {:induction false} CheckedEach(env: Env, view: View, ctx: string, level: Level, newer: Readable,
                                       olds: seq<Content>, c: Content)
    requires CheckAll(env, view, ctx, level, newer, olds) == Success(true) && c in olds && c.refs == []
    ensures Compatible(env, level, newer, Plain(c))
  {
    if c == olds[0] {
      assert AllAsSent(c.refs) == [];
    } else {
      assert c in olds[1..];
      CheckedEach(env, view, ctx, level, newer, olds[1..], c);
    }
  }

  lemma CheckedAgainstLive(env: Env, view: View, q: Qualified, cfg: Config, c: Canon, live: seq<Entry>, level: Level,
                           e: Entry)
    requires cfg.level == Some(level) && cfg.group.None? && Transitive(level) && c.deps == [] && e in live
    requires CheckCandidates(env, view, q, cfg, c, live) == Success(true)
    ensures var rec := Body(view, q.ctx, e.rec.id);
            rec.Some? && (rec.value.content.refs == [] ==>
                          Compatible(env, level, Plain(c.content), Plain(rec.value.content)))
  {
    hide Candidates, CheckAll, Compatible;
    CandidatesAreAll(view, q, cfg, c.content, live, e);
    var olds := Candidates(view, q, cfg, c.content, live).value;
    var content := Body(view, q.ctx, e.rec.id).value.content;
    if content.refs == [] {
      CheckedEach(env, view, q.ctx, level, Plain(c.content), olds, content);
    }
  }

  /** The level, and no group, in force for the subject. */
  predicate LevelIs(env: Env, snap: Snap, q: Qualified, level: Level) {
    var cfg := ConfigInScope(env, snap, q);
    cfg.level == Some(level) && cfg.group.None?
  }

  lemma SettledIsChecked(env: Env, view: View, q: Qualified, p: Prepared, o: Outcome)
    requires Settle(env, view, q, p) == Success(o) && o.Fresh? && ModeInScope(view.snap, q) != Mode.Import
    ensures CheckCandidates(env, view, q, ConfigInScope(env, view.snap, q), o.canon,
                            NewestFirst(LiveOnes(ListVersions(view.snap, q)))) == Success(true)
    ensures p.canon == Some(o.canon) && o.version == NewVersion(ListVersions(view.snap, q))
  {
    hide CheckCandidates, FindEqual, HitVersion, SchemaIdOf, ConfigInScope, ModeInScope, PickId;
  }

  lemma RegistrationChecks(env: Env, view: View, s: Slice, q: Qualified, p: Prepared, o: Outcome, level: Level,
                           slot: Slot)
    requires SeesOn(view, s, q.ctx) && BodiesStored(s) && WithoutRefs(s, q.subject)
    requires Settle(env, view, q, p) == Success(o) && o.Fresh? && o.canon.deps == []
    requires ModeInScope(view.snap, q) != Mode.Import && LevelIs(env, view.snap, q, level) && Transitive(level)
    requires slot in s.versions && slot.subject == q.subject
    ensures slot.version < o.version
    ensures LiveSlot(s, slot) ==> Compatible(env, level, Plain(o.canon.content), Plain(ContentAt(s, slot)))
  {
    hide SeesOn, Settle, CheckCandidates, Compatible, ConfigInScope, ModeInScope;
    var vs := ListVersions(view.snap, q);
    var e := Entry(slot.version, s.versions[slot]);
    SettledIsChecked(env, view, q, p, o);
    ListedAreRows(view, s, q);
    assert e in vs;
    if LiveSlot(s, slot) {
      LiveOnesOf(vs);
      NewestFirstOf(LiveOnes(vs));
      CheckedAgainstLive(env, view, q, ConfigInScope(env, view.snap, q), o.canon, NewestFirst(LiveOnes(vs)), level, e);
      BodySeen(view, s, q.ctx, e.rec.id);
    }
  }

  lemma BodySeen(view: View, s: Slice, ctx: string, id: nat)
    requires SeesOn(view, s, ctx)
    ensures Body(view, ctx, id) == Lookup(s.schemas, id)
  {
  }

  /** A registration sent without references, to a subject without any, stores none. */
  lemma StoresNoRefs(env: Env, view: View, s: Slice, q: Qualified, d: Draft, normalize: bool)
    requires SeesOn(view, s, q.ctx) && BodiesStored(s) && WithoutRefs(s, q.subject) && d.refs == []
    ensures var p := Prepare(env, view, q, d, normalize);
            p.Success? && p.value.canon.Some? ==>
              p.value.canon.value.deps == [] && p.value.canon.value.content.refs == []
  {
    hide SeesOn, ConfigInScope, ModeInScope, CollectRef, BodiesStored, WithoutRefs, ListVersions, NewestFirst, LiveOnes;
    NewestHasNoRefs(view, s, q);
  }

  lemma NewestHasNoRefs(view: View, s: Slice, q: Qualified)
    requires SeesOn(view, s, q.ctx) && BodiesStored(s) && WithoutRefs(s, q.subject)
    ensures var live := NewestFirst(LiveOnes(ListVersions(view.snap, q)));
            && (live != [] ==> Body(view, q.ctx, live[0].rec.id).Some?
                               && Body(view, q.ctx, live[0].rec.id).value.content.refs == [])
  {
    hide SeesOn, ListVersions, NewestFirst, LiveOnes;
    var live := NewestFirst(LiveOnes(ListVersions(view.snap, q)));
    if live != [] {
      ListedAreRows(view, s, q);
      LiveOnesOf(ListVersions(view.snap, q));
      NewestFirstOf(LiveOnes(ListVersions(view.snap, q)));
      assert live[0] in live;
      var slot := Slot(q.subject, live[0].version);
      BodySeen(view, s, q.ctx, live[0].rec.id);
      assert ContentAt(s, slot).refs == [];
    }
  }

  // ---------------- the invariant ----------------

  ghost predicate Keeps(env: Env, level: Level, s: Slice, subject: string) {
    BodiesStored(s) && WithoutRefs(s, subject) && Chain(env, level, s, subject)
  }

  /** Dropping and hiding versions, and touching other subjects, keeps the chain. */
  lemma FewerKeeps(env: Env, view: View, level: Level, s: Slice, s': Slice, m: Move, subject: string)
    requires Sound(s) && Sound(s') && IsMove(view, s, s', m) && Keeps(env, level, s, subject)
    requires m.Recording? ==> m.q.subject != subject
    ensures Keeps(env, level, s', subject)
  {
    hide Compatible;
    forall slot | slot in s'.versions && slot.subject == subject
      ensures slot in s.versions && ContentAt(s', slot) == ContentAt(s, slot)
              && (LiveSlot(s', slot) ==> LiveSlot(s, slot))
    {
      KeptContent(view, s, s', m, slot);
    }
  }

  lemma KeptContent(view: View, s: Slice, s': Slice, m: Move, slot: Slot)
    requires Sound(s) && Sound(s') && IsMove(view, s, s', m) && slot in s'.versions
    requires m.Recording? ==> slot != Slot(m.q.subject, m.version)
    ensures slot in s.versions && s'.versions[slot].id == s.versions[slot].id
            && (LiveSlot(s', slot) ==> LiveSlot(s, slot))
    ensures ContentAt(s', slot) == ContentAt(s, slot)
  {
    var id := s'.versions[slot].id;
    assert slot in s.versions && s.versions[slot].id == id;
    assert Held(s, id) && Held(s', id);
    MoveKeepsContent(view, s, s', m, id);
  }

  lemma RecordingKeeps(env: Env, view: View, level: Level, s: Slice, s': Slice, m: Move, subject: string)
    requires Sound(s) && Sound(s') && IsMove(view, s, s', m) && Keeps(env, level, s, subject)
    requires m.Recording? && m.q.subject == subject && m.c.refs == []
    requires forall slot | slot in s.versions && slot.subject == subject ::
               && slot.version < m.version
               && (LiveSlot(s, slot) ==> Compatible(env, level, Plain(m.c), Plain(ContentAt(s, slot))))
    ensures Keeps(env, level, s', subject)
  {
    hide Compatible;
    var added := Slot(subject, m.version);
    assert ContentAt(s', added) == m.c;
    forall slot | slot in s'.versions && slot.subject == subject && slot != added
      ensures slot in s.versions && ContentAt(s', slot) == ContentAt(s, slot)
              && (LiveSlot(s', slot) ==> LiveSlot(s, slot))
    {
      KeptContent(view, s, s', m, slot);
    }
  }

  /** What is asked of each command, in the state it runs in. */
  predicate Admits(env: Env, reg: Reg, c: Command, q: Qualified, level: Level) {
    c.verb.Register? && c.verb.q == q ==>
      LevelIs(env, reg.snap, q, level) && c.verb.draft.id < 0 && c.verb.draft.refs == []
  }

  predicate AdmitsAll(env: Env, reg: Reg, cs: seq<Command>, q: Qualified, level: Level)
    decreases cs
  {
    cs == [] || (Admits(env, reg, cs[0], q, level) && AdmitsAll(env, Step(env, reg, cs[0]), cs[1..], q, level))
  }

  /** A registration that is let through without an id is not an import. */
  lemma GateRefusesImport(env: Env, view: View, verb: Verb)
    requires verb.Register? && verb.draft.id < 0 && Decide(env, view, verb).Success?
    ensures ModeInScope(view.snap, verb.q) == Readwrite
  {
    hide PlanOf, ModeInScope;
  }

  lemma StepKeepsChain(env: Env, reg: Reg, c: Command, q: Qualified, level: Level)
    requires Good(reg) && Transitive(level) && Keeps(env, level, At(reg, q.ctx), q.subject)
             && Admits(env, reg, c, q, level)
    ensures Keeps(env, level, At(Step(env, reg, c), q.ctx), q.subject)
  {
    hide Represents, IsMove, Step, StepMove, Keeps, Sound;
    var s, s', m := At(reg, q.ctx), At(Step(env, reg, c), q.ctx), StepMove(env, reg, c, q.ctx);
    assert Sound(SliceOf(reg.rows, q.ctx));
    StepKeepsGood(env, reg, c);
    assert Sound(SliceOf(Step(env, reg, c).rows, q.ctx));
    StepMoves(env, reg, c, q.ctx);
    if m.Recording? && m.q.subject == q.subject {
      RecordedIsChecked(env, reg, c, q, level);
      RecordingKeeps(env, ViewOf(reg, c), level, s, s', m, q.subject);
    } else {
      FewerKeeps(env, ViewOf(reg, c), level, s, s', m, q.subject);
    }
  }

  lemma RecordedIsChecked(env: Env, reg: Reg, c: Command, q: Qualified, level: Level)
    requires Good(reg) && Transitive(level) && Keeps(env, level, At(reg, q.ctx), q.subject)
             && Admits(env, reg, c, q, level)
    requires var m := StepMove(env, reg, c, q.ctx); m.Recording? && m.q.subject == q.subject
    ensures var m, s := StepMove(env, reg, c, q.ctx), At(reg, q.ctx);
            && m.c.refs == []
            && forall slot | slot in s.versions && slot.subject == q.subject ::
                 && slot.version < m.version
                 && (LiveSlot(s, slot) ==> Compatible(env, level, Plain(m.c), Plain(ContentAt(s, slot))))
  {
    hide Represents, Settle, Prepare, PlanOf, SeesOn, Compatible, LevelIs, Decide, Chain, WithoutRefs, Transitive,
      ModeInScope;
    var view, verb, s := ViewOf(reg, c), c.verb, At(reg, q.ctx);
    assert verb.Register? && verb.q == q;
    GateRefusesImport(env, view, verb);
    ViewSeesEach(reg, c, q.ctx);
    var p := Prepare(env, view, q, verb.draft, verb.normalize).value;
    var o := Settle(env, view, q, p).value;
    StoresNoRefs(env, view, s, q, verb.draft, verb.normalize);
    SettledIsChecked(env, view, q, p, o);
    forall slot | slot in s.versions && slot.subject == q.subject
      ensures slot.version < o.version
      ensures LiveSlot(s, slot) ==> Compatible(env, level, Plain(o.canon.content), Plain(ContentAt(s, slot)))
    {
      RegistrationChecks(env, view, s, q, p, o, level, slot);
    }
  }

  lemma {:induction false} RunKeepsChain(env: Env, reg: Reg, cs: seq<Command>, q: Qualified, level: Level)
    requires Good(reg) && Transitive(level) && Keeps(env, level, At(reg, q.ctx), q.subject)
             && AdmitsAll(env, reg, cs, q, level)
    ensures Keeps(env, level, At(Run(env, reg, cs), q.ctx), q.subject)
    decreases cs
  {
    if cs != [] {
      hide Good, Step, Keeps, Admits, Transitive;
      StepKeepsGood(env, reg, cs[0]);
      StepKeepsChain(env, reg, cs[0], q, level);
      RunKeepsChain(env, Step(env, reg, cs[0]), cs[1..], q, level);
    }
  }

  /** A subject without versions keeps every promise. */
  lemma NoVersionsKeep(env: Env, level: Level, s: Slice, subject: string)
    requires BodiesStored(s) && forall slot | slot in s.versions :: slot.subject != subject
    ensures Keeps(env, level, s, subject)
  {
  }

  /**
   The promise: after any run that leaves the subject without versions, its
   registrations see the level, however it was set and whatever else is done.
   */
  lemma TransitiveLevelsHoldPairwise(env: Env, before: seq<Command>, cs: seq<Command>, q: Qualified, level: Level,
                                     older: Slot, newer: Slot)
    requires Transitive(level) && AdmitsAll(env, Run(env, EMPTY_REG, before), cs, q, level)
    requires forall slot | slot in At(Run(env, EMPTY_REG, before), q.ctx).versions :: slot.subject != q.subject
    requires var s := At(Run(env, EMPTY_REG, before + cs), q.ctx);
             LiveSlot(s, older) && LiveSlot(s, newer) && older.subject == q.subject == newer.subject
               && older.version < newer.version
    ensures var s := At(Run(env, EMPTY_REG, before + cs), q.ctx);
            && BodiesStored(s)
            && (ReadsBack(level) ==> env.canRead(Plain(ContentAt(s, newer)), Plain(ContentAt(s, older))))
            && (ReadsAhead(level) ==> env.canRead(Plain(ContentAt(s, older)), Plain(ContentAt(s, newer))))
  {
    hide AdmitsAll, Good, Run, Transitive;
    var reg := Run(env, EMPTY_REG, before);
    EmptyIsGood();
    RunKeepsGood(env, EMPTY_REG, before);
    RunInTwo(env, EMPTY_REG, before, cs);
    SoundThere(reg, q.ctx);
    NoVersionsKeep(env, level, At(reg, q.ctx), q.subject);
    RunKeepsChain(env, reg, cs, q, level);
  }

  lemma SoundThere(reg: Reg, ctx: string)
    requires Good(reg)
    ensures BodiesStored(At(reg, ctx))
  {
    assert Sound(SliceOf(reg.rows, ctx));
  }
}
