/**
 One id per content: on runs without imports, a context never holds the same
 content under two ids, and registering content that is still held reuses its
 id. The id travels through a signed 32-bit integer on the way, so this is so
 exactly until content is registered again that is held under an id of 2^31
 or more.
 */
module Deduplication {
  import opened Wrappers
  import opened RegistryTypes
  import opened Store
  import opened Snapshot
  import opened Agreement
  import opened Verbs
  import opened Effects
  import opened Moves
  import opened Steps
  import opened Registry
  import Compatibility
  import Reclamation

  /** The fingerprint index maps the content of every held id to that id. */
  predicate Indexed(s: Slice) {
    forall slot | slot in s.versions :: IsIndexed(s, s.versions[slot].id)
  }

  predicate IsIndexed(s: Slice, id: nat) {
    id in s.schemas && Lookup(s.fingerprints, s.schemas[id].content) == Some(id)
  }

  predicate HoldsContent(s: Slice, id: nat, content: Content) {
    Held(s, id) && id in s.schemas && s.schemas[id].content == content
  }

  /** A registration that names an id is an import. */
  predicate NoImport(verb: Verb) {
    verb.Register? ==> verb.draft.id < 0
  }

  lemma HeldOnce(s: Slice, a: nat, b: nat, content: Content)
    requires Indexed(s) && HoldsContent(s, a, content) && HoldsContent(s, b, content)
    ensures a == b
  {
    assert IsIndexed(s, a) && IsIndexed(s, b);
  }

  /** The content hash finds whatever is still held, and nothing else. */
  lemma HashLookupFinds(view: View, s: Slice, q: Qualified, content: Content)
    requires SeesOn(view, s, q.ctx) && Indexed(s)
    ensures var hit := HashLookup(view.snap, q, content);
            && (hit.Some? ==> Held(s, hit.value.0))
            && (forall id: nat | HoldsContent(s, id, content) :: hit.Some? && hit.value.0 == id)
  {
    var id := IdForContent(view.snap, q.ctx, content);
    if id.Some? {
      assert UsagesOf(Ctx(view.snap, q.ctx), id.value) == Holders(s, id.value);
      if IdUsages(view.snap, q.ctx, id.value) != {} {
        var u :| u in Holders(s, id.value);
        assert Held(s, id.value);
      }
    }
    forall any: nat | HoldsContent(s, any, content)
      ensures id == Some(any) && IdUsages(view.snap, q.ctx, any) != {}
    {
      var slot :| slot in s.versions && s.versions[slot].id == any;
      assert IsIndexed(s, any);
      assert slot in Holders(s, any);
      assert UsagesOf(Ctx(view.snap, q.ctx), any) == Holders(s, any);
    }
  }

  /** Content that is held is stored under the id that holds it exactly if that id survives the cast to 32 bits. */
  lemma ReusesHeldIdIff(env: Env, view: View, s: Slice, q: Qualified, p: Prepared, o: Outcome)
    requires SeesOn(view, s, q.ctx) && Sound(s) && Indexed(s)
    requires p.draft.id < 0 && Settle(env, view, q, p) == Success(o) && o.Fresh?
    ensures forall id: nat | HoldsContent(s, id, o.canon.content) :: o.id == id <==> id < I32_LIMIT
  {
    hide SeesOn, Settle, Sound, HashLookup, Indexed;
    SettledFacts(env, view, s, q, p, o);
    HashLookupFinds(view, s, q, o.canon.content);
    forall id: nat | HoldsContent(s, id, o.canon.content)
      ensures o.id == id <==> id < I32_LIMIT
    {
      HeldIsBelow(s, id);
      assert SchemaIdOf(view.snap, q, p) == AsI32(id);
    }
  }

  /** Ids of 32 bits survive the cast, or come out negative. */
  lemma SurvivesCast(id: nat)
    requires id < 0x1_0000_0000
    ensures if id < I32_LIMIT then AsI32(id) == id else AsI32(id) < 0
  {
  }

  /** Content that nothing holds is never given an id that was taken, whatever the index still says of it. */
  lemma UnheldGetsNewId(env: Env, view: View, s: Slice, q: Qualified, p: Prepared, o: Outcome)
    requires SeesOn(view, s, q.ctx) && Sound(s) && NextIdOf(s) <= 0x1_0000_0000
    requires p.draft.id < 0 && Settle(env, view, q, p) == Success(o) && o.Fresh?
    requires forall id: nat :: !HoldsContent(s, id, o.canon.content)
    ensures o.id == NextIdOf(s)
  {
    hide SeesOn, Settle, Sound, HashLookup;
    SettledFacts(env, view, s, q, p, o);
    var hit := HashLookup(view.snap, q, o.canon.content);
    if hit.Some? {
      HitIsHeld(view, s, q, o.canon.content);
      HeldIsBelow(s, hit.value.0);
      SurvivesCast(hit.value.0);
      BodyOfHeld(s, hit.value.0);
      assert SchemaIdOf(view.snap, q, p) == AsI32(hit.value.0) && !HoldsContent(s, hit.value.0, o.canon.content);
    }
  }

  lemma HitIsHeld(view: View, s: Slice, q: Qualified, content: Content)
    requires SeesOn(view, s, q.ctx) && HashLookup(view.snap, q, content).Some?
    ensures Held(s, HashLookup(view.snap, q, content).value.0)
  {
    var id := IdForContent(view.snap, q.ctx, content).value;
    assert UsagesOf(Ctx(view.snap, q.ctx), id) == Holders(s, id);
    var u :| u in Holders(s, id);
  }

  lemma BodyOfHeld(s: Slice, id: nat)
    requires Sound(s) && Held(s, id)
    ensures id in s.schemas
  {
  }

  /** A registration takes the next id exactly if no id that survives the cast holds its content. */
  lemma TakesNewIdIff(env: Env, view: View, s: Slice, q: Qualified, p: Prepared, o: Outcome)
    requires SeesOn(view, s, q.ctx) && Sound(s) && Indexed(s) && NextIdOf(s) <= 0x1_0000_0000
    requires p.draft.id < 0 && Settle(env, view, q, p) == Success(o) && o.Fresh?
    ensures o.id == NextIdOf(s) <==> forall id: nat | HoldsContent(s, id, o.canon.content) :: id >= I32_LIMIT
  {
    hide SeesOn, Settle, Sound, HashLookup, Indexed;
    if id: nat :| HoldsContent(s, id, o.canon.content) {
      HeldIsBelow(s, id);
      SurvivesCast(id);
      HashLookupFinds(view, s, q, o.canon.content);
      SettledFacts(env, view, s, q, p, o);
    } else {
      UnheldGetsNewId(env, view, s, q, p, o);
    }
  }

  lemma HeldIsBelow(s: Slice, id: nat)
    requires Sound(s) && Held(s, id)
    ensures id < NextIdOf(s)
  {
  }

  lemma PreparedKeepsId(env: Env, view: View, q: Qualified, d: Draft, normalize: bool)
    ensures var p := Prepare(env, view, q, d, normalize);
            p.Success? ==> p.value.draft.id == d.id && p.value.draft.version == d.version
  {
    hide Canonicalize, ConfigInScope;
  }

  lemma RecordingKeepsIndexedIff(view: View, s: Slice, s': Slice, m: Move)
    requires Sound(s) && Indexed(s) && m.Recording? && IsMove(view, s, s', m)
    requires forall id: nat | HoldsContent(s, id, m.c) :: m.id == id <==> id < I32_LIMIT
    requires Slot(m.q.subject, m.version) !in s.versions
             && forall slot | slot in m.gone :: slot in s.versions && s.versions[slot].id == m.id
    ensures Indexed(s') <==> forall id | id in s.schemas && HoldsContent(s, id, m.c) :: id < I32_LIMIT
  {
    if forall id | id in s.schemas && HoldsContent(s, id, m.c) :: id < I32_LIMIT {
      forall slot | slot in s'.versions
        ensures IsIndexed(s', s'.versions[slot].id)
      {
        var id := s'.versions[slot].id;
        if id != m.id {
          assert slot in s.versions && s.versions[slot].id == id && slot in Holders(s, id);
          assert IsIndexed(s, id) && Held(s, id);
          assert !HoldsContent(s, id, m.c);
        }
      }
    } else {
      var id :| id in s.schemas && HoldsContent(s, id, m.c) && id >= I32_LIMIT;
      var slot :| slot in s.versions && s.versions[slot].id == id;
      assert slot in Holders(s, id);
      assert slot in s'.versions && s'.versions[slot].id == id;
      assert Lookup(s'.fingerprints, m.c) == Some(m.id) && s'.schemas[id].content == m.c;
      assert !IsIndexed(s', id);
    }
  }

  lemma OtherMovesKeepIndexed(view: View, s: Slice, s': Slice, m: Move)
    requires Sound(s) && Indexed(s) && !m.Recording? && IsMove(view, s, s', m)
    ensures Indexed(s')
  {
    forall slot | slot in s'.versions
      ensures IsIndexed(s', s'.versions[slot].id)
    {
      assert IsIndexed(s, s.versions[slot].id);
      assert slot in Holders(s, s.versions[slot].id);
    }
  }

  /** What a registration without an id records, and what it removes. */
  lemma RecordsIff(env: Env, reg: Reg, c: Command, ctx: string)
    requires Good(reg) && Indexed(At(reg, ctx)) && NoImport(c.verb)
    ensures var s, m := At(reg, ctx), StepMove(env, reg, c, ctx);
            m.Recording? ==>
              && (forall id: nat | HoldsContent(s, id, m.c) :: m.id == id <==> id < I32_LIMIT)
              && Slot(m.q.subject, m.version) !in s.versions
              && (forall slot | slot in m.gone :: slot in s.versions && s.versions[slot].id == m.id)
  {
    hide Represents, SeesOn, Settle, Prepare, Indexed, HoldsContent, Sound, Decide;
    var view, verb := ViewOf(reg, c), c.verb;
    var s, m := At(reg, ctx), StepMove(env, reg, c, ctx);
    if m.Recording? && verb.Register? {
      var q, p := verb.q, Prepare(env, view, verb.q, verb.draft, verb.normalize);
      PreparedKeepsId(env, view, q, verb.draft, verb.normalize);
      ViewSeesEach(reg, c, ctx);
      assert Sound(SliceOf(reg.rows, ctx));
      var o := Settle(env, view, q, p.value).value;
      ReusesHeldIdIff(env, view, s, q, p.value, o);
      SettledFacts(env, view, s, q, p.value, o);
      Compatibility.GateRefusesImport(env, view, verb);
      NewVersionIsFree(view, s, q);
      RemovesOwnId(view, s, q, m.version, m.id);
    }
  }

  lemma NewVersionIsFree(view: View, s: Slice, q: Qualified)
    requires SeesOn(view, s, q.ctx)
    ensures Slot(q.subject, NewVersion(ListVersions(view.snap, q))) !in s.versions
  {
    ListedAreRows(view, s, q);
    assert forall e | e in ListVersions(view.snap, q) :: e.version < NewVersion(ListVersions(view.snap, q));
  }

  /** Under a version number that is free, only rows of the same id are cleared away. */
  lemma RemovesOwnId(view: View, s: Slice, q: Qualified, version: nat, id: nat)
    requires SeesOn(view, s, q.ctx) && Slot(q.subject, version) !in s.versions
    ensures forall slot | slot in Gone(Replaced(view, q, version), q.ctx) + Gone(Stale(view, q, version, id), q.ctx) ::
              slot in s.versions && s.versions[slot].id == id
  {
    hide SeesOn;
    ReplacedAndStale(view, s, q, version, id);
    forall slot | slot in Gone(Replaced(view, q, version), q.ctx) + Gone(Stale(view, q, version, id), q.ctx)
      ensures slot in s.versions && s.versions[slot].id == id
    {
      if slot in Gone(Stale(view, q, version, id), q.ctx) {
        Reclamation.StaleHold(view, s, q, version, id, slot);
      }
    }
  }

  /** Registers content that is held under an id the cast does not keep. */
  predicate Splits(env: Env, reg: Reg, c: Command, ctx: string) {
    var s, m := At(reg, ctx), StepMove(env, reg, c, ctx);
    m.Recording? && !forall id | id in s.schemas && HoldsContent(s, id, m.c) :: id < I32_LIMIT
  }

  /** The index stays exact over a step without import exactly if the step does not split an id. */
  lemma StepIndexedIff(env: Env, reg: Reg, c: Command, ctx: string)
    requires Good(reg) && Indexed(At(reg, ctx)) && NoImport(c.verb)
    ensures Indexed(At(Step(env, reg, c), ctx)) <==> !Splits(env, reg, c, ctx)
  {
    hide Represents, IsMove, StepMove, Step, Indexed, HoldsContent, Sound;
    var m := StepMove(env, reg, c, ctx);
    assert Sound(SliceOf(reg.rows, ctx));
    StepMoves(env, reg, c, ctx);
    RecordsIff(env, reg, c, ctx);
    if m.Recording? {
      RecordingKeepsIndexedIff(ViewOf(reg, c), At(reg, ctx), At(Step(env, reg, c), ctx), m);
    } else {
      OtherMovesKeepIndexed(ViewOf(reg, c), At(reg, ctx), At(Step(env, reg, c), ctx), m);
    }
  }

  predicate NeverSplits(env: Env, reg: Reg, cs: seq<Command>, ctx: string)
    decreases cs
  {
    cs == [] || (!Splits(env, reg, cs[0], ctx) && NeverSplits(env, Step(env, reg, cs[0]), cs[1..], ctx))
  }

  predicate AlwaysIndexed(env: Env, reg: Reg, cs: seq<Command>, ctx: string)
    decreases cs
  {
    Indexed(At(reg, ctx)) && (cs == [] || AlwaysIndexed(env, Step(env, reg, cs[0]), cs[1..], ctx))
  }

  /** Over every run without imports: the index is exact in every state passed exactly if no command splits an id. */
  lemma {:induction false} RunIndexedIff(env: Env, reg: Reg, cs: seq<Command>, ctx: string)
    requires Good(reg) && Indexed(At(reg, ctx)) && forall c | c in cs :: NoImport(c.verb)
    ensures AlwaysIndexed(env, reg, cs, ctx) <==> NeverSplits(env, reg, cs, ctx)
    decreases cs
  {
    if cs != [] {
      hide Good, Step, Indexed, NoImport, Splits;
      StepKeepsGood(env, reg, cs[0]);
      StepIndexedIff(env, reg, cs[0], ctx);
      if Splits(env, reg, cs[0], ctx) {
        assert !AlwaysIndexed(env, Step(env, reg, cs[0]), cs[1..], ctx);
      } else {
        assert forall x | x in cs[1..] :: x in cs;
        RunIndexedIff(env, Step(env, reg, cs[0]), cs[1..], ctx);
      }
    }
  }

  /** Through any run without imports that ends with the id counter at 2^31 or less. */
  lemma {:induction false} RunKeepsIndexed(env: Env, reg: Reg, cs: seq<Command>, ctx: string)
    requires Good(reg) && Indexed(At(reg, ctx)) && forall c | c in cs :: NoImport(c.verb)
    requires NextIdOf(At(Run(env, reg, cs), ctx)) <= I32_LIMIT
    ensures Indexed(At(Run(env, reg, cs), ctx))
    decreases cs
  {
    if cs != [] {
      hide Good, Step, Indexed, NoImport;
      CounterNeverFalls(env, reg, cs, ctx);
      StepKeepsGood(env, reg, cs[0]);
      LowIdsNeverSplit(env, reg, cs[0], ctx);
      StepIndexedIff(env, reg, cs[0], ctx);
      assert forall x | x in cs[1..] :: x in cs;
      RunKeepsIndexed(env, Step(env, reg, cs[0]), cs[1..], ctx);
    }
  }

  lemma LowIdsNeverSplit(env: Env, reg: Reg, c: Command, ctx: string)
    requires Good(reg) && NextIdOf(At(reg, ctx)) <= I32_LIMIT
    ensures !Splits(env, reg, c, ctx)
  {
    hide StepMove, Represents;
    assert Sound(SliceOf(reg.rows, ctx));
  }

  /** The same content is never held under two ids. */
  lemma ContentIsHeldOnce(env: Env, cs: seq<Command>, ctx: string, a: nat, b: nat, content: Content)
    requires (forall c | c in cs :: NoImport(c.verb)) && NextIdOf(At(Run(env, EMPTY_REG, cs), ctx)) <= I32_LIMIT
    requires HoldsContent(At(Run(env, EMPTY_REG, cs), ctx), a, content)
             && HoldsContent(At(Run(env, EMPTY_REG, cs), ctx), b, content)
    ensures a == b && IdForContent(Run(env, EMPTY_REG, cs).snap, ctx, content) == Some(a)
  {
    EmptyIsGood();
    RunKeepsGood(env, EMPTY_REG, cs);
    RunKeepsIndexed(env, EMPTY_REG, cs, ctx);
    var reg := Run(env, EMPTY_REG, cs);
    HeldOnce(At(reg, ctx), a, b, content);
    assert IsIndexed(At(reg, ctx), a);
    assert RepresentsOn(reg.snap, SliceOf(reg.rows, ctx), ctx);
  }

  /**
   Content whose body has been reclaimed does not get its old id back: over
   any run, imports included, an id that was once stored or held is not the
   one a later registration gives to content that nothing holds.
   */
  lemma ReclaimedContentGetsNewId(env: Env, before: seq<Command>, after: seq<Command>, c: Command, ctx: string, id: nat)
    requires var s := At(Run(env, EMPTY_REG, before), ctx); id in s.schemas || Held(s, id)
    requires NoImport(c.verb) && NextIdOf(At(Run(env, EMPTY_REG, before + after), ctx)) <= 0x1_0000_0000
    requires var reg := Run(env, EMPTY_REG, before + after);
             var m := StepMove(env, reg, c, ctx);
             m.Recording? && forall any: nat :: !HoldsContent(At(reg, ctx), any, m.c)
    ensures var reg := Run(env, EMPTY_REG, before + after);
            var m := StepMove(env, reg, c, ctx);
            m.id == NextIdOf(At(reg, ctx)) && m.id > id
  {
    hide Good, Run, StepMove;
    var reg := Run(env, EMPTY_REG, before + after);
    EmptyIsGood();
    RunKeepsGood(env, EMPTY_REG, before + after);
    RecordsNewId(env, reg, c, ctx);
    IdsAreNeverReused(env, before, after, ctx, id);
    CounterIsSeen(reg, ctx);
  }

  lemma CounterIsSeen(reg: Reg, ctx: string)
    requires Good(reg)
    ensures NextId(reg.snap, ctx) == NextIdOf(At(reg, ctx))
  {
    assert RepresentsOn(reg.snap, SliceOf(reg.rows, ctx), ctx);
  }

  lemma RecordsNewId(env: Env, reg: Reg, c: Command, ctx: string)
    requires Good(reg) && NoImport(c.verb) && NextIdOf(At(reg, ctx)) <= 0x1_0000_0000
    requires var m := StepMove(env, reg, c, ctx);
             m.Recording? && forall any: nat :: !HoldsContent(At(reg, ctx), any, m.c)
    ensures StepMove(env, reg, c, ctx).id == NextIdOf(At(reg, ctx))
  {
    hide Represents, SeesOn, Settle, Prepare, HoldsContent, Sound, Decide;
    var view, verb := ViewOf(reg, c), c.verb;
    var s, m := At(reg, ctx), StepMove(env, reg, c, ctx);
    if verb.Register? {
      var q, p := verb.q, Prepare(env, view, verb.q, verb.draft, verb.normalize);
      PreparedKeepsId(env, view, q, verb.draft, verb.normalize);
      ViewSeesEach(reg, c, ctx);
      assert Sound(SliceOf(reg.rows, ctx));
      UnheldGetsNewId(env, view, s, q, p.value, Settle(env, view, q, p.value).value);
    }
  }

  /** A version that a registration adds with content that was held carries the id that held it, unless it splits. */
  lemma HeldContentKeepsItsId(env: Env, reg: Reg, c: Command, ctx: string, id: nat, slot: Slot)
    requires Good(reg) && Indexed(At(reg, ctx)) && NoImport(c.verb) && !Splits(env, reg, c, ctx)
    requires Held(At(reg, ctx), id) && slot in At(Step(env, reg, c), ctx).versions
    ensures var s, s' := At(reg, ctx), At(Step(env, reg, c), ctx);
            var id' := s'.versions[slot].id;
            && id in s.schemas && id' in s'.schemas
            && (s'.schemas[id'].content == s.schemas[id].content ==> id' == id)
  {
    hide Good, StepMove, Step, Indexed;
    var s, s', m := At(reg, ctx), At(Step(env, reg, c), ctx), StepMove(env, reg, c, ctx);
    SoundAt(reg, ctx);
    StepKeepsGood(env, reg, c);
    SoundAt(Step(env, reg, c), ctx);
    StepMoves(env, reg, c, ctx);
    RecordsIff(env, reg, c, ctx);
    var id' := s'.versions[slot].id;
    if !m.Recording? || id' != m.id {
      assert slot in s.versions && s.versions[slot].id == id';
      MoveKeepsContent(ViewOf(reg, c), s, s', m, id');
      if s'.schemas[id'].content == s.schemas[id].content {
        HeldOnce(s, id, id', s.schemas[id].content);
      }
    } else {
      assert s'.schemas[id'].content == m.c;
      assert s.schemas[id].content == m.c ==> HoldsContent(s, id, m.c);
    }
  }
}
