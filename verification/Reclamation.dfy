/**
 A schema's content goes with the last version that holds it. The one way to
 strand a body is a mode change that purges several subjects at once, and
 takes all the holders of an id that more than one of them shares: then each
 of them counts the others as still using it.
 */
module Reclamation {
  import opened Wrappers
  import opened RegistryTypes
  import opened Store
  import opened Snapshot
  import opened Agreement
  import opened Verbs
  import opened Effects
  import opened Moves
  import opened Steps
  import opened Registry

  predicate NoOrphans(s: Slice) {
    forall id | id in s.schemas :: Held(s, id)
  }

  /** Versions of more than one subject hold the id. */
  predicate Shared(s: Slice, id: nat) {
    exists a, b | a in Holders(s, id) && b in Holders(s, id) :: a.subject != b.subject
  }

  /** Removing `gone` takes every holder of a shared id. */
  predicate Strands(s: Slice, gone: set<Slot>, id: nat) {
    Holders(s, id) <= gone && Shared(s, id)
  }

  /** The last holder of an id frees it, unless another subject held it too. */
  lemma LastHolderFrees(view: View, s: Slice, ctx: string, doomed: seq<Doomed>, also: set<Slot>, id: nat)
    requires SeesOn(view, s, ctx) && Rooted(doomed, s, ctx) && id in s.schemas && Held(s, id)
    requires !Shared(s, id) && Holders(s, id) <= Gone(doomed, ctx)
    requires forall u | u in Holders(s, id) :: u in also || forall v | v in Holders(s, id) :: v == u
    ensures id in Freed(view, doomed, also, ctx)
  {
    var slot :| slot in s.versions && s.versions[slot].id == id;
    assert slot in Holders(s, id);
    var d :| d in doomed && d.q.ctx == ctx && SlotOf(d) == slot;
    assert UsagesOf(Ctx(view.snap, ctx), id) == Holders(s, id);
    assert Body(view, ctx, id) == Lookup(s.schemas, id);
    forall u | u in IdUsages(view.snap, ctx, id)
      ensures u.subject == d.q.subject && (u.version == d.version || u in also)
    {
      assert u in Holders(s, id) && !(u.subject != slot.subject);
    }
    assert Frees(view, d, also);
  }

  /** Where two subjects share an id, neither frees it. */
  lemma SharedIsNotFreed(view: View, s: Slice, ctx: string, doomed: seq<Doomed>, also: set<Slot>, id: nat)
    requires SeesOn(view, s, ctx) && Rooted(doomed, s, ctx) && Shared(s, id)
    ensures id !in Freed(view, doomed, also, ctx)
  {
    var a, b :| a in Holders(s, id) && b in Holders(s, id) && a.subject != b.subject;
    assert UsagesOf(Ctx(view.snap, ctx), id) == Holders(s, id);
    forall d | d in doomed && d.q.ctx == ctx && d.rec.id == id
      ensures !Frees(view, d, also)
    {
      assert a in IdUsages(view.snap, ctx, id) && b in IdUsages(view.snap, ctx, id);
    }
  }

  /** After a purge an id is stored without a holder exactly if the purge strands it. */
  lemma StrandedIff(view: View, s: Slice, s': Slice, ctx: string, doomed: seq<Doomed>, id: nat)
    requires SeesOn(view, s, ctx) && Rooted(doomed, s, ctx) && NoOrphans(s)
    requires IsMove(view, s, s', PurgeOf(view, doomed, ctx)) && id in s.schemas
    ensures id in s'.schemas && !Held(s', id) <==> Strands(s, Gone(doomed, ctx), id)
  {
    hide SeesOn, Rooted, Shared, Freed;
    if !(Holders(s, id) <= Gone(doomed, ctx)) {
      var slot :| slot in Holders(s, id) && slot !in Gone(doomed, ctx);
      assert slot in s'.versions && s'.versions[slot].id == id;
    } else if Shared(s, id) {
      SharedIsNotFreed(view, s, ctx, doomed, Slots(doomed), id);
      forall slot | slot in s'.versions
        ensures s'.versions[slot].id != id
      {
        assert slot in s.versions && (s.versions[slot].id == id ==> slot in Holders(s, id));
      }
    } else {
      assert Gone(doomed, ctx) <= Slots(doomed);
      LastHolderFrees(view, s, ctx, doomed, Slots(doomed), id);
    }
  }

  lemma PurgeReclaimsIff(view: View, s: Slice, s': Slice, ctx: string, doomed: seq<Doomed>)
    requires SeesOn(view, s, ctx) && Rooted(doomed, s, ctx) && NoOrphans(s)
    requires IsMove(view, s, s', PurgeOf(view, doomed, ctx))
    ensures NoOrphans(s') <==> forall id | id in s.schemas :: !Strands(s, Gone(doomed, ctx), id)
  {
    hide SeesOn, Rooted, Strands, Freed, Held;
    forall id | id in s.schemas
      ensures id in s'.schemas && !Held(s', id) <==> Strands(s, Gone(doomed, ctx), id)
    {
      StrandedIff(view, s, s', ctx, doomed, id);
    }
    assert forall id | id in s'.schemas :: id in s.schemas;
  }

  lemma PurgeLeavesNoOrphans(view: View, s: Slice, s': Slice, ctx: string, q: Qualified, doomed: seq<Doomed>)
    requires SeesOn(view, s, ctx) && Rooted(doomed, s, ctx) && (forall d | d in doomed :: d.q == q)
    requires IsMove(view, s, s', PurgeOf(view, doomed, ctx)) && NoOrphans(s)
    ensures NoOrphans(s')
  {
    hide SeesOn, Rooted, IsMove, NoOrphans, PurgeOf;
    PurgeReclaimsIff(view, s, s', ctx, doomed);
    assert forall slot | slot in Gone(doomed, ctx) :: slot.subject == q.subject;
  }

  lemma RecordingLeavesNoOrphans(view: View, s: Slice, s': Slice, q: Qualified, c: Content, version: nat, id: nat)
    requires SeesOn(view, s, q.ctx) && NoOrphans(s)
    requires IsMove(view, s, s', RecordingOf(view, q, c, version, id))
    ensures NoOrphans(s')
  {
    hide SeesOn, Unheld;
    var replaced, stale := Replaced(view, q, version), Stale(view, q, version, id);
    ReplacedAndStale(view, s, q, version, id);
    var added := Slot(q.subject, version);
    assert s'.versions[added].id == id;
    forall any | any in s'.schemas && any != id
      ensures Held(s', any)
    {
      if Holders(s, any) <= Gone(replaced, q.ctx) {
        assert forall u | u in Gone(replaced, q.ctx) :: u == added;
        assert !Shared(s, any);
        LastHolderFrees(view, s, q.ctx, replaced, {}, any);
      } else {
        var slot :| slot in Holders(s, any) && slot !in Gone(replaced, q.ctx);
        if slot in Gone(stale, q.ctx) {
          StaleHold(view, s, q, version, id, slot);
        }
        assert slot in s'.versions && s'.versions[slot].id == any;
      }
    }
  }

  lemma StaleHold(view: View, s: Slice, q: Qualified, version: nat, id: nat, slot: Slot)
    requires SeesOn(view, s, q.ctx) && slot in Gone(Stale(view, q, version, id), q.ctx)
    ensures slot in s.versions && s.versions[slot].id == id && s.versions[slot].deleted && slot.subject == q.subject
  {
    ReplacedAndStale(view, s, q, version, id);
    var stale := Stale(view, q, version, id);
    var d :| d in stale && d.q.ctx == q.ctx && SlotOf(d) == slot;
    var i :| 0 <= i < |stale| && stale[i] == d;
    var e := StaleOnes(ListVersions(view.snap, q), id, version)[i];
    assert e in StaleOnes(ListVersions(view.snap, q), id, version);
  }

  lemma DoomedOfOneSubject(view: View, s: Slice, ctx: string, q: Qualified, vs: seq<Entry>)
    requires SeesOn(view, s, ctx) && forall e | e in vs :: e in ListVersions(view.snap, q)
    ensures Rooted(DoomAll(q, vs), s, ctx) && forall d | d in DoomAll(q, vs) :: d.q == q
  {
    DoomedAre(q, vs);
    if ctx == q.ctx {
      ListedAreRows(view, s, q);
    }
  }

  lemma MoveLeavesNoOrphans(env: Env, view: View, s: Slice, s': Slice, verb: Verb, ctx: string)
    requires SeesOn(view, s, ctx) && SortedLists(view.snap) && NoOrphans(s) && !verb.ChangeMode?
    requires IsMove(view, s, s', MoveOf(env, view, verb, ctx))
    ensures NoOrphans(s')
  {
    hide SeesOn, Unheld, Recorded, PurgeOf;
    var m := MoveOf(env, view, verb, ctx);
    match verb
    case Register(q, d, normalize) =>
      if m.Recording? {
        RecordingLeavesNoOrphans(view, s, s', q, m.c, m.version, m.id);
      } else {
        SameHolders(s, s');
      }
    case DropSubject(q, permanent) =>
      if permanent {
        DoomedOfOneSubject(view, s, ctx, q, ListVersions(view.snap, q));
        PurgeLeavesNoOrphans(view, s, s', ctx, q, DoomAll(q, ListVersions(view.snap, q)));
      } else {
        HidingKeepsHolders(view, s, s', m);
      }
    case DropVersion(q, spec, permanent) =>
      var e := GetExact(view.snap, q, spec, true);
      if e.None? {
        SameHolders(s, s');
      } else if permanent {
        GetExactIn(view.snap, q, spec, true);
        assert forall x | x in [e.value] :: x == e.value;
        DoomedOfOneSubject(view, s, ctx, q, [e.value]);
        PurgeLeavesNoOrphans(view, s, s', ctx, q, DoomAll(q, [e.value]));
      } else {
        HidingKeepsHolders(view, s, s', m);
      }
    case _ => SameHolders(s, s');
  }

  lemma SameHolders(s: Slice, s': Slice)
    requires NoOrphans(s) && s'.schemas == s.schemas && s'.versions == s.versions
    ensures NoOrphans(s')
  {
    forall id | id in s'.schemas
      ensures Held(s', id)
    {
      var slot :| slot in s.versions && s.versions[slot].id == id;
      assert slot in s'.versions && s'.versions[slot].id == id;
    }
  }

  lemma HidingKeepsHolders(view: View, s: Slice, s': Slice, m: Move)
    requires NoOrphans(s) && m.Hiding? && IsMove(view, s, s', m)
    ensures NoOrphans(s')
  {
    forall id | id in s'.schemas
      ensures Held(s', id)
    {
      var slot :| slot in s.versions && s.versions[slot].id == id;
      assert slot in s'.versions && s'.versions[slot].id == id;
    }
  }

  // ---------------- mode changes ----------------

  /** A shared id in `ctx`, all of whose holders a purge over `target` would take. */
  predicate Tangled(reg: Reg, target: Option<Qualified>, ctx: string, id: nat) {
    && Shared(At(reg, ctx), id)
    && forall u | u in Holders(At(reg, ctx), id) :: Covers(reg.snap, target, Qualified(ctx, u.subject))
  }

  /** The command is a mode change that goes through, purges, and finds a tangled id in `ctx`. */
  predicate Orphans(env: Env, reg: Reg, c: Command, ctx: string) {
    && c.verb.ChangeMode? && Purges(reg.snap, c.verb.target, c.verb.mode, c.verb.force)
    && Decide(env, ViewOf(reg, c), c.verb).Success?
    && exists id | id in At(reg, ctx).schemas :: Tangled(reg, c.verb.target, ctx, id)
  }

  /** What a purge over `target` takes from a context. */
  lemma GoneIs(reg: Reg, c: Command, target: Option<Qualified>, ctx: string)
    requires Good(reg)
    ensures var s, doomed := At(reg, ctx), InScope(reg.snap, target);
            && Rooted(doomed, s, ctx)
            && forall slot :: slot in Gone(doomed, ctx) <==>
                 slot in s.versions && Covers(reg.snap, target, Qualified(ctx, slot.subject))
  {
    hide Good, InScope, SeesOn, Covers, SubjectNames;
    var s, view, doomed := At(reg, ctx), ViewOf(reg, c), InScope(reg.snap, target);
    ViewSeesEach(reg, c, ctx);
    InScopeIs(reg.snap, target);
    forall d | d in doomed && d.q.ctx == ctx
      ensures SlotOf(d) in s.versions && s.versions[SlotOf(d)] == d.rec
              && Covers(reg.snap, target, Qualified(ctx, SlotOf(d).subject))
    {
      ListedAreRows(view, s, d.q);
    }
    forall slot | slot in s.versions && Covers(reg.snap, target, Qualified(ctx, slot.subject))
      ensures slot in Gone(doomed, ctx)
    {
      var d := Doomed(Qualified(ctx, slot.subject), slot.version, s.versions[slot]);
      ListedAreRows(view, s, d.q);
      IsNamed(reg, d.q, Entry(slot.version, d.rec));
      assert d in doomed && SlotOf(d) == slot;
    }
  }

  lemma IsNamed(reg: Reg, q: Qualified, e: Entry)
    requires Good(reg) && e in ListVersions(reg.snap, q)
    ensures q.subject in SubjectNames(reg.snap, q.ctx)
  {
    assert RepresentsOn(reg.snap, SliceOf(reg.rows, q.ctx), q.ctx);
    SubjectsHaveVersions(reg.snap, SliceOf(reg.rows, q.ctx), q.ctx, q.subject);
    assert Qualified(q.ctx, q.subject) == q;
  }

  lemma ModeChangeReclaimsIff(env: Env, reg: Reg, c: Command, ctx: string)
    requires Good(reg) && NoOrphans(At(reg, ctx)) && c.verb.ChangeMode? && Decide(env, ViewOf(reg, c), c.verb).Success?
    ensures NoOrphans(At(Step(env, reg, c), ctx)) <==> !Orphans(env, reg, c, ctx)
  {
    hide Good, NoOrphans, SeesOn, IsMove, Decide, Step, PurgeOf, InScope, Shared, Covers, Purges, Rooted, Gone;
    var view, target := ViewOf(reg, c), c.verb.target;
    var s, s' := At(reg, ctx), At(Step(env, reg, c), ctx);
    StepMoves(env, reg, c, ctx);
    if Purges(view.snap, target, c.verb.mode, c.verb.force) {
      GoneIs(reg, c, target, ctx);
      ViewSeesEach(reg, c, ctx);
      PurgeReclaimsIff(view, s, s', ctx, InScope(view.snap, target));
      forall id | id in s.schemas
        ensures Strands(s, Gone(InScope(view.snap, target), ctx), id) <==> Tangled(reg, target, ctx, id)
      {
      }
    } else {
      StayKeepsHolders(view, s, s');
    }
  }

  lemma StayKeepsHolders(view: View, s: Slice, s': Slice)
    requires NoOrphans(s) && IsMove(view, s, s', Stay)
    ensures NoOrphans(s')
  {
    SameHolders(s, s');
  }

  // ---------------- runs ----------------

  /** Where every stored body has a holder, a step keeps it so exactly if it is not a mode change over a tangled id. */
  lemma StepReclaimsIff(env: Env, reg: Reg, c: Command, ctx: string)
    requires Good(reg) && NoOrphans(At(reg, ctx))
    ensures NoOrphans(At(Step(env, reg, c), ctx)) <==> !Orphans(env, reg, c, ctx)
  {
    hide MoveOf, Good, NoOrphans, SeesOn, IsMove, SortedLists, Decide, Purges, Tangled;
    StepMoves(env, reg, c, ctx);
    ViewSeesEach(reg, c, ctx);
    GoodIsSorted(reg);
    if Decide(env, ViewOf(reg, c), c.verb).Success? {
      if c.verb.ChangeMode? {
        ModeChangeReclaimsIff(env, reg, c, ctx);
      } else {
        MoveLeavesNoOrphans(env, ViewOf(reg, c), At(reg, ctx), At(Step(env, reg, c), ctx), c.verb, ctx);
      }
    }
  }

  predicate NeverOrphans(env: Env, reg: Reg, cs: seq<Command>, ctx: string)
    decreases cs
  {
    cs == [] || (!Orphans(env, reg, cs[0], ctx) && NeverOrphans(env, Step(env, reg, cs[0]), cs[1..], ctx))
  }

  predicate AlwaysHeld(env: Env, reg: Reg, cs: seq<Command>, ctx: string)
    decreases cs
  {
    NoOrphans(At(reg, ctx)) && (cs == [] || AlwaysHeld(env, Step(env, reg, cs[0]), cs[1..], ctx))
  }

  /** Over a whole run every stored body has a holder, in every state passed, exactly if no command orphans one. */
  lemma {:induction false} EveryBodyHasAHolderIff(env: Env, reg: Reg, cs: seq<Command>, ctx: string)
    requires Good(reg) && NoOrphans(At(reg, ctx))
    ensures AlwaysHeld(env, reg, cs, ctx) <==> NeverOrphans(env, reg, cs, ctx)
    decreases cs
  {
    if cs != [] {
      hide Step, Good, NoOrphans, Orphans;
      var c, reg' := cs[0], Step(env, reg, cs[0]);
      StepKeepsGood(env, reg, c);
      StepReclaimsIff(env, reg, c, ctx);
      if !Orphans(env, reg, c, ctx) {
        EveryBodyHasAHolderIff(env, reg', cs[1..], ctx);
      } else {
        assert !AlwaysHeld(env, reg', cs[1..], ctx);
      }
    }
  }

  // ---------------- a body left behind ----------------

  const LEFT_CONTENT := Content(Avro, "\"int\"", [], None, None)
  const LEFT_VERSION := VersionRecord(1, true, 0)
  const LEFT_SLICE := Slice(map[1 := SchemaRecord(LEFT_CONTENT, "")], map[LEFT_CONTENT := 1],
                            map[Slot("a", 1) := LEFT_VERSION, Slot("b", 1) := LEFT_VERSION],
                            {}, Some(2), true, map[], map[])
  const LEFT_CTX := CtxState(map["a" := [Entry(1, LEFT_VERSION)], "b" := [Entry(1, LEFT_VERSION)]],
                             map[1 := {Slot("a", 1), Slot("b", 1)}], map[LEFT_CONTENT := 1], map[], Some(2))

  /** One schema under id 1, held by two soft-deleted subjects. */
  const LEFT_OVER := Reg(Rows(map[DEFAULT_CONTEXT := LEFT_SLICE], None, None),
                         Snap(map[DEFAULT_CONTEXT := LEFT_CTX], {DEFAULT_CONTEXT}, map[], map[]))

  lemma LeftOverIsIndexed()
    ensures Indexes(LEFT_CTX, LEFT_SLICE)
  {
    assert Holders(LEFT_SLICE, 1) == {Slot("a", 1), Slot("b", 1)};
  }

  lemma LeftOverIsGood()
    ensures Good(LEFT_OVER) && NoOrphans(At(LEFT_OVER, DEFAULT_CONTEXT))
  {
    hide Indexes;
    EmptyIsGood();
    LeftOverIsIndexed();
    assert LEFT_SLICE.versions[Slot("a", 1)].id == 1;
    forall ctx: string
      ensures RepresentsOn(LEFT_OVER.snap, SliceOf(LEFT_OVER.rows, ctx), ctx)
    {
      assert RepresentsOn(EMPTY_SNAP, SliceOf(EMPTY_ROWS, ctx), ctx);
    }
  }

  lemma LeftOverGoes(env: Env, c: Command)
    requires c.verb == ChangeMode(None, Mode.Import, false)
    ensures Decide(env, ViewOf(LEFT_OVER, c), c.verb).Success?
  {
    hide Purge, InScope, LiveIn;
    var snap := LEFT_OVER.snap;
    assert !HasAnySubject(snap, false);
    assert forall ctx: string, slot :: ReferencedBy(snap, ctx, slot) == {};
  }

  /** Switching the registry to IMPORT purges both subjects, and leaves the body with nobody. */
  lemma SharedBodyStaysBehind(env: Env, c: Command)
    requires c.verb == ChangeMode(None, Mode.Import, false)
    ensures Good(LEFT_OVER) && NoOrphans(At(LEFT_OVER, DEFAULT_CONTEXT))
    ensures !NoOrphans(At(Step(env, LEFT_OVER, c), DEFAULT_CONTEXT))
  {
    hide Good, Step, NoOrphans, Decide;
    LeftOverIsGood();
    LeftOverGoes(env, c);
    StepReclaimsIff(env, LEFT_OVER, c, DEFAULT_CONTEXT);
    assert Slot("a", 1) in Holders(LEFT_SLICE, 1) && Slot("b", 1) in Holders(LEFT_SLICE, 1);
    assert Tangled(LEFT_OVER, None, DEFAULT_CONTEXT, 1);
  }
}
