/**
 Registries in which a promise fails, and runs that lead to one, with the
 plainest of environments: every text is its own canonical form, and every
 schema can read every other.
 */
module Witnesses {
  import opened Wrappers
  import opened RegistryTypes
  import opened Store
  import opened Snapshot
  import opened Agreement
  import opened Verbs
  import opened Moves
  import opened Steps
  import opened Registry
  import opened Reclamation
  import opened Deduplication
  import Backup
  import Restore

  const PLAIN := Env(NoCheck, false,
                     (previous: Option<Content>, cfg: Config, d: Draft, newer: nat) => (d.metadata, d.rules),
                     (r: Readable, normalize: bool, isNew: bool) => Some(r.text),
                     (a: Content, b: Content, version: nat) => a == b,
                     (a: Readable, b: Readable) => true)

  const SENT := Draft(Some(Avro), Some(LEFT_CONTENT.text), [], None, None, 0, -1)

  function Named(subject: string): Qualified {
    Qualified(DEFAULT_CONTEXT, subject)
  }

  /** Nothing is configured, and the subject can be registered under and has no versions. */
  predicate Untouched(snap: Snap, q: Qualified) {
    snap.config == map[] && ModeInScope(snap, q) == Readwrite && ListVersions(snap, q) == []
  }

  lemma PreparesPlain(view: View, q: Qualified)
    requires Untouched(view.snap, q)
    ensures Prepare(PLAIN, view, q, SENT, false) == Success(Prepared(SENT, Some(Canon(LEFT_CONTENT, []))))
  {
    assert ResolveRefs(view, q.ctx, [], NOTHING) == Success(NOTHING);
  }

  /**
   The id a first registration gets: the one that holds the content, if it
   survives the cast and may be used, else the next.
   */
  lemma SettlesPlain(view: View, q: Qualified, hit: Option<nat>)
    requires Untouched(view.snap, q)
    requires HashLookup(view.snap, q, LEFT_CONTENT) == if hit.Some? then Some((hit.value, None)) else None
    requires hit.Some? && AsI32(hit.value) >= 0 ==>
               Body(view, q.ctx, AsI32(hit.value)).Some? && Body(view, q.ctx, AsI32(hit.value)).value.content ==
                 LEFT_CONTENT
    ensures var id := if hit.Some? && AsI32(hit.value) >= 0 then AsI32(hit.value) else NextId(view.snap, q.ctx);
            Settle(PLAIN, view, q, Prepared(SENT, Some(Canon(LEFT_CONTENT, [])))) ==
              Success(Fresh(Canon(LEFT_CONTENT, []), 1, id))
  {
    hide HashLookup, AsI32, NextId, Body;
    assert NewestFirst(LiveOnes(ListVersions(view.snap, q))) == [];
    assert Candidates(view, q, ConfigInScope(PLAIN, view.snap, q), LEFT_CONTENT, []) == Success([]);
  }

  lemma DecidesPlain(reg: Reg, c: Command, q: Qualified, hit: Option<nat>, id: nat)
    requires c.verb == Register(q, SENT, false) && Untouched(reg.snap, q)
    requires HashLookup(reg.snap, q, LEFT_CONTENT) == if hit.Some? then Some((hit.value, None)) else None
    requires hit.Some? && AsI32(hit.value) >= 0 ==>
               Body(ViewOf(reg, c), q.ctx, AsI32(hit.value)).Some?
                 && Body(ViewOf(reg, c), q.ctx, AsI32(hit.value)).value.content == LEFT_CONTENT
    requires id == if hit.Some? && AsI32(hit.value) >= 0 then AsI32(hit.value) else NextId(reg.snap, q.ctx)
    ensures Decide(PLAIN, ViewOf(reg, c), c.verb) == Success(RegisterPlan(ViewOf(reg, c), q, LEFT_CONTENT, 1, id))
    ensures StepMove(PLAIN, reg, c, q.ctx) == RecordingOf(ViewOf(reg, c), q, LEFT_CONTENT, 1, id)
  {
    hide Prepare, Settle, HashLookup, AsI32, NextId, RegisterPlan, RecordingOf;
    PreparesPlain(ViewOf(reg, c), q);
    SettlesPlain(ViewOf(reg, c), q, hit);
  }

  // ---------------- the way to a body left behind ----------------

  const LIVE_VERSION := VersionRecord(1, false, 0)

  /** A registry with one context and no settings beyond it. */
  function Only(s: Slice, c: CtxState, known: set<string>): Reg {
    Reg(Rows(map[DEFAULT_CONTEXT := s], None, None), Snap(map[DEFAULT_CONTEXT := c], known, s.config, s.mode))
  }

  /** What the versions "a" and "b" are, if they are there. */
  function Versions(a: VersionRecord, b: Option<VersionRecord>): map<Slot, VersionRecord> {
    if b.Some? then map[Slot("a", 1) := a, Slot("b", 1) := b.value] else map[Slot("a", 1) := a]
  }

  function Lists(a: VersionRecord, b: Option<VersionRecord>): map<string, seq<Entry>> {
    if b.Some? then map["a" := [Entry(1, a)], "b" := [Entry(1, b.value)]] else map["a" := [Entry(1, a)]]
  }

  function Stage(a: VersionRecord, b: Option<VersionRecord>): Reg {
    Only(LEFT_SLICE.(versions := Versions(a, b)),
         LEFT_CTX.(subjects := Lists(a, b), usages := map[1 := if b.Some? then {Slot("a", 1), Slot("b", 1)}
                                                          else {Slot("a", 1)}]),
         {DEFAULT_CONTEXT})
  }

  /** The states after the first, second and third command of `LEADS_THERE`. */
  const ONE_LIVE := Stage(LIVE_VERSION, None)
  const BOTH_LIVE := Stage(LIVE_VERSION, Some(LIVE_VERSION))
  const ONE_HIDDEN := Stage(LEFT_VERSION, Some(LIVE_VERSION))

  /** One schema registered under two subjects, and both soft-deleted. */
  const LEADS_THERE := [
    Command(Register(Named("a"), SENT, false), 0, ""), Command(Register(Named("b"), SENT, false), 0, ""),
    Command(DropSubject(Named("a"), false), 0, ""), Command(DropSubject(Named("b"), false), 0, "")]

  predicate ToRows(w: Write) {
    ((w.PutSchema? && w.index) || w.PutVersion? || w.SetNextId?) && w.ctx == DEFAULT_CONTEXT
  }

  lemma WritesOnly(s: Slice, c: CtxState, known: set<string>, w: Write)
    requires ToRows(w)
    ensures var reg := Only(s, c, known);
            Reg(WriteRow(reg.rows, w), Apply(reg.snap, w)) ==
            Only(WriteSlice(DEFAULT_CONTEXT, s, w), ApplyIn(c, w),
                 if w.PutVersion? then known + {DEFAULT_CONTEXT} else known)
  {
    SettingsStay(s, w);
    hide WriteSlice, ApplyIn;
  }

  lemma SettingsStay(s: Slice, w: Write)
    requires ToRows(w)
    ensures var s' := WriteSlice(DEFAULT_CONTEXT, s, w); s'.config == s.config && s'.mode == s.mode
  {
  }

  /** The first row of a registry that has no rows, with or without settings of its default context. */
  lemma WritesFirst(rows: Rows, snap: Snap, w: Write)
    requires ToRows(w) && rows.slices.Keys <= {DEFAULT_CONTEXT} && rows.config == None && rows.mode == None
    requires snap.ctxs == map[] && snap.config == SliceOf(rows, DEFAULT_CONTEXT).config
             && snap.mode == SliceOf(rows, DEFAULT_CONTEXT).mode
    ensures Reg(WriteRow(rows, w), Apply(snap, w)) ==
            Only(WriteSlice(DEFAULT_CONTEXT, SliceOf(rows, DEFAULT_CONTEXT), w), ApplyIn(EMPTY_CTX, w),
                 if w.PutVersion? then snap.known + {DEFAULT_CONTEXT} else snap.known)
  {
    SettingsStay(SliceOf(rows, DEFAULT_CONTEXT), w);
    hide WriteSlice, ApplyIn;
  }

  const PUT_BODY := PutSchema(DEFAULT_CONTEXT, 1, SchemaRecord(LEFT_CONTENT, ""), true)

  function PutLive(subject: string): Write {
    PutVersion(DEFAULT_CONTEXT, Slot(subject, 1), LIVE_VERSION)
  }

  function PutHidden(subject: string): Write {
    PutVersion(DEFAULT_CONTEXT, Slot(subject, 1), LEFT_VERSION)
  }

  /** Putting version 1 of a subject, whether or not it was there under the same id. */
  lemma PutsOne(c: CtxState, subject: string, rec: VersionRecord)
    requires var vs := VersionsOf(c, subject);
             vs == [] || (|vs| == 1 && vs[0].version == 1 && vs[0].rec.id == rec.id)
    ensures PutVersionIn(c, Slot(subject, 1), rec) ==
            c.(subjects := c.subjects[subject := [Entry(1, rec)]],
               usages := c.usages[rec.id := UsagesOf(c, rec.id) + {Slot(subject, 1)}])
  {
    var vs := VersionsOf(c, subject);
    if vs != [] {
      assert vs == [vs[0]] && vs[1..] == [];
    }
    assert Insert(vs, 1, rec) == [Entry(1, rec)];
  }

  /** The three writes of the first registration. */
  lemma FirstWrites()
    ensures Reg(WriteRow(WriteRow(WriteRow(EMPTY_ROWS, PUT_BODY), SetNextId(DEFAULT_CONTEXT, 2)), PutLive("a")),
                Apply(Apply(Apply(EMPTY_SNAP, PUT_BODY), SetNextId(DEFAULT_CONTEXT, 2)), PutLive("a"))) == ONE_LIVE
  {
    hide WriteRow, Apply, WriteSlice, ApplyIn;
    var next := SetNextId(DEFAULT_CONTEXT, 2);
    var s1, c1 := WriteSlice(DEFAULT_CONTEXT, EMPTY_SLICE, PUT_BODY), ApplyIn(EMPTY_CTX, PUT_BODY);
    WritesFirst(EMPTY_ROWS, EMPTY_SNAP, PUT_BODY);
    var s2, c2 := WriteSlice(DEFAULT_CONTEXT, s1, next), ApplyIn(c1, next);
    WritesOnly(s1, c1, {}, next);
    WritesOnly(s2, c2, {}, PutLive("a"));
    FirstParts();
    assert {} + {DEFAULT_CONTEXT} == {DEFAULT_CONTEXT};
  }

  lemma FirstParts()
    ensures var next := SetNextId(DEFAULT_CONTEXT, 2);
            var s2 := WriteSlice(DEFAULT_CONTEXT, WriteSlice(DEFAULT_CONTEXT, EMPTY_SLICE, PUT_BODY), next);
            && WriteSlice(DEFAULT_CONTEXT, s2, PutLive("a")) == LEFT_SLICE.(versions := Versions(LIVE_VERSION, None))
            && ApplyIn(ApplyIn(ApplyIn(EMPTY_CTX, PUT_BODY), next), PutLive("a"))
               == LEFT_CTX.(subjects := Lists(LIVE_VERSION, None), usages := map[1 := {Slot("a", 1)}])
  {
    var c := ApplyIn(ApplyIn(EMPTY_CTX, PUT_BODY), SetNextId(DEFAULT_CONTEXT, 2));
    PutsOne(c, "a", LIVE_VERSION);
    hide PutVersionIn;
    assert c == CtxState(map[], map[], map[LEFT_CONTENT := 1], map[], Some(2));
    assert c.subjects["a" := [Entry(1, LIVE_VERSION)]] == Lists(LIVE_VERSION, None);
    assert {} + {Slot("a", 1)} == {Slot("a", 1)} && c.usages[1 := {Slot("a", 1)}] == map[1 := {Slot("a", 1)}];
  }

  lemma RegistersFirst()
    ensures Step(PLAIN, EMPTY_REG, LEADS_THERE[0]) == ONE_LIVE
  {
    hide Decide, HashLookup, WriteRow, Apply, RegisterPlan, PutWrites, Untouched, NextId, ListVersions, StepMove,
      RecordingOf;
    var c, q := LEADS_THERE[0], Named("a");
    EmptyIsReady(c);
    DecidesPlain(EMPTY_REG, c, q, None, 1);
    PlainWrites(EMPTY_REG, c, q, 1);
    ThreeWrites(EMPTY_REG, [PUT_BODY, SetNextId(DEFAULT_CONTEXT, 2), PutLive("a")]);
    FirstWrites();
  }

  lemma EmptyIsReady(c: Command)
    requires c == LEADS_THERE[0]
    ensures HashLookup(EMPTY_SNAP, Named("a"), LEFT_CONTENT) == None && NextId(EMPTY_SNAP, DEFAULT_CONTEXT) == 1
    ensures Untouched(EMPTY_SNAP, Named("a")) && ListVersions(EMPTY_SNAP, Named("a")) == []
    ensures PutWrites(ViewOf(EMPTY_REG, c), Named("a"), LEFT_CONTENT, 1, 1) ==
            [PUT_BODY, SetNextId(DEFAULT_CONTEXT, 2), PutLive("a")]
  {
  }

  /** Nothing is replaced and nothing stale is cleared away. */
  lemma PlainWrites(reg: Reg, c: Command, q: Qualified, id: nat)
    requires ListVersions(reg.snap, q) == []
    ensures RegisterPlan(ViewOf(reg, c), q, LEFT_CONTENT, 1, id).writes ==
            PutWrites(ViewOf(reg, c), q, LEFT_CONTENT, 1, id)
  {
  }

  lemma ThreeWrites(reg: Reg, ws: seq<Write>)
    requires |ws| == 3
    ensures WriteBatch(reg.rows, ws) == WriteRow(WriteRow(WriteRow(reg.rows, ws[0]), ws[1]), ws[2])
    ensures ApplyAll(reg.snap, ws) == Apply(Apply(Apply(reg.snap, ws[0]), ws[1]), ws[2])
  {
    hide WriteRow, Apply;
    TwoWrites(Reg(WriteRow(reg.rows, ws[0]), Apply(reg.snap, ws[0])), ws[1..]);
  }

  lemma TwoWrites(reg: Reg, ws: seq<Write>)
    requires |ws| == 2
    ensures WriteBatch(reg.rows, ws) == WriteRow(WriteRow(reg.rows, ws[0]), ws[1])
    ensures ApplyAll(reg.snap, ws) == Apply(Apply(reg.snap, ws[0]), ws[1])
  {
    hide WriteRow, Apply;
    var rest := ws[1..];
    assert rest[0] == ws[1] && rest[1..] == [];
    assert WriteBatch(WriteRow(reg.rows, ws[0]), rest) == WriteRow(WriteRow(reg.rows, ws[0]), ws[1]);
    assert ApplyAll(Apply(reg.snap, ws[0]), rest) == Apply(Apply(reg.snap, ws[0]), ws[1]);
  }

  lemma FirstIsFound()
    ensures HashLookup(ONE_LIVE.snap, Named("b"), LEFT_CONTENT) == Some((1, None)) && AsI32(1) == 1
    ensures Untouched(ONE_LIVE.snap, Named("b")) && NextId(ONE_LIVE.snap, DEFAULT_CONTEXT) == 2
    ensures ListVersions(ONE_LIVE.snap, Named("b")) == []
  {
    assert IdUsages(ONE_LIVE.snap, DEFAULT_CONTEXT, 1) == {Slot("a", 1)};
    assert HighestUse({Slot("a", 1)}, "b") == None;
  }

  /** The two writes of the second: the body is there already. */
  lemma SecondWrites()
    ensures Reg(WriteRow(WriteRow(ONE_LIVE.rows, PUT_BODY), PutLive("b")),
                Apply(Apply(ONE_LIVE.snap, PUT_BODY), PutLive("b"))) == BOTH_LIVE
  {
    hide WriteRow, Apply, WriteSlice, ApplyIn;
    var s, c := LEFT_SLICE.(versions := Versions(LIVE_VERSION, None)),
      LEFT_CTX.(subjects := Lists(LIVE_VERSION, None), usages := map[1 := {Slot("a", 1)}]);
    WritesOnly(s, c, {DEFAULT_CONTEXT}, PUT_BODY);
    WritesOnly(WriteSlice(DEFAULT_CONTEXT, s, PUT_BODY), ApplyIn(c, PUT_BODY), {DEFAULT_CONTEXT}, PutLive("b"));
    SecondParts();
    assert {DEFAULT_CONTEXT} + {DEFAULT_CONTEXT} == {DEFAULT_CONTEXT};
  }

  lemma SecondParts()
    ensures var s, c := LEFT_SLICE.(versions := Versions(LIVE_VERSION, None)),
            LEFT_CTX.(subjects := Lists(LIVE_VERSION, None), usages := map[1 := {Slot("a", 1)}]);
            && WriteSlice(DEFAULT_CONTEXT, WriteSlice(DEFAULT_CONTEXT, s, PUT_BODY), PutLive("b"))
               == LEFT_SLICE.(versions := Versions(LIVE_VERSION, Some(LIVE_VERSION)))
            && ApplyIn(ApplyIn(c, PUT_BODY), PutLive("b"))
               == LEFT_CTX.(subjects := Lists(LIVE_VERSION, Some(LIVE_VERSION)),
                            usages := map[1 := {Slot("a", 1), Slot("b", 1)}])
  {
    var c := LEFT_CTX.(subjects := Lists(LIVE_VERSION, None), usages := map[1 := {Slot("a", 1)}]);
    assert ApplyIn(c, PUT_BODY) == c;
    PutsOne(c, "b", LIVE_VERSION);
    hide PutVersionIn;
    assert c.subjects["b" := [Entry(1, LIVE_VERSION)]] == Lists(LIVE_VERSION, Some(LIVE_VERSION));
    assert {Slot("a", 1)} + {Slot("b", 1)} == {Slot("a", 1), Slot("b", 1)};
    assert c.usages[1 := {Slot("a", 1), Slot("b", 1)}] == map[1 := {Slot("a", 1), Slot("b", 1)}];
    var s := LEFT_SLICE.(versions := Versions(LIVE_VERSION, None));
    assert s.versions[Slot("b", 1) := LIVE_VERSION] == Versions(LIVE_VERSION, Some(LIVE_VERSION));
  }

  lemma RegistersSecond()
    ensures Step(PLAIN, ONE_LIVE, LEADS_THERE[1]) == BOTH_LIVE
  {
    hide HashLookup, AsI32, Decide, WriteRow, Apply, RegisterPlan, PutWrites, Untouched, NextId, ListVersions, Body,
      StepMove, RecordingOf;
    var c, q := LEADS_THERE[1], Named("b");
    FirstIsFound();
    BodyIsThere(c);
    DecidesPlain(ONE_LIVE, c, q, Some(1), 1);
    PlainWrites(ONE_LIVE, c, q, 1);
    TwoWrites(ONE_LIVE, [PUT_BODY, PutLive("b")]);
    SecondWrites();
  }

  lemma BodyIsThere(c: Command)
    requires c.now == 0 && c.guid == ""
    ensures PutWrites(ViewOf(ONE_LIVE, c), Named("b"), LEFT_CONTENT, 1, 1) == [PUT_BODY, PutLive("b")]
    ensures var body := Body(ViewOf(ONE_LIVE, c), DEFAULT_CONTEXT, 1); body.Some? && body.value.content == LEFT_CONTENT
  {
  }

  /** Hiding the one live version of a subject nothing refers to. */
  lemma DropsPlain(reg: Reg, c: Command, q: Qualified)
    requires c.verb == DropSubject(q, false) && reg.snap.mode == map[] && reg.snap.config == map[]
    requires ListVersions(reg.snap, q) == [Entry(1, LIVE_VERSION)] && Ctx(reg.snap, q.ctx).refby == map[]
    ensures var ws := [PutVersion(q.ctx, Slot(q.subject, 1), LEFT_VERSION)] + DropSettings(q);
            Step(PLAIN, reg, c) == Reg(WriteBatch(reg.rows, ws), ApplyAll(reg.snap, ws))
  {
    hide ListVersions, LiveOnes, AnyVersion, Objection, HideAll, WriteBatch, ApplyAll;
    NothingAgainst(reg.snap, q);
  }

  lemma NothingAgainst(snap: Snap, q: Qualified)
    requires ListVersions(snap, q) == [Entry(1, LIVE_VERSION)] && Ctx(snap, q.ctx).refby == map[]
    ensures var vs := ListVersions(snap, q);
            && LiveOnes(vs) == vs && AnyVersion(snap, q, false) && AnyVersion(snap, q, true)
            && Objection(snap, q, vs, false) == None
            && HideAll(q, vs) == [PutVersion(q.ctx, Slot(q.subject, 1), LEFT_VERSION)]
  {
    var vs := ListVersions(snap, q);
    hide ListVersions;
    assert vs[0] in vs;
    assert ReferencedBy(snap, q.ctx, Slot(q.subject, 1)) == {};
  }

  /** Hiding a version of one of the two. */
  lemma HidesOne(a: VersionRecord, b: VersionRecord, subject: string)
    requires a.id == 1 && b.id == 1 && subject in {"a", "b"}
    ensures var reg := Stage(a, Some(b));
            Reg(WriteRow(reg.rows, PutHidden(subject)), Apply(reg.snap, PutHidden(subject))) ==
            if subject == "a" then Stage(LEFT_VERSION, Some(b)) else Stage(a, Some(LEFT_VERSION))
  {
    hide WriteSlice, ApplyIn, WriteRow, Apply;
    var s := LEFT_SLICE.(versions := Versions(a, Some(b)));
    var c := LEFT_CTX.(subjects := Lists(a, Some(b)), usages := map[1 := {Slot("a", 1), Slot("b", 1)}]);
    WritesOnly(s, c, {DEFAULT_CONTEXT}, PutHidden(subject));
    HidesParts(a, b, subject);
    assert {DEFAULT_CONTEXT} + {DEFAULT_CONTEXT} == {DEFAULT_CONTEXT};
  }

  lemma HidesParts(a: VersionRecord, b: VersionRecord, subject: string)
    requires a.id == 1 && b.id == 1 && subject in {"a", "b"}
    ensures var s := LEFT_SLICE.(versions := Versions(a, Some(b)));
            var c := LEFT_CTX.(subjects := Lists(a, Some(b)), usages := map[1 := {Slot("a", 1), Slot("b", 1)}]);
            var a', b' := if subject == "a" then LEFT_VERSION else a, if subject == "a" then b else LEFT_VERSION;
            && WriteSlice(DEFAULT_CONTEXT, s, PutHidden(subject)) == LEFT_SLICE.(versions := Versions(a', Some(b')))
            && ApplyIn(c, PutHidden(subject)) == c.(subjects := Lists(a', Some(b')))
  {
    var s := LEFT_SLICE.(versions := Versions(a, Some(b)));
    var c := LEFT_CTX.(subjects := Lists(a, Some(b)), usages := map[1 := {Slot("a", 1), Slot("b", 1)}]);
    var a', b' := if subject == "a" then LEFT_VERSION else a, if subject == "a" then b else LEFT_VERSION;
    PutsOne(c, subject, LEFT_VERSION);
    hide PutVersionIn;
    assert {Slot("a", 1), Slot("b", 1)} + {Slot(subject, 1)} == {Slot("a", 1), Slot("b", 1)};
    assert c.usages[1 := {Slot("a", 1), Slot("b", 1)}] == c.usages;
    assert c.subjects[subject := [Entry(1, LEFT_VERSION)]] == Lists(a', Some(b'));
    assert s.versions[Slot(subject, 1) := LEFT_VERSION] == Versions(a', Some(b'));
  }

  lemma HidesFirst()
    ensures Step(PLAIN, BOTH_LIVE, LEADS_THERE[2]) == ONE_HIDDEN
  {
    hide Step, WriteRow, Apply;
    DropsPlain(BOTH_LIVE, LEADS_THERE[2], Named("a"));
    hide Stage;
    HidesOne(LIVE_VERSION, LIVE_VERSION, "a");
    ThenSettings(BOTH_LIVE, ONE_HIDDEN, Named("a"));
  }

  lemma HidesSecond()
    ensures Step(PLAIN, ONE_HIDDEN, LEADS_THERE[3]) == LEFT_OVER
  {
    hide Step, WriteRow, Apply;
    DropsPlain(ONE_HIDDEN, LEADS_THERE[3], Named("b"));
    assert Stage(LEFT_VERSION, Some(LEFT_VERSION)) == LEFT_OVER;
    hide Stage;
    HidesOne(LEFT_VERSION, LIVE_VERSION, "b");
    ThenSettings(ONE_HIDDEN, LEFT_OVER, Named("b"));
  }

  lemma ThenSettings(reg: Reg, then_: Reg, q: Qualified)
    requires Reg(WriteRow(reg.rows, PutHidden(q.subject)), Apply(reg.snap, PutHidden(q.subject))) == then_
    requires then_.snap.mode == map[] && then_.snap.config == map[] && q.ctx == DEFAULT_CONTEXT
             && then_.rows.slices.Keys == {q.ctx}
    requires then_.rows.slices[q.ctx].mode == map[] && then_.rows.slices[q.ctx].config == map[]
    ensures var ws := [PutHidden(q.subject)] + DropSettings(q);
            Reg(WriteBatch(reg.rows, ws), ApplyAll(reg.snap, ws)) == then_
  {
    hide WriteRow, Apply;
    ThreeWrites(reg, [PutHidden(q.subject)] + DropSettings(q));
    NoSettings(then_, q);
  }

  /** Deleting settings that are not there. */
  lemma NoSettings(reg: Reg, q: Qualified)
    requires reg.snap.mode == map[] && reg.snap.config == map[] && q.ctx in reg.rows.slices
    requires reg.rows.slices[q.ctx].mode == map[] && reg.rows.slices[q.ctx].config == map[]
             && reg.rows.slices.Keys == {q.ctx}
    ensures var ws := DropSettings(q);
            && WriteRow(WriteRow(reg.rows, ws[0]), ws[1]) == reg.rows
              && Apply(Apply(reg.snap, ws[0]), ws[1]) == reg.snap
  {
    var ws := DropSettings(q);
    assert Apply(reg.snap, ws[0]) == reg.snap && Apply(reg.snap, ws[1]) == reg.snap;
    assert WriteRow(reg.rows, ws[0]) == reg.rows && WriteRow(reg.rows, ws[1]) == reg.rows;
  }

  /** From an empty registry, four commands lead to the state from which a mode change leaves a body with nobody. */
  lemma BodyIsLeftBehind(c: Command)
    requires c.verb == ChangeMode(None, Mode.Import, false)
    ensures Run(PLAIN, EMPTY_REG, LEADS_THERE) == LEFT_OVER
    ensures !NoOrphans(At(Run(PLAIN, EMPTY_REG, LEADS_THERE + [c]), DEFAULT_CONTEXT))
  {
    hide Step, NoOrphans;
    RegistersFirst();
    RegistersSecond();
    HidesFirst();
    HidesSecond();
    var cs := LEADS_THERE;
    assert cs[1..][0] == cs[1] && cs[1..][1..] == cs[2..] && cs[2..][1..] == cs[3..] && cs[3..][1..] == [];
    assert Run(PLAIN, ONE_HIDDEN, cs[3..]) == LEFT_OVER;
    assert Run(PLAIN, BOTH_LIVE, cs[2..]) == LEFT_OVER;
    assert Run(PLAIN, ONE_LIVE, cs[1..]) == LEFT_OVER;
    RunInTwo(PLAIN, EMPTY_REG, cs, [c]);
    assert [c][1..] == [] && Run(PLAIN, LEFT_OVER, [c]) == Step(PLAIN, LEFT_OVER, c);
    SharedBodyStaysBehind(PLAIN, c);
  }

  // ---------------- content whose body is reclaimed ----------------

  const HIDDEN := Stage(LEFT_VERSION, None)

  /** Nothing is stored any more; the index still has the content, and the counter has moved on. */
  const EMPTIED := Only(LEFT_SLICE.(schemas := map[], versions := map[]), LEFT_CTX.(subjects := map[], usages := map[]),
                        {DEFAULT_CONTEXT})

  /** A schema registered, soft-deleted, deleted for good. */
  const COMES_AND_GOES := [
    LEADS_THERE[0], Command(DropSubject(Named("a"), false), 0, ""), Command(DropSubject(Named("a"), true), 0, "")]

  lemma HidesAlone()
    ensures Reg(WriteRow(ONE_LIVE.rows, PutHidden("a")), Apply(ONE_LIVE.snap, PutHidden("a"))) == HIDDEN
  {
    var s, c := LEFT_SLICE.(versions := Versions(LIVE_VERSION, None)),
      LEFT_CTX.(subjects := Lists(LIVE_VERSION, None), usages := map[1 := {Slot("a", 1)}]);
    PutsOne(c, "a", LEFT_VERSION);
    assert s.versions[Slot("a", 1) := LEFT_VERSION] == Versions(LEFT_VERSION, None);
    assert c.subjects["a" := [Entry(1, LEFT_VERSION)]] == Lists(LEFT_VERSION, None);
    assert {Slot("a", 1)} + {Slot("a", 1)} == {Slot("a", 1)} && c.usages[1 := {Slot("a", 1)}] == c.usages;
    hide WriteRow, Apply, PutVersionIn;
    WritesOnly(s, c, {DEFAULT_CONTEXT}, PutHidden("a"));
    assert {DEFAULT_CONTEXT} + {DEFAULT_CONTEXT} == {DEFAULT_CONTEXT};
  }

  lemma HidesIt()
    ensures Step(PLAIN, ONE_LIVE, COMES_AND_GOES[1]) == HIDDEN
  {
    hide Step, WriteRow, Apply;
    DropsPlain(ONE_LIVE, COMES_AND_GOES[1], Named("a"));
    HidesAlone();
    ThenSettings(ONE_LIVE, HIDDEN, Named("a"));
  }

  /** The last holder takes the body along. */
  lemma PlansPurge(c: Command)
    requires c.verb == DropSubject(Named("a"), true)
    ensures Decide(PLAIN, ViewOf(HIDDEN, c), c.verb).Success?
    ensures Decide(PLAIN, ViewOf(HIDDEN, c), c.verb).value.writes ==
            [DeleteVersion(DEFAULT_CONTEXT, Slot("a", 1), 1), DeleteSchema(DEFAULT_CONTEXT, 1)]
  {
    var snap, q := HIDDEN.snap, Named("a");
    var vs := ListVersions(snap, q);
    assert vs == [Entry(1, LEFT_VERSION)];
    assert vs[0] in vs && AnyVersion(snap, q, true);
    assert ReferencedBy(snap, q.ctx, Slot("a", 1)) == {};
    assert Objection(snap, q, vs, true) == None;
    var d := Doomed(q, 1, LEFT_VERSION);
    assert DoomAll(q, vs) == [d] && d in [d] && SlotOf(d) in Slots([d]);
    assert IdUsages(snap, q.ctx, 1) == {Slot("a", 1)};
    assert Body(ViewOf(HIDDEN, c), q.ctx, 1) == Some(SchemaRecord(LEFT_CONTENT, ""));
    assert Frees(ViewOf(HIDDEN, c), d, Slots([d]));
    var ws := [DeleteVersion(DEFAULT_CONTEXT, Slot("a", 1), 1), DeleteSchema(DEFAULT_CONTEXT, 1)];
    assert HardDelete(ViewOf(HIDDEN, c), d, Slots([d])) == ws;
    assert [d][1..] == [] && Purge(ViewOf(HIDDEN, c), [d], Slots([d])) == ws + [];
  }

  lemma PurgesIt()
    ensures Step(PLAIN, HIDDEN, COMES_AND_GOES[2]) == EMPTIED
  {
    hide Decide;
    PlansPurge(COMES_AND_GOES[2]);
    var ws := [DeleteVersion(DEFAULT_CONTEXT, Slot("a", 1), 1), DeleteSchema(DEFAULT_CONTEXT, 1)];
    hide WriteRow, Apply;
    TwoWrites(HIDDEN, ws);
    PurgeWrites();
  }

  lemma PurgeWrites()
    ensures var gone, freed := DeleteVersion(DEFAULT_CONTEXT, Slot("a", 1), 1), DeleteSchema(DEFAULT_CONTEXT, 1);
            Reg(WriteRow(WriteRow(HIDDEN.rows, gone), freed), Apply(Apply(HIDDEN.snap, gone), freed)) == EMPTIED
  {
    var c := Ctx(HIDDEN.snap, DEFAULT_CONTEXT);
    assert Remove([Entry(1, LEFT_VERSION)], 1) == [];
    assert c.subjects - {"a"} == map[] && c.usages[1] - {Slot("a", 1)} == {} && c.usages - {1} == map[];
    var s := SliceOf(HIDDEN.rows, DEFAULT_CONTEXT);
    assert s.versions - {Slot("a", 1)} == map[] && s.schemas - {1} == map[];
  }

  /** Registered again, the content gets the next id, not the one it had. */
  lemma ReclaimedIdIsNotReturned(c: Command)
    requires c == LEADS_THERE[0]
    ensures At(Run(PLAIN, EMPTY_REG, [c]), DEFAULT_CONTEXT).versions == map[Slot("a", 1) := LIVE_VERSION]
    ensures LIVE_VERSION.id == 1 && At(Run(PLAIN, EMPTY_REG, COMES_AND_GOES), DEFAULT_CONTEXT).schemas == map[]
    ensures var s := At(Run(PLAIN, EMPTY_REG, COMES_AND_GOES + [c]), DEFAULT_CONTEXT);
            Slot("a", 1) in s.versions && s.versions[Slot("a", 1)].id == 2
  {
    hide Step, Good, Only, Stage;
    RegistersFirst();
    assert [c][1..] == [] && Run(PLAIN, EMPTY_REG, [c]) == ONE_LIVE;
    ComingsAndGoings();
    EmptiedIsReached();
    RunInTwo(PLAIN, EMPTY_REG, COMES_AND_GOES, [c]);
    assert Run(PLAIN, EMPTIED, [c]) == Step(PLAIN, EMPTIED, c);
    RegistersAgain(c);
  }

  lemma ComingsAndGoings()
    ensures At(ONE_LIVE, DEFAULT_CONTEXT).versions == map[Slot("a", 1) := LIVE_VERSION]
    ensures At(EMPTIED, DEFAULT_CONTEXT).schemas == map[]
  {
  }

  lemma EmptiedIsReached()
    ensures Run(PLAIN, EMPTY_REG, COMES_AND_GOES) == EMPTIED && Good(EMPTIED)
  {
    hide Step, Good;
    RegistersFirst();
    HidesIt();
    PurgesIt();
    var cs := COMES_AND_GOES;
    assert cs[1..][0] == cs[1] && cs[1..][1..] == cs[2..] && cs[2..][1..] == [];
    assert Run(PLAIN, HIDDEN, cs[2..]) == EMPTIED;
    assert Run(PLAIN, ONE_LIVE, cs[1..]) == EMPTIED;
    EmptyIsGood();
    RunKeepsGood(PLAIN, EMPTY_REG, cs);
  }

  lemma RegistersAgain(c: Command)
    requires c == LEADS_THERE[0] && Good(EMPTIED)
    ensures var s := At(Step(PLAIN, EMPTIED, c), DEFAULT_CONTEXT);
            Slot("a", 1) in s.versions && s.versions[Slot("a", 1)].id == 2
  {
    hide Good, Step, StepMove, HashLookup, NextId, Decide, RecordingOf;
    EmptiedIsReady();
    DecidesPlain(EMPTIED, c, Named("a"), None, 2);
    StepMoves(PLAIN, EMPTIED, c, DEFAULT_CONTEXT);
    RecordingPuts(EMPTIED, c, Named("a"), 2);
  }

  lemma EmptiedIsReady()
    ensures HashLookup(EMPTIED.snap, Named("a"), LEFT_CONTENT) == None && NextId(EMPTIED.snap, DEFAULT_CONTEXT) == 2
    ensures Untouched(EMPTIED.snap, Named("a"))
  {
    assert IdUsages(EMPTIED.snap, DEFAULT_CONTEXT, 1) == {};
  }

  /** A first version is added, and no row goes. */
  lemma RecordingPuts(reg: Reg, c: Command, q: Qualified, id: nat)
    requires var m := RecordingOf(ViewOf(reg, c), q, LEFT_CONTENT, 1, id);
             IsMove(ViewOf(reg, c), At(reg, q.ctx), At(Step(PLAIN, reg, c), q.ctx), m)
    requires ListVersions(reg.snap, q) == []
    ensures var s, s' := At(reg, q.ctx), At(Step(PLAIN, reg, c), q.ctx);
            && s'.versions == s.versions[Slot(q.subject, 1) := VersionRecord(id, false, c.now)]
            && (forall any | any in s.schemas && any != id :: any in s'.schemas && s'.schemas[any] == s.schemas[any])
            && id in s'.schemas && s'.schemas[id].content == LEFT_CONTENT
  {
    hide Step;
    var m := RecordingOf(ViewOf(reg, c), q, LEFT_CONTENT, 1, id);
    assert m.gone == {} && m.freed == {};
  }

  // ---------------- an id the cast does not keep ----------------

  const HIGH: nat := I32_LIMIT
  const OTHER_CONTENT := LEFT_CONTENT.(text := "\"long\"")
  const IMPORTED := SENT.(text := Some(OTHER_CONTENT.text), id := HIGH - 1)
  const IMPORT_MODE := map[Subject(DEFAULT_CONTEXT, "i") := Mode.Import]

  /**
   A subject is put into IMPORT mode, a schema is imported into it under the id
   2^31 - 1, and another is registered.
   */
  const LEADS_HIGH := [
    Command(ChangeMode(Some(Named("i")), Mode.Import, true), 0, ""),
    Command(Register(Named("i"), IMPORTED, false), 0, ""), LEADS_THERE[0]]

  const MODED := Reg(Rows(map[DEFAULT_CONTEXT := EMPTY_SLICE.(mode := IMPORT_MODE)], None, None),
                     Snap(map[], {}, map[], IMPORT_MODE))

  const LOW_VERSION := VersionRecord(HIGH - 1, false, 0)
  const LOW_SLICE := Slice(map[HIGH - 1 := SchemaRecord(OTHER_CONTENT, "")], map[OTHER_CONTENT := HIGH - 1],
                           map[Slot("i", 1) := LOW_VERSION], {}, Some(HIGH), true, map[], IMPORT_MODE)
  const LOW_CTX := CtxState(map["i" := [Entry(1, LOW_VERSION)]], map[HIGH - 1 := {Slot("i", 1)}],
                            map[OTHER_CONTENT := HIGH - 1], map[], Some(HIGH))

  /** After the import. */
  const LOW_REG := Only(LOW_SLICE, LOW_CTX, {DEFAULT_CONTEXT})

  const HIGH_VERSION := VersionRecord(HIGH, false, 0)
  const HIGH_SLICE := LOW_SLICE.(schemas := LOW_SLICE.schemas[HIGH := SchemaRecord(LEFT_CONTENT, "")],
                                 fingerprints := LOW_SLICE.fingerprints[LEFT_CONTENT := HIGH],
                                 versions := LOW_SLICE.versions[Slot("a", 1) := HIGH_VERSION], nextId := Some(HIGH + 1))
  const HIGH_CTX := LOW_CTX.(subjects := LOW_CTX.subjects["a" := [Entry(1, HIGH_VERSION)]],
                             usages := LOW_CTX.usages[HIGH := {Slot("a", 1)}],
                             fingerprints := LOW_CTX.fingerprints[LEFT_CONTENT := HIGH], nextId := Some(HIGH + 1))

  /** One schema, live, under the id 2^31. */
  const HIGH_REG := Only(HIGH_SLICE, HIGH_CTX, {DEFAULT_CONTEXT})

  lemma SetsMode()
    ensures Step(PLAIN, EMPTY_REG, LEADS_HIGH[0]) == MODED
  {
    var ws := [PutMode(Subject(DEFAULT_CONTEXT, "i"), Mode.Import)];
    assert ws[1..] == [];
    assert WriteBatch(EMPTY_ROWS, ws) == WriteBatch(WriteRow(EMPTY_ROWS, ws[0]), []);
    assert ApplyAll(EMPTY_SNAP, ws) == ApplyAll(Apply(EMPTY_SNAP, ws[0]), []);
  }

  /** An import of new content takes the id and the first version number. */
  lemma DecidesImport(c: Command)
    requires c.verb == Register(Named("i"), IMPORTED, false)
    ensures Decide(PLAIN, ViewOf(MODED, c), c.verb) ==
            Success(RegisterPlan(ViewOf(MODED, c), Named("i"), OTHER_CONTENT, 1, HIGH - 1))
  {
    hide RegisterPlan;
    var view, q := ViewOf(MODED, c), Named("i");
    assert ModeInScope(view.snap, q) == Mode.Import && ListVersions(view.snap, q) == [];
    assert ResolveRefs(view, q.ctx, [], NOTHING) == Success(NOTHING);
    assert Prepare(PLAIN, view, q, IMPORTED, false) == Success(Prepared(IMPORTED, Some(Canon(OTHER_CONTENT, []))));
    assert HashLookup(view.snap, q, OTHER_CONTENT) == None;
    assert Settle(PLAIN, view, q, Prepared(IMPORTED, Some(Canon(OTHER_CONTENT, [])))) ==
           Success(Fresh(Canon(OTHER_CONTENT, []), 1, HIGH - 1));
  }

  /** What a registration of new content under a new subject writes, and what that leaves. */
  function NewRows(id: nat, content: Content, subject: string): seq<Write> {
    [PutSchema(DEFAULT_CONTEXT, id, SchemaRecord(content, ""), true), SetNextId(DEFAULT_CONTEXT, id + 1),
     PutVersion(DEFAULT_CONTEXT, Slot(subject, 1), VersionRecord(id, false, 0))]
  }

  function WithNew(s: Slice, id: nat, content: Content, subject: string): Slice {
    s.(schemas := s.schemas[id := SchemaRecord(content, "")], fingerprints := s.fingerprints[content := id],
       versions := s.versions[Slot(subject, 1) := VersionRecord(id, false, 0)], nextId := Some(id + 1), known := true)
  }

  function IndexNew(c: CtxState, id: nat, content: Content, subject: string): CtxState {
    c.(subjects := c.subjects[subject := [Entry(1, VersionRecord(id, false, 0))]],
       usages := c.usages[id := {Slot(subject, 1)}], fingerprints := c.fingerprints[content := id],
       nextId := Some(id + 1))
  }

  lemma ThreePuts(s: Slice, c: CtxState, id: nat, content: Content, subject: string)
    requires VersionsOf(c, subject) == [] && id !in c.usages
    ensures var ws := NewRows(id, content, subject);
            var s1, c1 := WriteSlice(DEFAULT_CONTEXT, s, ws[0]), ApplyIn(c, ws[0]);
            && WriteSlice(DEFAULT_CONTEXT, WriteSlice(DEFAULT_CONTEXT, s1, ws[1]), ws[2]) ==
               WithNew(s, id, content, subject)
            && ApplyIn(ApplyIn(c1, ws[1]), ws[2]) == IndexNew(c, id, content, subject)
  {
    PutsOne(c.(fingerprints := c.fingerprints[content := id], nextId := Some(id + 1)), subject,
            VersionRecord(id, false, 0));
    hide PutVersionIn;
    assert {} + {Slot(subject, 1)} == {Slot(subject, 1)};
  }

  /** The three writes, one after the other, on a registry of one context. */
  lemma PutsThree(s: Slice, c: CtxState, known: set<string>, id: nat, content: Content, subject: string)
    requires VersionsOf(c, subject) == [] && id !in c.usages
    ensures var reg, ws := Only(s, c, known), NewRows(id, content, subject);
            && Reg(WriteBatch(reg.rows, ws), ApplyAll(reg.snap, ws)) ==
               Only(WithNew(s, id, content, subject), IndexNew(c, id, content, subject), known + {DEFAULT_CONTEXT})
  {
    hide WriteRow, Apply, WriteSlice, ApplyIn, WithNew, IndexNew, Only;
    var reg, ws := Only(s, c, known), NewRows(id, content, subject);
    ThreeWrites(reg, ws);
    WritesOnly(s, c, known, ws[0]);
    var s1, c1 := WriteSlice(DEFAULT_CONTEXT, s, ws[0]), ApplyIn(c, ws[0]);
    WritesOnly(s1, c1, known, ws[1]);
    WritesOnly(WriteSlice(DEFAULT_CONTEXT, s1, ws[1]), ApplyIn(c1, ws[1]), known, ws[2]);
    ThreePuts(s, c, id, content, subject);
  }

  lemma PutsThreeFirst(id: nat, content: Content, subject: string)
    ensures var ws := NewRows(id, content, subject);
            && Reg(WriteBatch(MODED.rows, ws), ApplyAll(MODED.snap, ws)) ==
               Only(WithNew(EMPTY_SLICE.(mode := IMPORT_MODE), id, content, subject),
                    IndexNew(EMPTY_CTX, id, content, subject),
                    {DEFAULT_CONTEXT})
  {
    hide WriteRow, Apply, WriteSlice, ApplyIn, WithNew, IndexNew, Only;
    var s, ws := EMPTY_SLICE.(mode := IMPORT_MODE), NewRows(id, content, subject);
    ThreeWrites(MODED, ws);
    WritesFirst(MODED.rows, MODED.snap, ws[0]);
    var s1, c1 := WriteSlice(DEFAULT_CONTEXT, s, ws[0]), ApplyIn(EMPTY_CTX, ws[0]);
    WritesOnly(s1, c1, {}, ws[1]);
    WritesOnly(WriteSlice(DEFAULT_CONTEXT, s1, ws[1]), ApplyIn(c1, ws[1]), {}, ws[2]);
    ThreePuts(s, EMPTY_CTX, id, content, subject);
    assert {} + {DEFAULT_CONTEXT} == {DEFAULT_CONTEXT};
  }

  lemma ImportWrites(c: Command)
    requires c == LEADS_HIGH[1]
    ensures RegisterPlan(ViewOf(MODED, c), Named("i"), OTHER_CONTENT, 1, HIGH - 1).writes ==
            NewRows(HIGH - 1, OTHER_CONTENT, "i")
  {
  }

  lemma ImportParts()
    ensures Only(WithNew(EMPTY_SLICE.(mode := IMPORT_MODE), HIGH - 1, OTHER_CONTENT, "i"),
                 IndexNew(EMPTY_CTX, HIGH - 1, OTHER_CONTENT, "i"), {DEFAULT_CONTEXT}) == LOW_REG
  {
  }

  lemma ImportsIt()
    ensures Step(PLAIN, MODED, LEADS_HIGH[1]) == LOW_REG
  {
    hide Decide, RegisterPlan, NewRows, Only, WithNew, IndexNew;
    DecidesImport(LEADS_HIGH[1]);
    ImportWrites(LEADS_HIGH[1]);
    PutsThreeFirst(HIGH - 1, OTHER_CONTENT, "i");
    ImportParts();
  }

  lemma LowIsReady(c: Command)
    requires c == LEADS_HIGH[2]
    ensures HashLookup(LOW_REG.snap, Named("a"), LEFT_CONTENT) == None && NextId(LOW_REG.snap, DEFAULT_CONTEXT) == HIGH
    ensures Untouched(LOW_REG.snap, Named("a")) && VersionsOf(LOW_CTX, "a") == [] && HIGH !in LOW_CTX.usages
    ensures ListVersions(LOW_REG.snap, Named("a")) == []
  {
    assert Ctx(LOW_REG.snap, DEFAULT_CONTEXT) == LOW_CTX;
  }

  lemma HighWrites(c: Command)
    requires c == LEADS_HIGH[2]
    ensures PutWrites(ViewOf(LOW_REG, c), Named("a"), LEFT_CONTENT, 1, HIGH) == NewRows(HIGH, LEFT_CONTENT, "a")
  {
  }

  lemma HighParts()
    ensures Only(WithNew(LOW_SLICE, HIGH, LEFT_CONTENT, "a"), IndexNew(LOW_CTX, HIGH, LEFT_CONTENT, "a"),
                 {DEFAULT_CONTEXT} + {DEFAULT_CONTEXT}) == HIGH_REG
  {
    assert {DEFAULT_CONTEXT} + {DEFAULT_CONTEXT} == {DEFAULT_CONTEXT};
  }

  lemma RegistersHigh()
    ensures Step(PLAIN, LOW_REG, LEADS_HIGH[2]) == HIGH_REG
  {
    hide Decide, HashLookup, RegisterPlan, PutWrites, NewRows, Untouched, NextId, VersionsOf, ListVersions, Only,
      WithNew, IndexNew, WriteBatch, ApplyAll, StepMove, RecordingOf;
    var c := LEADS_HIGH[2];
    LowIsReady(c);
    DecidesPlain(LOW_REG, c, Named("a"), None, HIGH);
    PlainWrites(LOW_REG, c, Named("a"), HIGH);
    HighWrites(c);
    PutsThree(LOW_SLICE, LOW_CTX, {DEFAULT_CONTEXT}, HIGH, LEFT_CONTENT, "a");
    HighParts();
  }

  lemma HighIsReached()
    ensures Run(PLAIN, EMPTY_REG, LEADS_HIGH) == HIGH_REG && Good(HIGH_REG)
  {
    hide Step, Good;
    SetsMode();
    ImportsIt();
    RegistersHigh();
    var cs := LEADS_HIGH;
    assert cs[1..][0] == cs[1] && cs[1..][1..] == cs[2..] && cs[2..][1..] == [];
    assert Run(PLAIN, LOW_REG, cs[2..]) == HIGH_REG;
    assert Run(PLAIN, MODED, cs[1..]) == HIGH_REG;
    EmptyIsGood();
    RunKeepsGood(PLAIN, EMPTY_REG, cs);
  }

  lemma HighIsFound()
    ensures HashLookup(HIGH_REG.snap, Named("b"), LEFT_CONTENT) == Some((HIGH, None)) && AsI32(HIGH) < 0
    ensures Untouched(HIGH_REG.snap, Named("b")) && NextId(HIGH_REG.snap, DEFAULT_CONTEXT) == HIGH + 1
    ensures ListVersions(HIGH_REG.snap, Named("b")) == [] && Indexed(At(HIGH_REG, DEFAULT_CONTEXT))
  {
    assert IdUsages(HIGH_REG.snap, DEFAULT_CONTEXT, HIGH) == {Slot("a", 1)};
    assert HighestUse({Slot("a", 1)}, "b") == None;
  }

  /** Registered once more, under another subject, its content gets a second id. */
  lemma HighContentIsSplit(c: Command)
    requires c.verb == Register(Named("b"), SENT, false)
    ensures Run(PLAIN, EMPTY_REG, LEADS_HIGH) == HIGH_REG && Indexed(At(HIGH_REG, DEFAULT_CONTEXT))
    ensures var s := At(Run(PLAIN, EMPTY_REG, LEADS_HIGH + [c]), DEFAULT_CONTEXT);
            HoldsContent(s, HIGH, LEFT_CONTENT) && HoldsContent(s, HIGH + 1, LEFT_CONTENT) && !Indexed(s)
  {
    hide Good, Step, Indexed, HashLookup, Decide, Untouched, NextId, AsI32, ListVersions, RegisterPlan, StepMove,
      RecordingOf, Only, HoldsContent, Splits;
    HighIsReached();
    HighIsFound();
    DecidesPlain(HIGH_REG, c, Named("b"), Some(HIGH), HIGH + 1);
    HighRecording(c);
    StepIndexedIff(PLAIN, HIGH_REG, c, DEFAULT_CONTEXT);
    RunInTwo(PLAIN, EMPTY_REG, LEADS_HIGH, [c]);
    assert [c][1..] == [] && Run(PLAIN, HIGH_REG, [c]) == Step(PLAIN, HIGH_REG, c);
  }

  lemma HighRecording(c: Command)
    requires c.verb == Register(Named("b"), SENT, false) && Good(HIGH_REG)
             && ListVersions(HIGH_REG.snap, Named("b")) == []
    requires StepMove(PLAIN, HIGH_REG, c, DEFAULT_CONTEXT) ==
             RecordingOf(ViewOf(HIGH_REG, c), Named("b"), LEFT_CONTENT, 1, HIGH + 1)
    ensures Splits(PLAIN, HIGH_REG, c, DEFAULT_CONTEXT)
    ensures var s := At(Step(PLAIN, HIGH_REG, c), DEFAULT_CONTEXT);
            HoldsContent(s, HIGH, LEFT_CONTENT) && HoldsContent(s, HIGH + 1, LEFT_CONTENT)
  {
    hide Good, Step, StepMove, Only, IsMove;
    HighIsHeld();
    StepMoves(PLAIN, HIGH_REG, c, DEFAULT_CONTEXT);
    RecordingPuts(HIGH_REG, c, Named("b"), HIGH + 1);
    var s' := At(Step(PLAIN, HIGH_REG, c), DEFAULT_CONTEXT);
    assert s'.versions[Slot("a", 1)].id == HIGH && s'.versions[Slot("b", 1)].id == HIGH + 1;
  }

  lemma HighIsHeld()
    ensures var s := At(HIGH_REG, DEFAULT_CONTEXT);
            && Slot("a", 1) in s.versions && s.versions[Slot("a", 1)].id == HIGH && HoldsContent(s, HIGH, LEFT_CONTENT)
  {
    assert HIGH_SLICE.versions[Slot("a", 1)].id == HIGH;
  }

  // ---------------- a restored subject that no longer normalizes ----------------

  const LEVEL_ONLY := NO_CONFIG.(level := Some(Backward))

  /** A schema is registered, and its subject given a level and nothing else. */
  const LEADS_CONFIGURED := [LEADS_THERE[0], Command(UpdateConfig(Some(Named("a")), LEVEL_ONLY), 0, "")]

  const CONFIGURED :=
    Only(SliceOf(ONE_LIVE.rows, DEFAULT_CONTEXT).(config := map[Subject(DEFAULT_CONTEXT, "a") := LEVEL_ONLY]),
         Ctx(ONE_LIVE.snap, DEFAULT_CONTEXT), {DEFAULT_CONTEXT})

  lemma SetsLevel()
    ensures Step(PLAIN, ONE_LIVE, LEADS_CONFIGURED[1]) == CONFIGURED
  {
    var ws := [PutConfig(Subject(DEFAULT_CONTEXT, "a"), LEVEL_ONLY)];
    assert ws[1..] == [];
    assert WriteBatch(ONE_LIVE.rows, ws) == WriteBatch(WriteRow(ONE_LIVE.rows, ws[0]), []);
    assert ApplyAll(ONE_LIVE.snap, ws) == ApplyAll(Apply(ONE_LIVE.snap, ws[0]), []);
  }

  lemma ConfiguredIsReached()
    ensures Run(PLAIN, EMPTY_REG, LEADS_CONFIGURED) == CONFIGURED && Good(CONFIGURED)
  {
    hide Step, Good;
    RegistersFirst();
    SetsLevel();
    var cs := LEADS_CONFIGURED;
    assert cs[1..][0] == cs[1] && cs[1..][1..] == [];
    assert Run(PLAIN, ONE_LIVE, cs[1..]) == CONFIGURED;
    EmptyIsGood();
    RunKeepsGood(PLAIN, EMPTY_REG, cs);
  }

  lemma OnlyRow(q: Qualified, v: nat)
    ensures Backup.RowIn(CONFIGURED, q, v) ==
            if q == Named("a") && v == 1 then Some(Backup.Row(1, 1, false, LEFT_CONTENT)) else None
  {
  }

  /** No row there refers to another one, so any rank will do. */
  const UNRANKED: (Qualified, nat) -> nat := (q: Qualified, v: nat) => 0

  lemma OnlyRowFits()
    ensures Backup.RowFits(PLAIN, CONFIGURED, UNRANKED, Named("a"), Backup.Row(1, 1, false, LEFT_CONTENT))
  {
    hide Good;
    assert ResolveRefs(Backup.Plainly(CONFIGURED), DEFAULT_CONTEXT, [], NOTHING) == Success(NOTHING);
    assert AllAsSent(LEFT_CONTENT.refs) == [];
  }

  lemma ConfiguredIsRestorable()
    ensures Backup.Restorable(PLAIN, CONFIGURED, UNRANKED)
  {
    hide Good, Run, Backup.RowIn, Backup.RowFits;
    ConfiguredIsReached();
    OnlyRowFits();
    forall q: Qualified, v: nat
      ensures Backup.RowIn(CONFIGURED, q, v).Some? ==>
                Backup.RowFits(PLAIN, CONFIGURED, UNRANKED, q, Backup.RowIn(CONFIGURED, q, v).value)
    {
      OnlyRow(q, v);
    }
  }

  lemma OnlyRowIsLive()
    ensures Restore.OnlySubjects(CONFIGURED) && Restore.HasLive(CONFIGURED, Named("a"))
    ensures Restore.HasRows(CONFIGURED, Named("a"))
  {
    hide Backup.RowIn;
    forall q: Qualified, v: nat
      ensures Backup.RowIn(CONFIGURED, q, v).Some? ==> q == Named("a") && v == 1
    {
      OnlyRow(q, v);
    }
    OnlyRow(Named("a"), 1);
  }

  /** Dumped and restored, the subject is configured not to normalize, which it was not before. */
  method NormalizeIsSwitchedOff() returns (once: Reg)
    ensures var q := Named("a");
            && Run(PLAIN, EMPTY_REG, LEADS_CONFIGURED) == CONFIGURED
            && Restore.ConfigOf(PLAIN, CONFIGURED.snap, Some(q)) == Some(LEVEL_ONLY)
            && GetConfig(once.snap, ScopeOf(q)) == Some(LEVEL_ONLY.(normalize := Some(false)))
  {
    hide Backup.Restorable, Restore.OnlySubjects, Restore.HasRows, Restore.HasLive, Backup.SameRows, Run, Good;
    ConfiguredIsReached();
    ConfiguredIsRestorable();
    OnlyRowIsLive();
    var twice;
    once, twice := Restore.RoundTrip(PLAIN, CONFIGURED, 0, "", UNRANKED);
  }
}
