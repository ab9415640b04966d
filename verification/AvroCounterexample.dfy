/**
 Why exactness needs a condition. The reader tries two records for field `x`;
 the first attempt takes itself for granted while checking `D` and then fails,
 but `D` stays remembered as compatible and lets field `y` through. Any pair
 of name tables that contains this arrangement is accepted wrongly.
 */
module AvroCounterexample {
  import opened Wrappers
  import opened AvroTypes
  import opened AvroChecker
  import opened AvroResolution

  /** The names involved: the reader's first and second attempt, its `D`, and the writer's two records. */
  datatype Trap = Trap(root: Name, first: Name, second: Name, d: Name, wr: Name, wd: Name)

  function First(t: Trap): RecordDef {
    RecordDef(t.first, [], [Field("c", [], Ref(t.d), None), Field("bad", [], Plain(Int), None)])
  }

  function Second(t: Trap): RecordDef {
    RecordDef(t.second, [], [])
  }

  function ReaderD(t: Trap): RecordDef {
    RecordDef(t.d, [], [Field("a", [], Ref(t.first), None)])
  }

  function Either(t: Trap): Schema {
    Union([Ref(t.first), Ref(t.second)])
  }

  function ReaderRoot(t: Trap): RecordDef {
    RecordDef(t.root, [], [Field("x", [], Either(t), None), Field("y", [], Ref(t.d), None)])
  }

  function WriterW(t: Trap): RecordDef {
    RecordDef(t.wr, [], [Field("c", [], Ref(t.wd), None)])
  }

  function WriterD(t: Trap): RecordDef {
    RecordDef(t.wd, [], [Field("a", [], Ref(t.wr), None)])
  }

  function WriterRoot(t: Trap): RecordDef {
    RecordDef(t.root, [], [Field("x", [], Ref(t.wr), None), Field("y", [], Ref(t.wd), None)])
  }

  predicate Entry(names: Names, r: RecordDef) {
    r.name in names && names[r.name] == NRecord(r)
  }

  /** The tables hold the trap, and the names match the way Avro matches them. */
  predicate Sprung(env: Env, t: Trap) {
    && TableOk(env.rn) && TableOk(env.wn)
    && Entry(env.rn, ReaderRoot(t)) && Entry(env.rn, First(t)) && Entry(env.rn, Second(t)) && Entry(env.rn, ReaderD(t))
    && Entry(env.wn, WriterRoot(t)) && Entry(env.wn, WriterW(t)) && Entry(env.wn, WriterD(t))
    && t.first.simple == t.wr.simple && t.second.simple == t.wr.simple && t.d.simple == t.wd.simple
    && t.first != t.second && t.first != t.d && t.second != t.d
    && t.root != t.first && t.root != t.second && t.root != t.d
  }

  /** A pair of records not met before, by its fields. */
  lemma RecordPair(env: Env, memo: MemoMap, token: Option<Step>, rr: RecordDef, wr: RecordDef, loc: seq<Step>)
    requires TableOk(env.rn) && TableOk(env.wn) && Entry(env.rn, rr) && Entry(env.wn, wr)
    requires rr.name.simple == wr.name.simple && (rr.name, wr.name) !in memo
    ensures Ready(env, Ref(rr.name), Ref(wr.name)) && ReadyNamed(env, NRecord(rr), NRecord(wr), Ref(wr.name))
    ensures var k := (rr.name, wr.name);
            var o := CalcFields(env, memo[k := InProgress], rr, wr, Ref(wr.name), Here(token, loc), 0);
            Get(env, memo, token, Ref(rr.name), Ref(wr.name), loc) == Out(o.memo[k := Done(o.msgs)], o.msgs)
  {
    hide Get, Calc, CalcFields, TableOk;
    ReadyParts(env, Ref(rr.name), Ref(wr.name));
    var k := (rr.name, wr.name);
    GetMiss(env, memo, token, Ref(rr.name), Ref(wr.name), loc, k);
    CalcRecords(env, memo[k := InProgress], rr, wr, Here(token, loc));
  }

  lemma CalcRecords(env: Env, memo: MemoMap, rr: RecordDef, wr: RecordDef, loc: seq<Step>)
    requires TableOk(env.rn) && TableOk(env.wn) && Entry(env.rn, rr) && Entry(env.wn, wr)
    requires rr.name.simple == wr.name.simple
    requires Ready(env, Ref(rr.name), Ref(wr.name)) && ReadyNamed(env, NRecord(rr), NRecord(wr), Ref(wr.name))
    ensures Calc(env, memo, Ref(rr.name), Ref(wr.name), loc) == CalcFields(env, memo, rr, wr, Ref(wr.name), loc, 0)
  {
    hide CalcFields, TableOk, Ready, ReadyNamed;
    var o := CalcFields(env, memo, rr, wr, Ref(wr.name), loc, 0);
    assert CheckNames(rr.name, rr.aliases, wr.name, loc) == [];
    assert [] + o.msgs == o.msgs;
  }

  /** One field whose opposite is a writer field, then the rest. */
  lemma FieldThenRest(env: Env, memo: MemoMap, rr: RecordDef, wr: RecordDef, loc: seq<Step>, pos: nat, i: nat)
    requires ReadyNamed(env, NRecord(rr), NRecord(wr), Ref(wr.name))
    requires pos < |rr.fields| && FindField(rr.fields[pos], wr.fields) == Some(i)
    ensures Ready(env, rr.fields[pos].schema, wr.fields[i].schema)
    ensures var first := Get(env, memo, Some(Tok("type")), rr.fields[pos].schema, wr.fields[i].schema,
                             loc + [Tok("fields"), Pos(pos)]);
            var rest := CalcFields(env, first.memo, rr, wr, Ref(wr.name), loc, pos + 1);
            CalcFields(env, memo, rr, wr, Ref(wr.name), loc, pos) == Out(rest.memo, first.msgs + rest.msgs)
  {
    hide Get, CalcFields, CalcField, ReadyNamed;
    CalcFieldsUnfolds(env, memo, rr, wr, Ref(wr.name), loc, pos);
  }

  lemma FieldsFound(t: Trap)
    ensures FindField(ReaderD(t).fields[0], WriterD(t).fields) == Some(0)
    ensures FindField(First(t).fields[0], WriterW(t).fields) == Some(0)
    ensures FindField(First(t).fields[1], WriterW(t).fields) == None
    ensures FindField(ReaderRoot(t).fields[0], WriterRoot(t).fields) == Some(0)
    ensures FindField(ReaderRoot(t).fields[1], WriterRoot(t).fields) == Some(1)
  {
    assert FirstNamed(WriterRoot(t).fields[1..], "y") == Some(0);
    assert FirstNamed(WriterW(t).fields[1..], "bad") == None;
    assert FirstAliased(WriterW(t).fields[1..], []) == None;
  }

  /** `D` is found compatible while the failing attempt is still under way. */
  lemma DIsRemembered(env: Env, t: Trap, memo: MemoMap, token: Option<Step>, loc: seq<Step>)
    requires Sprung(env, t)
    requires (t.first, t.wr) in memo && memo[(t.first, t.wr)].InProgress? && (t.d, t.wd) !in memo
    ensures Ready(env, Ref(t.d), Ref(t.wd))
    ensures Get(env, memo, token, Ref(t.d), Ref(t.wd), loc) == Out(memo[(t.d, t.wd) := Done([])], [])
  {
    hide Get, CalcFields, Ready, ReadyNamed, TableOk;
    RecordPair(env, memo, token, ReaderD(t), WriterD(t), loc);
    var m := memo[(t.d, t.wd) := InProgress];
    FieldsFound(t);
    FieldThenRest(env, m, ReaderD(t), WriterD(t), Here(token, loc), 0, 0);
    GetHit(env, m, Some(Tok("type")), Ref(t.first), Ref(t.wr), Here(token, loc) + [Tok("fields"), Pos(0)],
           (t.first, t.wr));
    FieldsEnd(env, m, ReaderD(t), WriterD(t), Ref(t.wd), Here(token, loc));
    var none: seq<Msg> := [];
    assert none + none == none;
    assert m[(t.d, t.wd) := Done([])] == memo[(t.d, t.wd) := Done([])];
  }

  /** The first attempt fails, and leaves `D` remembered as compatible. */
  lemma FirstAttemptFails(env: Env, t: Trap, memo: MemoMap)
    requires Sprung(env, t) && (t.first, t.wr) !in memo && (t.d, t.wd) !in memo
    ensures Ready(env, Ref(t.first), Ref(t.wr))
    ensures var o := Get(env, memo, None, Ref(t.first), Ref(t.wr), []);
            && o.msgs != []
            && o.memo == memo[(t.d, t.wd) := Done([])][(t.first, t.wr) := Done(o.msgs)]
  {
    hide Get, CalcFields, Ready, ReadyNamed, TableOk;
    RecordPair(env, memo, None, First(t), WriterW(t), []);
    FirstAttemptFields(env, t, memo[(t.first, t.wr) := InProgress]);
    var o := Get(env, memo, None, Ref(t.first), Ref(t.wr), []);
    var m := memo[(t.first, t.wr) := InProgress][(t.d, t.wd) := Done([])];
    assert m[(t.first, t.wr) := Done(o.msgs)] == memo[(t.d, t.wd) := Done([])][(t.first, t.wr) := Done(o.msgs)];
  }

  lemma FirstAttemptFields(env: Env, t: Trap, memo: MemoMap)
    requires Sprung(env, t) && ReadyNamed(env, NRecord(First(t)), NRecord(WriterW(t)), Ref(t.wr))
    requires (t.first, t.wr) in memo && memo[(t.first, t.wr)].InProgress? && (t.d, t.wd) !in memo
    ensures var o := CalcFields(env, memo, First(t), WriterW(t), Ref(t.wr), [], 0);
            o.msgs != [] && o.memo == memo[(t.d, t.wd) := Done([])]
  {
    hide Get, CalcFields, CalcField, Ready, ReadyNamed, Sprung;
    FieldsFound(t);
    FieldThenRest(env, memo, First(t), WriterW(t), [], 0, 0);
    DIsRemembered(env, t, memo, Some(Tok("type")), [] + [Tok("fields"), Pos(0)]);
    var next := memo[(t.d, t.wd) := Done([])];
    CalcFieldsUnfolds(env, next, First(t), WriterW(t), Ref(t.wr), [], 1);
    FieldsEnd(env, next, First(t), WriterW(t), Ref(t.wr), []);
  }

  lemma SecondAttemptSucceeds(env: Env, t: Trap, memo: MemoMap)
    requires Sprung(env, t) && (t.second, t.wr) !in memo
    ensures Ready(env, Ref(t.second), Ref(t.wr))
    ensures Get(env, memo, None, Ref(t.second), Ref(t.wr), []) == Out(memo[(t.second, t.wr) := Done([])], [])
  {
    hide Get, CalcFields, Ready, ReadyNamed, TableOk;
    RecordPair(env, memo, None, Second(t), WriterW(t), []);
    FieldsEnd(env, memo[(t.second, t.wr) := InProgress], Second(t), WriterW(t), Ref(t.wr), []);
    assert memo[(t.second, t.wr) := InProgress][(t.second, t.wr) := Done([])] == memo[(t.second, t.wr) := Done([])];
  }

  lemma EitherIsReady(env: Env, t: Trap)
    requires Sprung(env, t)
    ensures Ready(env, Either(t), Ref(t.wr)) && Lower(Ref(t.wr), env.wn).LNamed?
  {
    hide TableOk, FitsNamed;
    assert Fits(Either(t), env.rn);
  }

  /** Field `x` is accepted through its second branch, and `D` is remembered. */
  lemma UnionFieldSucceeds(env: Env, t: Trap, memo: MemoMap, token: Option<Step>, loc: seq<Step>)
    requires Sprung(env, t)
    requires (t.first, t.wr) !in memo && (t.second, t.wr) !in memo && (t.d, t.wd) !in memo
    ensures Ready(env, Either(t), Ref(t.wr))
    ensures var o := Get(env, memo, token, Either(t), Ref(t.wr), loc);
            o.msgs == [] && (t.d, t.wd) in o.memo && o.memo[(t.d, t.wd)] == Done([])
  {
    hide Get, CalcReaderUnion, Ready, Sprung, Lower, KeyOf;
    EitherIsReady(env, t);
    GetReaderUnion(env, memo, token, Either(t), Ref(t.wr), loc);
    FirstAttemptFails(env, t, memo);
    CalcReaderUnionUnfolds(env, memo, Either(t), Ref(t.wr), 0);
    var next := Get(env, memo, None, Ref(t.first), Ref(t.wr), []).memo;
    BranchesDiffer(env, t);
    SecondAttemptSucceeds(env, t, next);
    CalcReaderUnionUnfolds(env, next, Either(t), Ref(t.wr), 1);
  }

  lemma BranchesDiffer(env: Env, t: Trap)
    requires Sprung(env, t)
    ensures t.second != t.first && t.second != t.d && t.first != t.d
  {
  }

  lemma RootIsAccepted(env: Env, t: Trap)
    requires Sprung(env, t)
    ensures Ready(env, Ref(t.root), Ref(t.root)) && CanRead(env, Ref(t.root), Ref(t.root)) == []
  {
    hide Get, CalcFields, Ready, ReadyNamed, TableOk;
    RecordPair(env, map[], None, ReaderRoot(t), WriterRoot(t), []);
    var m: MemoMap := map[][(t.root, t.root) := InProgress];
    FieldsFound(t);
    FieldThenRest(env, m, ReaderRoot(t), WriterRoot(t), [], 0, 0);
    UnionFieldSucceeds(env, t, m, Some(Tok("type")), [] + [Tok("fields"), Pos(0)]);
    var next := Get(env, m, Some(Tok("type")), Either(t), Ref(t.wr), [] + [Tok("fields"), Pos(0)]).memo;
    FieldThenRest(env, next, ReaderRoot(t), WriterRoot(t), [], 1, 1);
    GetHit(env, next, Some(Tok("type")), Ref(t.d), Ref(t.wd), [] + [Tok("fields"), Pos(1)], (t.d, t.wd));
    FieldsEnd(env, next, ReaderRoot(t), WriterRoot(t), Ref(t.root), []);
  }

  lemma FieldOf(env: Env, rr: RecordDef, wr: RecordDef, i: nat)
    requires (LNamed(NRecord(rr)), LNamed(NRecord(wr))) in Greatest(env) && i < |rr.fields|
    ensures FieldRule(env, Greatest(env), rr.fields[i], wr)
  {
    GreatestIsClosed(env);
    ClosedAt(env, Greatest(env), LNamed(NRecord(rr)), LNamed(NRecord(wr)));
  }

  lemma RootDoesNotResolve(env: Env, t: Trap)
    requires Sprung(env, t)
    ensures !Resolves(env, Ref(t.root), Ref(t.root))
  {
    hide Greatest, TableOk;
    FieldsFound(t);
    if Resolves(env, Ref(t.root), Ref(t.root)) {
      FieldOf(env, ReaderRoot(t), WriterRoot(t), 1);
      FieldOf(env, ReaderD(t), WriterD(t), 0);
      FieldOf(env, First(t), WriterW(t), 1);
    }
  }

  /** Every recursive reader that contains the trap is accepted, although its data cannot be resolved. */
  lemma AcceptsUnresolvable(env: Env, t: Trap)
    requires Sprung(env, t)
    ensures Ready(env, Ref(t.root), Ref(t.root))
    ensures CanRead(env, Ref(t.root), Ref(t.root)) == [] && !Resolves(env, Ref(t.root), Ref(t.root))
  {
    RootIsAccepted(env, t);
    RootDoesNotResolve(env, t);
  }

  const TRAP := Trap(Name("", "Root"), Name("n1", "W"), Name("n2", "W"), Name("n1", "D"), Name("", "W"), Name("", "D"))

  const READER: Names :=
    map[TRAP.root := NRecord(ReaderRoot(TRAP)), TRAP.first := NRecord(First(TRAP)),
        TRAP.second := NRecord(Second(TRAP)), TRAP.d := NRecord(ReaderD(TRAP))]

  const WRITER: Names :=
    map[TRAP.root := NRecord(WriterRoot(TRAP)), TRAP.wr := NRecord(WriterW(TRAP)), TRAP.wd := NRecord(WriterD(TRAP))]

  lemma FitsAnywhere(r: RecordDef, names: Names)
    requires forall f | f in r.fields :: f.schema.Ref? || f.schema.Plain? || IsEither(f.schema)
    ensures FitsNamed(NRecord(r), names)
  {
  }

  predicate IsEither(s: Schema) {
    s.Union? && forall v | v in s.variants :: v.Ref?
  }

  lemma NamesDiffer()
    ensures TRAP.first != TRAP.second && TRAP.first != TRAP.d && TRAP.second != TRAP.d
    ensures TRAP.root != TRAP.first && TRAP.root != TRAP.second && TRAP.root != TRAP.d
    ensures TRAP.root != TRAP.wr && TRAP.root != TRAP.wd && TRAP.wr != TRAP.wd
  {
    assert |TRAP.root.simple| == 4 && |TRAP.first.simple| == 1;
    assert TRAP.first.space[1] != TRAP.second.space[1];
    assert TRAP.first.simple[0] != TRAP.d.simple[0];
  }

  lemma ReaderIsOk()
    ensures TableOk(READER)
  {
    NamesDiffer();
    FitsAnywhere(ReaderRoot(TRAP), READER);
    FitsAnywhere(First(TRAP), READER);
    FitsAnywhere(Second(TRAP), READER);
    FitsAnywhere(ReaderD(TRAP), READER);
    hide FitsNamed;
  }

  lemma WriterIsOk()
    ensures TableOk(WRITER)
  {
    NamesDiffer();
    FitsAnywhere(WriterRoot(TRAP), WRITER);
    FitsAnywhere(WriterW(TRAP), WRITER);
    FitsAnywhere(WriterD(TRAP), WRITER);
    hide FitsNamed;
  }

  /** A pair of schemas for which the check is wrong. */
  lemma TheTrapExists()
    ensures Sprung(Env(READER, WRITER), TRAP)
  {
    hide TableOk;
    NamesDiffer();
    ReaderIsOk();
    WriterIsOk();
  }
}
