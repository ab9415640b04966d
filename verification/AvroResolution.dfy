/**
 What compatibility means, apart from how it is computed: the greatest
 relation on (reader, writer) pairs closed under the resolution rules. The
 memoised check never rejects a pair of that relation.
 */
module AvroResolution {
  import opened Wrappers
  import opened AvroTypes
  import opened AvroChecker

  type Rel = iset<(Lowered, Lowered)>

  ghost predicate Related(env: Env, rel: Rel, r: Schema, w: Schema) {
    (Lower(r, env.rn), Lower(w, env.wn)) in rel
  }

  /** A reader field is fed by a writer field it is related to, or by its default. */
  ghost predicate FieldRule(env: Env, rel: Rel, rf: Field, wr: RecordDef) {
    var found := FindField(rf, wr.fields);
    if found.Some? then Related(env, rel, rf.schema, wr.fields[found.value].schema) else rf.default.Some?
  }

  predicate FixedRule(rf: FixedDef, wf: FixedDef) {
    NamesMatch(rf.name, rf.aliases, wf.name) && rf.size == wf.size
  }

  predicate EnumRule(re: EnumDef, we: EnumDef) {
    NamesMatch(re.name, re.aliases, we.name) && ((forall s | s in we.symbols :: s in re.symbols) || DefaultSymbolOk(re))
  }

  ghost predicate NamedRule(env: Env, rel: Rel, rd: Named, wd: Named) {
    if rd.NFixed? && wd.NFixed? then FixedRule(rd.f, wd.f)
    else if rd.NEnum? && wd.NEnum? then EnumRule(rd.e, wd.e)
    else if rd.NRecord? && wd.NRecord? then
      && NamesMatch(rd.r.name, rd.r.aliases, wd.r.name)
      && forall i | 0 <= i < |rd.r.fields| :: FieldRule(env, rel, rd.r.fields[i], wd.r)
    else false
  }

  /** One step of schema resolution, with `rel` standing for the pairs it recurses into. */
  ghost predicate Rules(env: Env, rel: Rel, lr: Lowered, lw: Lowered) {
    if lr.Unresolved? || lw.Unresolved? then false
    else if lw.LUnion? then forall i | 0 <= i < |lw.variants| :: (lr, Lower(lw.variants[i], env.wn)) in rel
    else if lr.LUnion? then exists i | 0 <= i < |lr.variants| :: (Lower(lr.variants[i], env.rn), lw) in rel
    else if lr.LArray? && lw.LArray? then Related(env, rel, lr.items, lw.items)
    else if lr.LMap? && lw.LMap? then Related(env, rel, lr.values, lw.values)
    else if lr.LNamed? && lw.LNamed? then NamedRule(env, rel, lr.d, lw.d)
    else lr.LPrim? && lw.LPrim? && Promotable(lw.p, lr.p)
  }

  ghost predicate Closed(env: Env, rel: Rel) {
    forall lr, lw {:trigger Rules(env, rel, lr, lw)} :: (lr, lw) in rel ==> Rules(env, rel, lr, lw)
  }

  ghost predicate InSomeClosed(env: Env, p: (Lowered, Lowered)) {
    exists rel: Rel :: Closed(env, rel) && p in rel
  }

  /** The greatest relation closed under the rules: the union of all closed ones. */
  ghost function Greatest(env: Env): Rel {
    iset p: (Lowered, Lowered) | InSomeClosed(env, p)
  }

  /** The reader can resolve the writer. */
  ghost predicate Resolves(env: Env, r: Schema, w: Schema) {
    Related(env, Greatest(env), r, w)
  }

  // ---------------- the greatest relation is a fixed point ----------------

  lemma RulesAreMonotone(env: Env, small: Rel, large: Rel, lr: Lowered, lw: Lowered)
    requires small <= large && Rules(env, small, lr, lw)
    ensures Rules(env, large, lr, lw)
  {
    if lr.LNamed? && lw.LNamed? && lr.d.NRecord? && lw.d.NRecord? {
      forall i | 0 <= i < |lr.d.r.fields|
        ensures FieldRule(env, large, lr.d.r.fields[i], lw.d.r)
      {
        assert FieldRule(env, small, lr.d.r.fields[i], lw.d.r);
      }
    }
  }

  lemma GreatestIsClosed(env: Env)
    ensures Closed(env, Greatest(env))
  {
    var g := Greatest(env);
    forall lr, lw | (lr, lw) in g
      ensures Rules(env, g, lr, lw)
    {
      assert InSomeClosed(env, (lr, lw));
      var rel: Rel :| Closed(env, rel) && (lr, lw) in rel;
      assert rel <= g;
      RulesAreMonotone(env, rel, g, lr, lw);
    }
  }

  lemma GreatestIsGreatest(env: Env, rel: Rel)
    requires Closed(env, rel)
    ensures rel <= Greatest(env)
  {
  }

  /** Whatever one step of the rules derives from the greatest relation is in it. */
  lemma GreatestFolds(env: Env, lr: Lowered, lw: Lowered)
    requires Rules(env, Greatest(env), lr, lw)
    ensures (lr, lw) in Greatest(env)
  {
    var g := Greatest(env);
    var more := g + iset{(lr, lw)};
    GreatestIsClosed(env);
    forall r, w | (r, w) in more
      ensures Rules(env, more, r, w)
    {
      assert (r, w) in g ==> Rules(env, g, r, w);
      RulesAreMonotone(env, g, more, r, w);
    }
    GreatestIsGreatest(env, more);
  }

  // ---------------- the check never rejects a pair of a closed relation ----------------

  ghost predicate KeyRelated(env: Env, rel: Rel, k: Key) {
    k.0 in env.rn && k.1 in env.wn && (LNamed(env.rn[k.0]), LNamed(env.wn[k.1])) in rel
  }

  /** Remembered failures are outside the relation; whatever has not failed is a pair of one kind. */
  ghost predicate MemoFits(env: Env, rel: Rel, memo: MemoMap) {
    forall k | k in memo ::
      if memo[k].Done? && memo[k].msgs != [] then !KeyRelated(env, rel, k)
      else k.0 in env.rn && k.1 in env.wn && SameKind(env.rn[k.0], env.wn[k.1])
  }

  lemma FitsAt(env: Env, rel: Rel, memo: MemoMap, k: Key)
    requires MemoFits(env, rel, memo) && k in memo
    ensures if memo[k].Done? && memo[k].msgs != [] then !KeyRelated(env, rel, k)
            else k.0 in env.rn && k.1 in env.wn && SameKind(env.rn[k.0], env.wn[k.1])
  {
  }

  lemma RememberFits(env: Env, rel: Rel, memo: MemoMap, k: Key, m: Memo)
    requires MemoFits(env, rel, memo)
    requires if m.Done? && m.msgs != [] then !KeyRelated(env, rel, k)
             else k.0 in env.rn && k.1 in env.wn && SameKind(env.rn[k.0], env.wn[k.1])
    ensures MemoFits(env, rel, memo[k := m])
  {
  }

  lemma UnlikeIsUnrelated(env: Env, rel: Rel, r: Schema, w: Schema)
    requires Ready(env, r, w) && KeyOf(env, r, w).Some? && !SameKind(Lower(r, env.rn).d, Lower(w, env.wn).d)
    requires Closed(env, rel)
    ensures !Related(env, rel, r, w)
  {
    hide Ready, Lower, Closed;
    if Related(env, rel, r, w) {
      ClosedAt(env, rel, Lower(r, env.rn), Lower(w, env.wn));
    }
  }

  /** Not looked at before, they are reported, and that is what is remembered of the pair. */
  lemma MissDifferentKinds(env: Env, memo: MemoMap, token: Option<Step>, r: Schema, w: Schema, loc: seq<Step>, k: Key)
    requires Ready(env, r, w) && KeyOf(env, r, w) == Some(k) && !SameKind(Lower(r, env.rn).d, Lower(w, env.wn).d)
    requires k !in memo
    ensures var o := Get(env, memo, token, r, w, loc);
            o.msgs != [] && o.memo == memo[k := Done(o.msgs)]
  {
    hide Ready, Lower, Get, Calc, Extends, Unmemoised, KeyOf, SameKind, Size, CalcSize;
    KeyIsInTables(env, r, w);
    GetMiss(env, memo, token, r, w, loc, k);
    CalcDifferentKinds(env, memo[k := InProgress], r, w, Here(token, loc));
    var m := Done(Calc(env, memo[k := InProgress], r, w, Here(token, loc)).msgs);
    assert memo[k := InProgress][k := m] == memo[k := m];
  }

  /** Named types of different kinds are always reported, and remembered as a failure. */
  lemma GetDifferentKinds(env: Env, rel: Rel, memo: MemoMap, token: Option<Step>, r: Schema, w: Schema, loc: seq<Step>)
    requires Ready(env, r, w) && KeyOf(env, r, w).Some? && !SameKind(Lower(r, env.rn).d, Lower(w, env.wn).d)
    requires Closed(env, rel) && MemoFits(env, rel, memo)
    ensures var o := Get(env, memo, token, r, w, loc);
            var k := KeyOf(env, r, w).value;
            && o.msgs != [] && !Related(env, rel, r, w)
            && (o.memo == memo || (k !in memo && o.memo == memo[k := Done(o.msgs)]))
            && MemoFits(env, rel, o.memo)
  {
    hide Ready, Lower, Get, Calc, Closed, MemoFits, KeyRelated, KeyOf, SameKind, Related, Extends, Unmemoised, Size,
      CalcSize;
    var k := KeyOf(env, r, w).value;
    KeyRelatedIsRelated(env, rel, r, w, k);
    UnlikeIsUnrelated(env, rel, r, w);
    KeyIsInTables(env, r, w);
    if k in memo {
      GetHit(env, memo, token, r, w, loc, k);
      FitsAt(env, rel, memo, k);
    } else {
      MissDifferentKinds(env, memo, token, r, w, loc, k);
      RememberFits(env, rel, memo, k, Done(Get(env, memo, token, r, w, loc).msgs));
    }
  }

  lemma ClosedAt(env: Env, rel: Rel, lr: Lowered, lw: Lowered)
    requires Closed(env, rel) && (lr, lw) in rel
    ensures Rules(env, rel, lr, lw)
  {
  }

  lemma {:induction false} GetAccepts(env: Env, rel: Rel, memo: MemoMap, token: Option<Step>, r: Schema, w: Schema,
                                      loc: seq<Step>)
    requires Ready(env, r, w) && Closed(env, rel) && MemoFits(env, rel, memo)
    ensures MemoFits(env, rel, Get(env, memo, token, r, w, loc).memo)
    ensures Related(env, rel, r, w) ==> Get(env, memo, token, r, w, loc).msgs == []
    decreases Unmemoised(env, memo), Size(r) + Size(w), 3, 0
  {
    hide Ready, Size, Lower, Unmemoised, Extends, MemoFits, Get, Calc, KeyRelated, Closed, Rules;
    if Related(env, rel, r, w) {
      ClosedAt(env, rel, Lower(r, env.rn), Lower(w, env.wn));
    }
    var k := KeyOf(env, r, w);
    if k.None? {
      GetUnnamed(env, memo, token, r, w, loc);
      CalcAccepts(env, rel, memo, r, w, Here(token, loc));
    } else if k.value in memo {
      GetHit(env, memo, token, r, w, loc, k.value);
      KeyRelatedIsRelated(env, rel, r, w, k.value);
      FitsAt(env, rel, memo, k.value);
    } else if !SameKind(Lower(r, env.rn).d, Lower(w, env.wn).d) {
      GetDifferentKinds(env, rel, memo, token, r, w, loc);
    } else {
      KeyIsInTables(env, r, w);
      GetMiss(env, memo, token, r, w, loc, k.value);
      KeyRelatedIsRelated(env, rel, r, w, k.value);
      RememberFits(env, rel, memo, k.value, InProgress);
      CalcAccepts(env, rel, memo[k.value := InProgress], r, w, Here(token, loc));
      var c := Calc(env, memo[k.value := InProgress], r, w, Here(token, loc));
      RememberFits(env, rel, c.memo, k.value, Done(c.msgs));
    }
  }

  lemma KeyRelatedIsRelated(env: Env, rel: Rel, r: Schema, w: Schema, k: Key)
    requires Ready(env, r, w) && KeyOf(env, r, w) == Some(k)
    ensures KeyRelated(env, rel, k) <==> Related(env, rel, r, w)
  {
    KeyIsInTables(env, r, w);
  }

  lemma {:induction false} CalcAccepts(env: Env, rel: Rel, memo: MemoMap, r: Schema, w: Schema, loc: seq<Step>)
    requires Ready(env, r, w) && Closed(env, rel) && MemoFits(env, rel, memo)
    ensures MemoFits(env, rel, Calc(env, memo, r, w, loc).memo)
    ensures Rules(env, rel, Lower(r, env.rn), Lower(w, env.wn)) ==> Calc(env, memo, r, w, loc).msgs == []
    decreases Unmemoised(env, memo), CalcSize(env, r, w), 2, 0
  {
    hide Ready, ReadyNamed, Size, Unmemoised, Lower, CalcSize, NamedSize, Extends, MemoFits, Closed, Get, CalcNamed,
      CalcAnyUnion, NamedRule;
    ReadyParts(env, r, w);
    var lr, lw := Lower(r, env.rn), Lower(w, env.wn);
    if lr.Unresolved? || lw.Unresolved? {
    } else if lr.LArray? && lw.LArray? {
      GetAccepts(env, rel, memo, Some(Tok("items")), lr.items, lw.items, loc);
    } else if lr.LMap? && lw.LMap? {
      GetAccepts(env, rel, memo, Some(Tok("values")), lr.values, lw.values, loc);
    } else if lr.LNamed? && lw.LNamed? {
      CalcNamedAccepts(env, rel, memo, lr.d, lw.d, w, loc);
    } else if lr.LUnion? || lw.LUnion? {
      CalcAnyUnionAccepts(env, rel, memo, r, w, loc);
    }
  }

  lemma {:induction false} CalcAnyUnionAccepts(env: Env, rel: Rel, memo: MemoMap, r: Schema, w: Schema, loc: seq<Step>)
    requires Ready(env, r, w) && (r.Union? || w.Union?)
    requires Closed(env, rel) && MemoFits(env, rel, memo)
    ensures MemoFits(env, rel, CalcAnyUnion(env, memo, r, w, loc).memo)
    ensures Rules(env, rel, Lower(r, env.rn), Lower(w, env.wn)) ==> CalcAnyUnion(env, memo, r, w, loc).msgs == []
    decreases Unmemoised(env, memo), Size(r) + Size(w), 1, 0
  {
    hide Ready, Size, Unmemoised, Extends, MemoFits, CalcUnions, CalcWriterUnion, CalcReaderUnion;
    if r.Union? && w.Union? {
      CalcUnionsAccepts(env, rel, memo, r, w, loc, 0);
    } else if w.Union? {
      CalcWriterUnionAccepts(env, rel, memo, r, w, 0);
    } else {
      var good := 0;
      if i :| 0 <= i < |r.variants| && Related(env, rel, r.variants[i], w) {
        good := i;
      }
      CalcReaderUnionAccepts(env, rel, memo, r, w, 0, good);
    }
  }

  lemma {:induction false} CalcNamedAccepts(env: Env, rel: Rel, memo: MemoMap, rd: Named, wd: Named, w: Schema,
                                            loc: seq<Step>)
    requires ReadyNamed(env, rd, wd, w)
    requires Closed(env, rel) && MemoFits(env, rel, memo)
    ensures MemoFits(env, rel, CalcNamed(env, memo, rd, wd, w, loc).memo)
    ensures NamedRule(env, rel, rd, wd) ==> CalcNamed(env, memo, rd, wd, w, loc).msgs == []
    decreases Unmemoised(env, memo), NamedSize(rd) + NamedSize(wd), 0, |if rd.NRecord? then rd.r.fields else []| + 1
  {
    hide ReadyNamed, CalcFields;
    if rd.NRecord? && wd.NRecord? {
      CalcFieldsAccepts(env, rel, memo, rd.r, wd.r, w, loc, 0);
    }
  }

  lemma {:induction false} CalcFieldsAccepts(env: Env, rel: Rel, memo: MemoMap, rr: RecordDef, wr: RecordDef, w: Schema,
                                             loc: seq<Step>, pos: nat)
    requires ReadyNamed(env, NRecord(rr), NRecord(wr), w)
    requires pos <= |rr.fields| && Closed(env, rel) && MemoFits(env, rel, memo)
    ensures MemoFits(env, rel, CalcFields(env, memo, rr, wr, w, loc, pos).memo)
    ensures (forall i | pos <= i < |rr.fields| :: FieldRule(env, rel, rr.fields[i], wr))
            ==> CalcFields(env, memo, rr, wr, w, loc, pos).msgs == []
    decreases Unmemoised(env, memo), NamedSize(NRecord(rr)) + NamedSize(NRecord(wr)), 0, |rr.fields| - pos
  {
    hide Ready, ReadyNamed, Size, Unmemoised, Get, CalcField, CalcFields;
    if pos == |rr.fields| {
      FieldsEnd(env, memo, rr, wr, w, loc);
    } else {
      CalcFieldsUnfolds(env, memo, rr, wr, w, loc, pos);
      var rf := rr.fields[pos];
      var opp := Opposite(env, rf, wr, w);
      if opp.Some? {
        GetAccepts(env, rel, memo, Some(Tok("type")), rf.schema, opp.value, loc + [Tok("fields"), Pos(pos)]);
      }
      CalcFieldsAccepts(env, rel, CalcField(env, memo, rr, wr, w, loc, pos).memo, rr, wr, w, loc, pos + 1);
    }
  }

  lemma {:induction false} CalcUnionsAccepts(env: Env, rel: Rel, memo: MemoMap, r: Schema, w: Schema, loc: seq<Step>,
                                             i: nat)
    requires Ready(env, r, w) && w.Union? && i <= |w.variants|
    requires Closed(env, rel) && MemoFits(env, rel, memo)
    ensures MemoFits(env, rel, CalcUnions(env, memo, r, w, loc, i).memo)
    ensures (forall j | i <= j < |w.variants| :: Related(env, rel, r, w.variants[j]))
            ==> CalcUnions(env, memo, r, w, loc, i).msgs == []
    decreases Unmemoised(env, memo), Size(r) + Size(w), 0, |w.variants| - i
  {
    hide Ready, Size, Unmemoised, Get, CalcUnions;
    if i == |w.variants| {
      LoopsEnd(env, memo, r, w, loc);
    } else {
      CalcUnionsUnfolds(env, memo, r, w, loc, i);
      GetAccepts(env, rel, memo, None, r, w.variants[i], []);
      CalcUnionsAccepts(env, rel, Get(env, memo, None, r, w.variants[i], []).memo, r, w, loc, i + 1);
    }
  }

  lemma {:induction false} CalcWriterUnionAccepts(env: Env, rel: Rel, memo: MemoMap, r: Schema, w: Schema, i: nat)
    requires Ready(env, r, w) && w.Union? && i <= |w.variants|
    requires Closed(env, rel) && MemoFits(env, rel, memo)
    ensures MemoFits(env, rel, CalcWriterUnion(env, memo, r, w, i).memo)
    ensures (forall j | i <= j < |w.variants| :: Related(env, rel, r, w.variants[j]))
            ==> CalcWriterUnion(env, memo, r, w, i).msgs == []
    decreases Unmemoised(env, memo), Size(r) + Size(w), 0, |w.variants| - i
  {
    hide Ready, Size, Unmemoised, Get, CalcWriterUnion;
    if i == |w.variants| {
      LoopsEnd(env, memo, r, w, []);
    } else {
      CalcWriterUnionUnfolds(env, memo, r, w, i);
      GetAccepts(env, rel, memo, None, r, w.variants[i], []);
      CalcWriterUnionAccepts(env, rel, Get(env, memo, None, r, w.variants[i], []).memo, r, w, i + 1);
    }
  }

  lemma {:induction false} CalcReaderUnionAccepts(env: Env, rel: Rel, memo: MemoMap, r: Schema, w: Schema, i: nat,
                                                  good: nat)
    requires Ready(env, r, w) && r.Union? && i <= |r.variants|
    requires Closed(env, rel) && MemoFits(env, rel, memo)
    ensures MemoFits(env, rel, CalcReaderUnion(env, memo, r, w, i).memo)
    ensures i <= good < |r.variants| && Related(env, rel, r.variants[good], w)
            ==> CalcReaderUnion(env, memo, r, w, i).msgs == []
    decreases Unmemoised(env, memo), Size(r) + Size(w), 0, |r.variants| - i
  {
    hide Ready, Size, Unmemoised, Get, CalcReaderUnion;
    if i == |r.variants| {
      LoopsEnd(env, memo, r, w, []);
    } else {
      CalcReaderUnionUnfolds(env, memo, r, w, i);
      GetAccepts(env, rel, memo, None, r.variants[i], w, []);
      var first := Get(env, memo, None, r.variants[i], w, []);
      if first.msgs != [] {
        CalcReaderUnionAccepts(env, rel, first.memo, r, w, i + 1, good);
      }
    }
  }

  /** A pair the resolution rules allow is never reported incompatible. */
  lemma CanReadAcceptsResolvable(env: Env, r: Schema, w: Schema)
    requires Ready(env, r, w) && Resolves(env, r, w)
    ensures CanRead(env, r, w) == []
  {
    GreatestIsClosed(env);
    GetAccepts(env, Greatest(env), map[], None, r, w, []);
  }

  // ---------------- a schema reads itself ----------------

  /** Closed, and shaped as the Avro parser guarantees: no union directly inside a union, no field name twice. */
  predicate Proper(s: Schema, names: Names)
    decreases s
  {
    match s
    case Array(i) => Proper(i, names)
    case Map(v) => Proper(v, names)
    case Union(vs) => forall v | v in vs :: !v.Union? && Proper(v, names)
    case Record(r) => DistinctFields(r.fields) && forall f | f in r.fields :: Proper(f.schema, names)
    case Ref(n) => n in names
    case _ => true
  }

  predicate DistinctFields(fs: seq<Field>) {
    forall i, j | 0 <= i < j < |fs| :: fs[i].name != fs[j].name
  }

  predicate ProperNamed(d: Named, names: Names) {
    d.NRecord? ==> DistinctFields(d.r.fields) && forall f | f in d.r.fields :: Proper(f.schema, names)
  }

  predicate ProperTable(names: Names) {
    forall n | n in names :: ProperNamed(names[n], names)
  }

  ghost function Reflexive(names: Names): Rel {
    (iset s: Schema | Proper(s, names) :: (Lower(s, names), Lower(s, names))) +
    (iset s: Schema, v: Schema | Proper(s, names) && s.Union? && v in s.variants :: (Lower(s, names), Lower(v, names)))
  }

  lemma ProperLowers(s: Schema, names: Names)
    requires ProperTable(names) && Proper(s, names)
    ensures var l := Lower(s, names);
            && !l.Unresolved?
            && (l.LNamed? ==> ProperNamed(l.d, names))
            && (l.LArray? ==> Proper(l.items, names))
            && (l.LMap? ==> Proper(l.values, names))
            && (l.LUnion? ==> forall v | v in l.variants :: Proper(v, names) && !v.Union?)
  {
  }

  lemma ReflexiveIsClosed(names: Names)
    requires ProperTable(names)
    ensures Closed(Env(names, names), Reflexive(names))
  {
    var env, rel := Env(names, names), Reflexive(names);
    forall lr, lw | (lr, lw) in rel
      ensures Rules(env, rel, lr, lw)
    {
      var p := (lr, lw);
      if s: Schema :| Proper(s, names) && p == (Lower(s, names), Lower(s, names)) {
        ProperLowers(s, names);
        SelfRules(names, s);
      } else {
        var s: Schema, v: Schema :| Proper(s, names) && s.Union? && v in s.variants
          && p == (Lower(s, names), Lower(v, names));
        ProperLowers(s, names);
        ProperLowers(v, names);
        var i :| 0 <= i < |s.variants| && s.variants[i] == v;
        assert (Lower(s.variants[i], names), p.1) in rel;
      }
    }
  }

  lemma SelfRules(names: Names, s: Schema)
    requires ProperTable(names) && Proper(s, names)
    ensures Rules(Env(names, names), Reflexive(names), Lower(s, names), Lower(s, names))
  {
    var env, rel := Env(names, names), Reflexive(names);
    ProperLowers(s, names);
    var l := Lower(s, names);
    if l.LNamed? && l.d.NRecord? {
      forall i | 0 <= i < |l.d.r.fields|
        ensures FieldRule(env, rel, l.d.r.fields[i], l.d.r)
      {
        var rf := l.d.r.fields[i];
        var found := FirstNamed(l.d.r.fields, rf.name);
        assert found.Some? && found.value == i;
        assert Proper(rf.schema, names);
      }
    }
  }

  /** Every closed schema reads its own data, however its named types recurse. */
  lemma EverySchemaReadsItself(names: Names, s: Schema)
    requires TableOk(names) && Fits(s, names) && ProperTable(names) && Proper(s, names)
    ensures CanRead(Env(names, names), s, s) == []
  {
    ReflexiveIsClosed(names);
    GreatestIsGreatest(Env(names, names), Reflexive(names));
    CanReadAcceptsResolvable(Env(names, names), s, s);
  }
}
