/**
 When the memoised check accepts exactly the resolvable pairs. Taking a pair
 that is still being checked for compatible is harmless as long as a failure
 found later reaches the root. It does when the reader's unions offer a writer
 at most one branch that takes a search of its own, one record, one array and
 one map: if that branch fails, so does the union.
 */
module AvroExactness {
  import opened Wrappers
  import opened AvroTypes
  import opened AvroChecker
  import opened AvroResolution

  // ---------------- unions without a choice ----------------

  /** Checking a pair of this kind goes on to other pairs. */
  predicate Deep(l: Lowered) {
    l.LArray? || l.LMap? || (l.LNamed? && l.d.NRecord?)
  }

  /** At most one branch of each such kind, and no union inside the union. */
  predicate SimpleUnion(variants: seq<Schema>, names: Names) {
    && (forall i | 0 <= i < |variants| :: !Lower(variants[i], names).LUnion?)
    && (forall i, j | 0 <= i < j < |variants| && Deep(Lower(variants[i], names)) ::
          KindOf(Lower(variants[i], names)) != KindOf(Lower(variants[j], names)))
  }

  predicate Simple(s: Schema, names: Names)
    decreases s
  {
    match s
    case Array(i) => Simple(i, names)
    case Map(v) => Simple(v, names)
    case Union(vs) => SimpleUnion(vs, names) && forall v | v in vs :: Simple(v, names)
    case Record(r) => forall f | f in r.fields :: Simple(f.schema, names)
    case _ => true
  }

  predicate SimpleNamed(d: Named, names: Names) {
    d.NRecord? ==> forall f | f in d.r.fields :: Simple(f.schema, names)
  }

  predicate SimpleTable(names: Names) {
    forall n | n in names :: SimpleNamed(names[n], names)
  }

  /** The pairs taken for compatible: found so, or still being checked. */
  function Passed(memo: MemoMap): set<Key> {
    set k | k in memo && !(memo[k].Done? && memo[k].msgs != [])
  }

  lemma PassedGrows(memo: MemoMap, more: MemoMap)
    requires Extends(memo, more)
    ensures Passed(memo) <= Passed(more)
  {
  }

  /** A pair that holds once the named pairs in `keys` do. */
  predicate Assumed(env: Env, keys: set<Key>, r: Schema, w: Schema)
    requires Ready(env, r, w)
    decreases Size(r) + Size(w), 1
  {
    ReadyParts(env, r, w);
    var lr, lw := Lower(r, env.rn), Lower(w, env.wn);
    if lr.Unresolved? || lw.Unresolved? then false
    else if lw.LUnion? then
      forall i | 0 <= i < |w.variants| ::
        VariantIsSmaller(w.variants, i); Assumed(env, keys, r, w.variants[i])
    else if lr.LUnion? then
      exists i | 0 <= i < |r.variants| :: AssumedAt(env, keys, r, w, i)
    else if lr.LArray? && lw.LArray? then Assumed(env, keys, lr.items, lw.items)
    else if lr.LMap? && lw.LMap? then Assumed(env, keys, lr.values, lw.values)
    else if lr.LNamed? && lw.LNamed? then (NameOf(lr.d), NameOf(lw.d)) in keys
    else lr.LPrim? && lw.LPrim? && Promotable(lw.p, lr.p)
  }

  predicate AssumedAt(env: Env, keys: set<Key>, r: Schema, w: Schema, i: nat)
    requires Ready(env, r, w) && r.Union? && i < |r.variants|
    decreases Size(r) + Size(w), 0
  {
    VariantIsSmaller(r.variants, i);
    Assumed(env, keys, r.variants[i], w)
  }

  ghost predicate Holding(env: Env, keys: set<Key>, r: Schema, w: Schema) {
    Ready(env, r, w) && Assumed(env, keys, r, w)
  }

  ghost function RelOf(env: Env, keys: set<Key>): Rel {
    iset r: Schema, w: Schema | Holding(env, keys, r, w) :: (Lower(r, env.rn), Lower(w, env.wn))
  }

  /** The named pair's own rule holds, given the pairs in `keys`. */
  ghost predicate Body(env: Env, keys: set<Key>, k: Key) {
    k.0 in env.rn && k.1 in env.wn && NamedRule(env, RelOf(env, keys), env.rn[k.0], env.wn[k.1])
  }

  ghost predicate Justified(env: Env, memo: MemoMap, more: MemoMap) {
    forall k | k in Passed(more) && k !in memo :: Body(env, Passed(more), k)
  }

  lemma {:induction false} AssumedGrows(env: Env, keys: set<Key>, more: set<Key>, r: Schema, w: Schema)
    requires Ready(env, r, w) && keys <= more && Assumed(env, keys, r, w)
    ensures Assumed(env, more, r, w)
    decreases Size(r) + Size(w)
  {
    ReadyParts(env, r, w);
    var lr, lw := Lower(r, env.rn), Lower(w, env.wn);
    if lw.LUnion? {
      forall i | 0 <= i < |w.variants|
        ensures Assumed(env, more, r, w.variants[i])
      {
        VariantIsSmaller(w.variants, i);
        AssumedGrows(env, keys, more, r, w.variants[i]);
      }
    } else if lr.LUnion? {
      var i := AssumedBranch(env, keys, r, w);
      AssumedGrows(env, keys, more, r.variants[i], w);
      assert AssumedAt(env, more, r, w, i);
    } else if lr.LArray? && lw.LArray? {
      AssumedGrows(env, keys, more, lr.items, lw.items);
    } else if lr.LMap? && lw.LMap? {
      AssumedGrows(env, keys, more, lr.values, lw.values);
    }
  }

  lemma BodyGrows(env: Env, keys: set<Key>, more: set<Key>, k: Key)
    requires keys <= more && Body(env, keys, k)
    ensures Body(env, more, k)
  {
    forall r, w | Holding(env, keys, r, w)
      ensures Holding(env, more, r, w)
    {
      AssumedGrows(env, keys, more, r, w);
    }
    assert RelOf(env, keys) <= RelOf(env, more);
    RulesAreMonotone(env, RelOf(env, keys), RelOf(env, more), LNamed(env.rn[k.0]), LNamed(env.wn[k.1]));
  }

  lemma JustifiedChains(env: Env, memo: MemoMap, next: MemoMap, last: MemoMap)
    requires Justified(env, memo, next) && Justified(env, next, last) && Extends(next, last)
    ensures Justified(env, memo, last) && Passed(next) <= Passed(last)
  {
    PassedGrows(next, last);
    forall k | k in Passed(last) && k !in memo
      ensures Body(env, Passed(last), k)
    {
      if k in next {
        assert k in Passed(next);
        BodyGrows(env, Passed(next), Passed(last), k);
      }
    }
  }

  lemma AssumedIsClosed(env: Env, keys: set<Key>)
    requires forall k | k in keys :: Body(env, keys, k)
    ensures Closed(env, RelOf(env, keys))
  {
    var rel := RelOf(env, keys);
    forall lr, lw | (lr, lw) in rel
      ensures Rules(env, rel, lr, lw)
    {
      var r, w :| Holding(env, keys, r, w) && lr == Lower(r, env.rn) && lw == Lower(w, env.wn);
      AssumedRules(env, keys, r, w);
    }
  }

  lemma AssumedBranch(env: Env, keys: set<Key>, r: Schema, w: Schema) returns (i: nat)
    requires Ready(env, r, w) && Assumed(env, keys, r, w) && r.Union? && !Lower(w, env.wn).LUnion?
    ensures i < |r.variants| && Holding(env, keys, r.variants[i], w) && Size(r.variants[i]) < Size(r)
  {
    i :| 0 <= i < |r.variants| && AssumedAt(env, keys, r, w, i);
    VariantIsSmaller(r.variants, i);
  }

  lemma AssumedRules(env: Env, keys: set<Key>, r: Schema, w: Schema)
    requires Holding(env, keys, r, w) && forall k | k in keys :: Body(env, keys, k)
    ensures Rules(env, RelOf(env, keys), Lower(r, env.rn), Lower(w, env.wn))
  {
    hide NamedRule, RelOf;
    var lr, lw := Lower(r, env.rn), Lower(w, env.wn);
    if lr.LUnion? || lw.LUnion? {
      AssumedUnionRules(env, keys, r, w);
    } else {
      ReadyParts(env, r, w);
      if lr.LArray? && lw.LArray? {
        HoldingIsRelated(env, keys, lr.items, lw.items);
      } else if lr.LMap? && lw.LMap? {
        HoldingIsRelated(env, keys, lr.values, lw.values);
      } else if lr.LNamed? && lw.LNamed? {
        KeyIsInTables(env, r, w);
        assert Body(env, keys, (NameOf(lr.d), NameOf(lw.d)));
      }
    }
  }

  lemma HoldingIsRelated(env: Env, keys: set<Key>, r: Schema, w: Schema)
    requires Holding(env, keys, r, w)
    ensures Related(env, RelOf(env, keys), r, w)
  {
  }

  lemma AssumedUnionRules(env: Env, keys: set<Key>, r: Schema, w: Schema)
    requires Holding(env, keys, r, w) && (r.Union? || w.Union?)
    ensures Rules(env, RelOf(env, keys), Lower(r, env.rn), Lower(w, env.wn))
  {
    hide NamedRule, RelOf;
    if w.Union? {
      forall i | 0 <= i < |w.variants|
        ensures Related(env, RelOf(env, keys), r, w.variants[i])
      {
        VariantIsSmaller(w.variants, i);
        HoldingIsRelated(env, keys, r, w.variants[i]);
      }
    } else {
      var i := AssumedBranch(env, keys, r, w);
      HoldingIsRelated(env, keys, r.variants[i], w);
    }
  }

  ghost predicate Sane(env: Env, memo: MemoMap) {
    MemoFits(env, iset{}, memo)
  }

  lemma GetIsSane(env: Env, memo: MemoMap, token: Option<Step>, r: Schema, w: Schema, loc: seq<Step>)
    requires Ready(env, r, w) && Sane(env, memo)
    ensures Sane(env, Get(env, memo, token, r, w, loc).memo)
  {
    GetAccepts(env, iset{}, memo, token, r, w, loc);
  }

  lemma {:induction false} GetJustified(env: Env, memo: MemoMap, token: Option<Step>, r: Schema, w: Schema,
                                        loc: seq<Step>)
    requires Ready(env, r, w) && Simple(r, env.rn) && SimpleTable(env.rn) && Sane(env, memo)
    ensures var o := Get(env, memo, token, r, w, loc);
            o.msgs == [] ==> Holding(env, Passed(o.memo), r, w) && Justified(env, memo, o.memo)
    decreases Unmemoised(env, memo), Size(r) + Size(w), 3, 0
  {
    hide Ready, Size, Lower, Unmemoised, Get, Calc, Simple, SimpleTable, NamedRule, Holding, Justified, MemoFits;
    var key := KeyOf(env, r, w);
    if key.None? {
      GetUnnamed(env, memo, token, r, w, loc);
      CalcJustified(env, memo, r, w, Here(token, loc));
    } else if key.value in memo {
      GetHit(env, memo, token, r, w, loc, key.value);
      NothingNew(env, memo);
      if key.value in Passed(memo) {
        KeyHolds(env, Passed(memo), r, w, key.value);
      }
    } else if !SameKind(Lower(r, env.rn).d, Lower(w, env.wn).d) {
      GetDifferentKindsFails(env, memo, token, r, w, loc);
    } else {
      var k := key.value;
      KeyIsInTables(env, r, w);
      GetMiss(env, memo, token, r, w, loc, k);
      RememberFits(env, iset{}, memo, k, InProgress);
      CalcJustified(env, memo[k := InProgress], r, w, Here(token, loc));
      var c := Calc(env, memo[k := InProgress], r, w, Here(token, loc));
      if c.msgs == [] {
        RememberJustified(env, memo, c.memo, k);
        KeyHolds(env, Passed(c.memo), r, w, k);
      }
    }
  }

  lemma GetDifferentKindsFails(env: Env, memo: MemoMap, token: Option<Step>, r: Schema, w: Schema, loc: seq<Step>)
    requires Ready(env, r, w) && KeyOf(env, r, w).Some? && !SameKind(Lower(r, env.rn).d, Lower(w, env.wn).d)
    requires Sane(env, memo)
    ensures Get(env, memo, token, r, w, loc).msgs != []
  {
    hide Get, Ready;
    GetDifferentKinds(env, iset{}, memo, token, r, w, loc);
  }

  /** Once its own rule holds, a finished pair joins the justified ones. */
  lemma RememberJustified(env: Env, memo: MemoMap, more: MemoMap, k: Key)
    requires Extends(memo[k := InProgress], more) && Body(env, Passed(more), k)
             && Justified(env, memo[k := InProgress], more)
    ensures k in Passed(more) && Passed(more[k := Done([])]) == Passed(more)
    ensures Justified(env, memo, more[k := Done([])])
  {
    assert k in memo[k := InProgress] && more[k] == InProgress;
    assert Passed(more[k := Done([])]) == Passed(more);
  }

  lemma KeyHolds(env: Env, keys: set<Key>, r: Schema, w: Schema, k: Key)
    requires Ready(env, r, w) && KeyOf(env, r, w) == Some(k) && k in keys
    ensures Holding(env, keys, r, w)
  {
  }

  lemma {:induction false} CalcJustified(env: Env, memo: MemoMap, r: Schema, w: Schema, loc: seq<Step>)
    requires Ready(env, r, w) && Simple(r, env.rn) && SimpleTable(env.rn) && Sane(env, memo)
    ensures var o := Calc(env, memo, r, w, loc);
            o.msgs == [] ==>
              && Justified(env, memo, o.memo)
              && (if KeyOf(env, r, w).Some?
                  then NamedRule(env, RelOf(env, Passed(o.memo)), Lower(r, env.rn).d, Lower(w, env.wn).d)
                  else Holding(env, Passed(o.memo), r, w))
    decreases Unmemoised(env, memo), CalcSize(env, r, w), 2, 0
  {
    hide Ready, ReadyNamed, Size, CalcSize, NamedSize, Unmemoised, Extends, Sane, Justified, NamedRule, SimpleTable;
    hide Get, CalcNamed, CalcAnyUnion, Lower, Holding, RelOf, Passed, Simple, Promotable, KindOf;
    ReadyParts(env, r, w);
    SimpleParts(env, r);
    var lr, lw, o := Lower(r, env.rn), Lower(w, env.wn), Calc(env, memo, r, w, loc);
    if o.msgs != [] {
    } else if lr.LArray? && lw.LArray? {
      GetJustified(env, memo, Some(Tok("items")), lr.items, lw.items, loc);
      ArrayHolds(env, Passed(o.memo), r, w);
    } else if lr.LMap? && lw.LMap? {
      GetJustified(env, memo, Some(Tok("values")), lr.values, lw.values, loc);
      MapHolds(env, Passed(o.memo), r, w);
    } else if lr.LNamed? && lw.LNamed? {
      CalcNamedJustified(env, memo, lr.d, lw.d, w, loc);
    } else if lr.LUnion? || lw.LUnion? {
      CalcAnyUnionJustified(env, memo, r, w, loc);
    } else {
      NothingNew(env, memo);
      PrimHolds(env, Passed(o.memo), r, w);
    }
  }

  lemma ArrayHolds(env: Env, keys: set<Key>, r: Schema, w: Schema)
    requires Ready(env, r, w) && Lower(r, env.rn).LArray? && Lower(w, env.wn).LArray?
    requires Holding(env, keys, Lower(r, env.rn).items, Lower(w, env.wn).items)
    ensures Holding(env, keys, r, w)
  {
    hide Ready, Lower, Size, CalcSize, NamedSize;
  }

  lemma MapHolds(env: Env, keys: set<Key>, r: Schema, w: Schema)
    requires Ready(env, r, w) && Lower(r, env.rn).LMap? && Lower(w, env.wn).LMap?
    requires Holding(env, keys, Lower(r, env.rn).values, Lower(w, env.wn).values)
    ensures Holding(env, keys, r, w)
  {
    hide Ready, Lower, Size, CalcSize, NamedSize;
  }

  lemma PrimHolds(env: Env, keys: set<Key>, r: Schema, w: Schema)
    requires Ready(env, r, w) && Lower(r, env.rn).LPrim? && Lower(w, env.wn).LPrim?
    requires Promotable(Lower(w, env.wn).p, Lower(r, env.rn).p)
    ensures Holding(env, keys, r, w)
  {
    hide Ready, Lower, Size, CalcSize, NamedSize, Promotable;
  }

  lemma NothingNew(env: Env, memo: MemoMap)
    ensures Justified(env, memo, memo)
  {
  }

  lemma SimpleParts(env: Env, r: Schema)
    requires Simple(r, env.rn) && SimpleTable(env.rn)
    ensures var lr := Lower(r, env.rn);
            && (lr.LArray? ==> Simple(lr.items, env.rn))
            && (lr.LMap? ==> Simple(lr.values, env.rn))
            && (lr.LUnion? ==> SimpleUnion(lr.variants, env.rn) && forall v | v in lr.variants :: Simple(v, env.rn))
            && (lr.LNamed? ==> SimpleNamed(lr.d, env.rn))
  {
  }

  lemma AllSymbolsKnown(re: EnumDef, we: EnumDef)
    ensures MissingSymbols(re, we) == {} <==> forall s | s in we.symbols :: s in re.symbols
  {
    forall s | s in we.symbols && s !in re.symbols
      ensures s in MissingSymbols(re, we)
    {
    }
  }

  lemma {:induction false} CalcNamedJustified(env: Env, memo: MemoMap, rd: Named, wd: Named, w: Schema, loc: seq<Step>)
    requires ReadyNamed(env, rd, wd, w) && SimpleNamed(rd, env.rn) && SimpleTable(env.rn) && Sane(env, memo)
    ensures var o := CalcNamed(env, memo, rd, wd, w, loc);
            o.msgs == [] ==> Justified(env, memo, o.memo) && NamedRule(env, RelOf(env, Passed(o.memo)), rd, wd)
    decreases Unmemoised(env, memo), NamedSize(rd) + NamedSize(wd), 0, |if rd.NRecord? then rd.r.fields else []| + 1
  {
    hide ReadyNamed, CalcFields, Sane, Justified, SimpleTable;
    NothingNew(env, memo);
    if rd.NRecord? && wd.NRecord? {
      CalcFieldsJustified(env, memo, rd.r, wd.r, w, loc, 0);
    } else if rd.NEnum? && wd.NEnum? {
      AllSymbolsKnown(rd.e, wd.e);
    }
  }

  lemma {:induction false} CalcFieldsJustified(env: Env, memo: MemoMap, rr: RecordDef, wr: RecordDef, w: Schema,
                                               loc: seq<Step>, pos: nat)
    requires ReadyNamed(env, NRecord(rr), NRecord(wr), w) && SimpleNamed(NRecord(rr), env.rn) && SimpleTable(env.rn)
    requires pos <= |rr.fields| && Sane(env, memo)
    ensures var o := CalcFields(env, memo, rr, wr, w, loc, pos);
            o.msgs == [] ==>
              && Justified(env, memo, o.memo)
              && forall i | pos <= i < |rr.fields| :: FieldRule(env, RelOf(env, Passed(o.memo)), rr.fields[i], wr)
    decreases Unmemoised(env, memo), NamedSize(NRecord(rr)) + NamedSize(NRecord(wr)), 0, |rr.fields| - pos
  {
    hide Ready, ReadyNamed, Size, NamedSize, Unmemoised, Sane, Justified, Get, CalcField, CalcFields, SimpleTable;
    if pos == |rr.fields| {
      FieldsEnd(env, memo, rr, wr, w, loc);
      NothingNew(env, memo);
    } else {
      CalcFieldsUnfolds(env, memo, rr, wr, w, loc, pos);
      CalcFieldJustified(env, memo, rr, wr, w, loc, pos);
      var first := CalcField(env, memo, rr, wr, w, loc, pos);
      CalcFieldsJustified(env, first.memo, rr, wr, w, loc, pos + 1);
      var o := CalcFields(env, memo, rr, wr, w, loc, pos);
      if o.msgs == [] {
        JustifiedChains(env, memo, first.memo, o.memo);
        FieldRuleGrows(env, Passed(first.memo), Passed(o.memo), rr.fields[pos], wr);
      }
    }
  }

  lemma FieldRuleGrows(env: Env, keys: set<Key>, more: set<Key>, rf: Field, wr: RecordDef)
    requires keys <= more && FieldRule(env, RelOf(env, keys), rf, wr)
    ensures FieldRule(env, RelOf(env, more), rf, wr)
  {
    var found := FindField(rf, wr.fields);
    if found.Some? {
      var r, w :| Holding(env, keys, r, w)
        && Lower(r, env.rn) == Lower(rf.schema, env.rn)
        && Lower(w, env.wn) == Lower(wr.fields[found.value].schema, env.wn);
      AssumedGrows(env, keys, more, r, w);
      assert Holding(env, more, r, w);
    }
  }

  lemma {:induction false} CalcFieldJustified(env: Env, memo: MemoMap, rr: RecordDef, wr: RecordDef, w: Schema,
                                              loc: seq<Step>, pos: nat)
    requires ReadyNamed(env, NRecord(rr), NRecord(wr), w) && SimpleNamed(NRecord(rr), env.rn) && SimpleTable(env.rn)
    requires pos < |rr.fields| && Sane(env, memo)
    ensures var o := CalcField(env, memo, rr, wr, w, loc, pos);
            && Sane(env, o.memo)
            && (o.msgs == [] ==>
                  Justified(env, memo, o.memo) && FieldRule(env, RelOf(env, Passed(o.memo)), rr.fields[pos], wr))
    decreases Unmemoised(env, memo), NamedSize(NRecord(rr)) + NamedSize(NRecord(wr)), 0, 0
  {
    hide Ready, Size, NamedSize, Unmemoised, Sane, Justified, Get, CalcField, CalcFields, SimpleTable, Assumed;
    CalcFieldsUnfolds(env, memo, rr, wr, w, loc, pos);
    var rf := rr.fields[pos];
    var here := loc + [Tok("fields"), Pos(pos)];
    var opp := Opposite(env, rf, wr, w);
    if opp.None? {
      NothingNew(env, memo);
    } else {
      GetIsSane(env, memo, Some(Tok("type")), rf.schema, opp.value, here);
      if FindField(rf, wr.fields).Some? {
        GetJustified(env, memo, Some(Tok("type")), rf.schema, opp.value, here);
      } else {
        GetDifferentKindsFails(env, memo, Some(Tok("type")), rf.schema, w, here);
      }
    }
  }

  lemma {:induction false} CalcWriterUnionJustified(env: Env, memo: MemoMap, r: Schema, w: Schema, i: nat)
    requires Ready(env, r, w) && w.Union? && i <= |w.variants|
    requires Simple(r, env.rn) && SimpleTable(env.rn) && Sane(env, memo)
    ensures var o := CalcWriterUnion(env, memo, r, w, i);
            o.msgs == [] ==>
              Justified(env, memo, o.memo) && forall j | i <= j < |w.variants| ::
                Holding(env, Passed(o.memo), r, w.variants[j])
    decreases Unmemoised(env, memo), Size(r) + Size(w), 0, |w.variants| - i
  {
    hide Ready, Size, Unmemoised, Sane, Justified, Get, CalcWriterUnion, Simple, SimpleTable;
    if i == |w.variants| {
      LoopsEnd(env, memo, r, w, []);
      NothingNew(env, memo);
    } else {
      CalcWriterUnionUnfolds(env, memo, r, w, i);
      GetIsSane(env, memo, None, r, w.variants[i], []);
      GetJustified(env, memo, None, r, w.variants[i], []);
      var first := Get(env, memo, None, r, w.variants[i], []);
      CalcWriterUnionJustified(env, first.memo, r, w, i + 1);
      var o := CalcWriterUnion(env, memo, r, w, i);
      if o.msgs == [] {
        JustifiedChains(env, memo, first.memo, o.memo);
        AssumedGrows(env, Passed(first.memo), Passed(o.memo), r, w.variants[i]);
      }
    }
  }

  lemma {:induction false} CalcUnionsJustified(env: Env, memo: MemoMap, r: Schema, w: Schema, loc: seq<Step>, i: nat)
    requires Ready(env, r, w) && w.Union? && i <= |w.variants|
    requires Simple(r, env.rn) && SimpleTable(env.rn) && Sane(env, memo)
    ensures var o := CalcUnions(env, memo, r, w, loc, i);
            o.msgs == [] ==>
              Justified(env, memo, o.memo) && forall j | i <= j < |w.variants| ::
                Holding(env, Passed(o.memo), r, w.variants[j])
    decreases Unmemoised(env, memo), Size(r) + Size(w), 0, |w.variants| - i
  {
    hide Ready, Size, Unmemoised, Sane, Justified, Get, CalcUnions, Simple, SimpleTable, Passed;
    if i == |w.variants| {
      LoopsEnd(env, memo, r, w, loc);
      NothingNew(env, memo);
    } else {
      CalcUnionsUnfolds(env, memo, r, w, loc, i);
      GetIsSane(env, memo, None, r, w.variants[i], []);
      GetJustified(env, memo, None, r, w.variants[i], []);
      var first := Get(env, memo, None, r, w.variants[i], []);
      CalcUnionsJustified(env, first.memo, r, w, loc, i + 1);
      var o := CalcUnions(env, memo, r, w, loc, i);
      if o.msgs == [] {
        JustifiedChains(env, memo, first.memo, o.memo);
        AssumedGrows(env, Passed(first.memo), Passed(o.memo), r, w.variants[i]);
      }
    }
  }

  // ---------------- a reader union ----------------

  /** A branch against a writer that takes no search: it fails on the spot, or is a matter of one entry. */
  predicate Shallow(lr: Lowered, lw: Lowered) {
    !lr.LUnion? && !lw.LUnion? && (Deep(lr) && Deep(lw) ==> KindOf(lr) != KindOf(lw))
  }

  /** A shallow failure leaves at most the pair itself behind, as failed. */
  lemma ShallowFailure(env: Env, memo: MemoMap, r: Schema, w: Schema)
    requires Ready(env, r, w) && Shallow(Lower(r, env.rn), Lower(w, env.wn)) && Sane(env, memo)
    requires Get(env, memo, None, r, w, []).msgs != []
    ensures var more := Get(env, memo, None, r, w, []).memo;
            forall k | k in more && k !in memo :: k !in Passed(more)
  {
    hide Get, Ready;
    var lr, lw := Lower(r, env.rn), Lower(w, env.wn);
    var key := KeyOf(env, r, w);
    if key.None? {
      GetUnnamed(env, memo, None, r, w, []);
      CalcAtOnce(env, memo, r, w);
    } else if key.value in memo {
      GetHit(env, memo, None, r, w, [], key.value);
    } else if !SameKind(lr.d, lw.d) {
      GetDifferentKinds(env, iset{}, memo, None, r, w, []);
    } else {
      GetMiss(env, memo, None, r, w, [], key.value);
      CalcLeaf(env, memo[key.value := InProgress], r, w);
    }
  }

  lemma CalcAtOnce(env: Env, memo: MemoMap, r: Schema, w: Schema)
    requires Ready(env, r, w) && Shallow(Lower(r, env.rn), Lower(w, env.wn)) && KeyOf(env, r, w).None?
    ensures Calc(env, memo, r, w, []).memo == memo
  {
    hide Get, Ready, CalcNamed, CalcAnyUnion;
  }

  /** Enums and fixed types are compared on the spot. */
  lemma CalcLeaf(env: Env, memo: MemoMap, r: Schema, w: Schema)
    requires Ready(env, r, w) && Shallow(Lower(r, env.rn), Lower(w, env.wn)) && KeyOf(env, r, w).Some?
    requires SameKind(Lower(r, env.rn).d, Lower(w, env.wn).d)
    ensures Calc(env, memo, r, w, []).memo == memo
  {
    hide Get, Ready, CalcFields;
    ReadyParts(env, r, w);
  }

  /** A branch of another kind than a writer that takes a search fails. */
  lemma OtherKindFails(env: Env, memo: MemoMap, r: Schema, w: Schema)
    requires Ready(env, r, w) && Sane(env, memo) && Deep(Lower(w, env.wn)) && !Lower(r, env.rn).LUnion?
    requires KindOf(Lower(r, env.rn)) != KindOf(Lower(w, env.wn))
    ensures Get(env, memo, None, r, w, []).msgs != []
  {
    hide Get, Ready;
    if KeyOf(env, r, w).None? {
      GetUnnamed(env, memo, None, r, w, []);
      hide CalcNamed, CalcAnyUnion;
    } else {
      GetDifferentKindsFails(env, memo, None, r, w, []);
    }
  }

  /** After the one branch of the writer's kind, no other takes it. */
  lemma {:induction false} RestFails(env: Env, memo: MemoMap, r: Schema, w: Schema, i: nat)
    requires Ready(env, r, w) && r.Union? && i <= |r.variants| && Sane(env, memo) && Deep(Lower(w, env.wn))
    requires forall j | i <= j < |r.variants| ::
               !Lower(r.variants[j], env.rn).LUnion? && KindOf(Lower(r.variants[j], env.rn)) != KindOf(Lower(w, env.wn))
    ensures CalcReaderUnion(env, memo, r, w, i).msgs != []
    decreases |r.variants| - i
  {
    hide Get, Ready, CalcReaderUnion, Sane, Lower;
    if i == |r.variants| {
      LoopsEnd(env, memo, r, w, []);
    } else {
      CalcReaderUnionUnfolds(env, memo, r, w, i);
      OtherKindFails(env, memo, r.variants[i], w);
      GetIsSane(env, memo, None, r.variants[i], w, []);
      RestFails(env, Get(env, memo, None, r.variants[i], w, []).memo, r, w, i + 1);
    }
  }

  ghost predicate SomeHolds(env: Env, keys: set<Key>, r: Schema, w: Schema)
    requires r.Union?
  {
    exists j | 0 <= j < |r.variants| :: Holding(env, keys, r.variants[j], w)
  }

  lemma {:induction false} CalcReaderUnionJustified(env: Env, memo: MemoMap, r: Schema, w: Schema, i: nat)
    requires Ready(env, r, w) && r.Union? && !Lower(w, env.wn).LUnion? && i <= |r.variants|
    requires SimpleUnion(r.variants, env.rn) && (forall v | v in r.variants :: Simple(v, env.rn)) && SimpleTable(env.rn)
             && Sane(env, memo)
    ensures var o := CalcReaderUnion(env, memo, r, w, i);
            o.msgs == [] ==> Justified(env, memo, o.memo) && SomeHolds(env, Passed(o.memo), r, w)
    decreases Unmemoised(env, memo), Size(r) + Size(w), 0, |r.variants| - i
  {
    hide Ready, Size, Unmemoised, Sane, Justified, Get, CalcReaderUnion, Simple, SimpleTable, Passed, SimpleUnion,
      Holding, Lower, Extends;
    if i == |r.variants| {
      LoopsEnd(env, memo, r, w, []);
    } else {
      CalcReaderUnionUnfolds(env, memo, r, w, i);
      GetIsSane(env, memo, None, r.variants[i], w, []);
      var first := Get(env, memo, None, r.variants[i], w, []);
      if first.msgs == [] {
        GetJustified(env, memo, None, r.variants[i], w, []);
        assert Holding(env, Passed(first.memo), r.variants[i], w);
      } else {
        CalcReaderUnionJustified(env, first.memo, r, w, i + 1);
        FailedBranch(env, memo, r, w, i);
      }
    }
  }

  /** A branch that fails before another one succeeds leaves nothing behind that would have to be justified. */
  lemma FailedBranch(env: Env, memo: MemoMap, r: Schema, w: Schema, i: nat)
    requires Ready(env, r, w) && r.Union? && !Lower(w, env.wn).LUnion? && i < |r.variants|
    requires SimpleUnion(r.variants, env.rn) && Sane(env, memo) && Ready(env, r.variants[i], w)
    requires Get(env, memo, None, r.variants[i], w, []).msgs != []
    ensures var first := Get(env, memo, None, r.variants[i], w, []);
            var o := CalcReaderUnion(env, first.memo, r, w, i + 1);
            o.msgs == [] && Justified(env, first.memo, o.memo) ==> Justified(env, memo, o.memo)
  {
    hide Ready, Sane, Get, CalcReaderUnion;
    var first := Get(env, memo, None, r.variants[i], w, []);
    GetIsSane(env, memo, None, r.variants[i], w, []);
    var lr, lw := Lower(r.variants[i], env.rn), Lower(w, env.wn);
    if Shallow(lr, lw) {
      ShallowFailure(env, memo, r.variants[i], w);
      var o := CalcReaderUnion(env, first.memo, r, w, i + 1);
      StillFailed(memo, first.memo, o.memo);
    } else {
      RestFails(env, first.memo, r, w, i + 1);
    }
  }

  lemma StillFailed(memo: MemoMap, next: MemoMap, last: MemoMap)
    requires Extends(next, last) && forall k | k in next && k !in memo :: k !in Passed(next)
    ensures forall k | k in Passed(last) && k !in memo :: k !in next
  {
  }

  lemma {:induction false} CalcAnyUnionJustified(env: Env, memo: MemoMap, r: Schema, w: Schema, loc: seq<Step>)
    requires Ready(env, r, w) && (r.Union? || w.Union?) && !Lower(w, env.wn).Unresolved?
             && !Lower(r, env.rn).Unresolved?
    requires Simple(r, env.rn) && SimpleTable(env.rn) && Sane(env, memo)
    ensures var o := CalcAnyUnion(env, memo, r, w, loc);
            o.msgs == [] ==> Justified(env, memo, o.memo) && Holding(env, Passed(o.memo), r, w)
    decreases Unmemoised(env, memo), Size(r) + Size(w), 1, 0
  {
    hide Sane, Justified, Get, CalcUnions, CalcWriterUnion, CalcReaderUnion, SimpleTable, Passed, SimpleUnion, Extends,
      Unmemoised;
    if r.Union? && w.Union? {
      CalcUnionsJustified(env, memo, r, w, loc, 0);
    } else if w.Union? {
      CalcWriterUnionJustified(env, memo, r, w, 0);
    } else {
      CalcReaderUnionJustified(env, memo, r, w, 0);
      var o := CalcReaderUnion(env, memo, r, w, 0);
      if o.msgs == [] {
        var j :| 0 <= j < |r.variants| && Holding(env, Passed(o.memo), r.variants[j], w);
        assert AssumedAt(env, Passed(o.memo), r, w, j);
      }
    }
  }

  // ---------------- exactness ----------------

  /** With simple unions on the reader's side the check is exact, however the types recurse. */
  lemma ExactWithSimpleUnions(env: Env, r: Schema, w: Schema)
    requires Ready(env, r, w) && Simple(r, env.rn) && SimpleTable(env.rn)
    ensures CanRead(env, r, w) == [] <==> Resolves(env, r, w)
  {
    hide Get, Ready, Rules, Simple, SimpleTable, Extends, Unmemoised, Size, Greatest, KeyOf;
    if CanRead(env, r, w) == [] {
      GetJustified(env, map[], None, r, w, []);
      var keys := Passed(Get(env, map[], None, r, w, []).memo);
      AssumedIsClosed(env, keys);
      GreatestIsGreatest(env, RelOf(env, keys));
    }
    if Resolves(env, r, w) {
      CanReadAcceptsResolvable(env, r, w);
    }
  }

  predicate NoUnions(s: Schema)
    decreases s
  {
    match s
    case Array(i) => NoUnions(i)
    case Map(v) => NoUnions(v)
    case Union(_) => false
    case Record(r) => forall f | f in r.fields :: NoUnions(f.schema)
    case _ => true
  }

  lemma {:induction false} NoUnionsIsSimple(s: Schema, names: Names)
    requires NoUnions(s)
    ensures Simple(s, names)
    decreases s
  {
    match s
    case Array(i) => NoUnionsIsSimple(i, names);
    case Map(v) => NoUnionsIsSimple(v, names);
    case Record(r) =>
      forall f | f in r.fields
        ensures Simple(f.schema, names)
      {
        NoUnionsIsSimple(f.schema, names);
      }
    case _ =>
  }

  /** In particular when it has no unions. */
  lemma ExactWithoutReaderUnions(env: Env, r: Schema, w: Schema)
    requires Ready(env, r, w) && NoUnions(r)
    requires forall n, f | n in env.rn && env.rn[n].NRecord? && f in env.rn[n].r.fields :: NoUnions(f.schema)
    ensures CanRead(env, r, w) == [] <==> Resolves(env, r, w)
  {
    hide CanRead, Resolves, Ready;
    NoUnionsIsSimple(r, env.rn);
    forall n, f | n in env.rn && env.rn[n].NRecord? && f in env.rn[n].r.fields
      ensures Simple(f.schema, env.rn)
    {
      NoUnionsIsSimple(f.schema, env.rn);
    }
    ExactWithSimpleUnions(env, r, w);
  }
}
