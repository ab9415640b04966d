/**
 The check is also exact, unions or not, as soon as one side's named types do
 not recurse: a pair that is still being checked cannot come up again.
 */
module AvroNonRecursive {
  import opened Wrappers
  import opened AvroTypes
  import opened AvroChecker
  import opened AvroResolution
  import opened AvroExactness

  type Ranking = map<Name, nat>

  /** Every name written in the schema ranks below `bound`. */
  predicate NamesBelow(s: Schema, rank: Ranking, bound: nat)
    decreases s
  {
    match s
    case Array(i) => NamesBelow(i, rank, bound)
    case Map(v) => NamesBelow(v, rank, bound)
    case Union(vs) => forall v | v in vs :: NamesBelow(v, rank, bound)
    case Record(r) => Below(r.name, rank, bound)
    case Enum(e) => Below(e.name, rank, bound)
    case Fixed(f) => Below(f.name, rank, bound)
    case Duration(f) => Below(f.name, rank, bound)
    case DecimalFixed(f) => Below(f.name, rank, bound)
    case UuidFixed(f) => Below(f.name, rank, bound)
    case Ref(n) => Below(n, rank, bound)
    case _ => true
  }

  predicate Below(n: Name, rank: Ranking, bound: nat) {
    n in rank ==> rank[n] < bound
  }

  predicate Ranked(names: Names, rank: Ranking) {
    rank.Keys == names.Keys && forall n | n in names :: RankedNamed(names[n], rank, rank[n])
  }

  predicate RankedNamed(d: Named, rank: Ranking, bound: nat) {
    d.NRecord? ==> forall f | f in d.r.fields :: NamesBelow(f.schema, rank, bound)
  }

  /** No named type contains itself, directly or through others. */
  ghost predicate NonRecursive(names: Names) {
    exists rank: Ranking :: Ranked(names, rank)
  }

  /** Which side is known not to recurse, and how it ranks its names. */
  datatype Side = Side(reader: bool, rank: Ranking)

  function Table(side: Side, env: Env): Names {
    if side.reader then env.rn else env.wn
  }

  function NameIn(side: Side, k: Key): Name {
    if side.reader then k.0 else k.1
  }

  function SchemaIn(side: Side, r: Schema, w: Schema): Schema {
    if side.reader then r else w
  }

  function NamedIn(side: Side, rd: Named, wd: Named): Named {
    if side.reader then rd else wd
  }

  /** The ranks of the pairs that are still being checked. */
  ghost predicate Pending(side: Side, memo: MemoMap, bound: nat) {
    exists k | k in memo && memo[k].InProgress? :: NameIn(side, k) in side.rank && side.rank[NameIn(side, k)] == bound
  }

  ghost predicate BelowPending(side: Side, memo: MemoMap, s: Schema) {
    forall b: nat | Pending(side, memo, b) :: NamesBelow(s, side.rank, b)
  }

  ghost predicate NamedBelowPending(side: Side, memo: MemoMap, d: Named) {
    forall b: nat | Pending(side, memo, b) :: RankedNamed(d, side.rank, b)
  }

  /** What the memo holds is right, and it can be told apart from what it is still working on. */
  ghost predicate MemoExact(env: Env, side: Side, memo: MemoMap) {
    && MemoFits(env, Greatest(env), memo)
    && Ranked(Table(side, env), side.rank)
    && forall k | k in memo && memo[k] == Done([]) :: KeyRelated(env, Greatest(env), k)
  }

  lemma {:induction false} NamesBelowGrows(s: Schema, rank: Ranking, bound: nat, more: nat)
    requires NamesBelow(s, rank, bound) && bound <= more
    ensures NamesBelow(s, rank, more)
    decreases s
  {
    match s
    case Array(i) => NamesBelowGrows(i, rank, bound, more);
    case Map(v) => NamesBelowGrows(v, rank, bound, more);
    case Union(vs) =>
      forall v | v in vs
        ensures NamesBelow(v, rank, more)
      {
        NamesBelowGrows(v, rank, bound, more);
      }
    case _ =>
  }

  lemma RankedNamedGrows(d: Named, rank: Ranking, bound: nat, more: nat)
    requires RankedNamed(d, rank, bound) && bound <= more
    ensures RankedNamed(d, rank, more)
  {
    if d.NRecord? {
      forall f | f in d.r.fields
        ensures NamesBelow(f.schema, rank, more)
      {
        NamesBelowGrows(f.schema, rank, bound, more);
      }
    }
  }

  /** A finished check leaves nothing new pending. */
  lemma PendingStays(side: Side, memo: MemoMap, more: MemoMap, b: nat)
    requires Extends(memo, more) && Pending(side, more, b)
    ensures Pending(side, memo, b)
  {
    var k :| k in more && more[k].InProgress? && NameIn(side, k) in side.rank && side.rank[NameIn(side, k)] == b;
    assert k in memo && memo[k].InProgress?;
  }

  lemma BelowPendingStays(side: Side, memo: MemoMap, more: MemoMap, s: Schema)
    requires Extends(memo, more) && BelowPending(side, memo, s)
    ensures BelowPending(side, more, s)
  {
    forall b: nat | Pending(side, more, b)
      ensures NamesBelow(s, side.rank, b)
    {
      PendingStays(side, memo, more, b);
    }
  }

  lemma NamedBelowPendingStays(side: Side, memo: MemoMap, more: MemoMap, d: Named)
    requires Extends(memo, more) && NamedBelowPending(side, memo, d)
    ensures NamedBelowPending(side, more, d)
  {
    forall b: nat | Pending(side, more, b)
      ensures RankedNamed(d, side.rank, b)
    {
      PendingStays(side, memo, more, b);
    }
  }

  lemma NameIsBelow(env: Env, side: Side, r: Schema, w: Schema, k: Key, bound: nat)
    requires Ready(env, r, w) && KeyOf(env, r, w) == Some(k) && Ranked(Table(side, env), side.rank)
    requires NamesBelow(SchemaIn(side, r, w), side.rank, bound)
    ensures NameIn(side, k) in side.rank && side.rank[NameIn(side, k)] < bound
  {
    KeyIsInTables(env, r, w);
  }

  /** A pair that is being checked is not met again below itself. */
  lemma KeyIsNotPending(env: Env, side: Side, memo: MemoMap, r: Schema, w: Schema, k: Key)
    requires Ready(env, r, w) && KeyOf(env, r, w) == Some(k) && Ranked(Table(side, env), side.rank)
    requires BelowPending(side, memo, SchemaIn(side, r, w)) && k in memo
    ensures memo[k].Done?
  {
    if memo[k].InProgress? {
      KeyIsInTables(env, r, w);
      var b := side.rank[NameIn(side, k)];
      assert Pending(side, memo, b);
      NameIsBelow(env, side, r, w, k, b);
    }
  }

  /** Entering a pair keeps its parts below everything pending, itself included. */
  lemma EnterKeepsBelow(env: Env, side: Side, memo: MemoMap, r: Schema, w: Schema, k: Key)
    requires Ready(env, r, w) && KeyOf(env, r, w) == Some(k) && k !in memo && Ranked(Table(side, env), side.rank)
    requires BelowPending(side, memo, SchemaIn(side, r, w))
    ensures NamedBelowPending(side, memo[k := InProgress], NamedIn(side, Lower(r, env.rn).d, Lower(w, env.wn).d))
  {
    KeyIsInTables(env, r, w);
    var d := NamedIn(side, Lower(r, env.rn).d, Lower(w, env.wn).d);
    var own := side.rank[NameIn(side, k)];
    assert RankedNamed(d, side.rank, own);
    forall b: nat | Pending(side, memo[k := InProgress], b)
      ensures RankedNamed(d, side.rank, b)
    {
      var k' :| k' in memo[k := InProgress] && memo[k := InProgress][k'].InProgress?
        && NameIn(side, k') in side.rank && side.rank[NameIn(side, k')] == b;
      if k' != k {
        assert Pending(side, memo, b);
        NameIsBelow(env, side, r, w, k, b);
      }
      RankedNamedGrows(d, side.rank, own, b);
    }
  }

  // ---------------- the check, with nothing pending in its way ----------------

  lemma {:induction false} GetExact(env: Env, side: Side, memo: MemoMap, token: Option<Step>, r: Schema, w: Schema,
                                    loc: seq<Step>)
    requires Ready(env, r, w) && MemoExact(env, side, memo) && BelowPending(side, memo, SchemaIn(side, r, w))
    ensures var o := Get(env, memo, token, r, w, loc);
            MemoExact(env, side, o.memo) && (o.msgs == [] ==> Resolves(env, r, w))
    decreases Unmemoised(env, memo), Size(r) + Size(w), 3, 0
  {
    hide Ready, Size, Lower, Unmemoised, Extends, Get, Calc, Rules, MemoExact, BelowPending, NamedBelowPending,
      Resolves;
    var key := KeyOf(env, r, w);
    if key.None? {
      GetUnnamed(env, memo, token, r, w, loc);
      CalcExact(env, side, memo, r, w, Here(token, loc));
      FoldIfEmpty(env, r, w, Get(env, memo, token, r, w, loc).msgs);
    } else if key.value in memo {
      GetHit(env, memo, token, r, w, loc, key.value);
      HitIsExact(env, side, memo, r, w, key.value);
    } else if !SameKind(Lower(r, env.rn).d, Lower(w, env.wn).d) {
      DifferentKindsExact(env, side, memo, token, r, w, loc);
    } else {
      var k := key.value;
      GetMiss(env, memo, token, r, w, loc, k);
      EnterIsExact(env, side, memo, r, w, k);
      CalcExact(env, side, memo[k := InProgress], r, w, Here(token, loc));
      var c := Calc(env, memo[k := InProgress], r, w, Here(token, loc));
      FoldIfEmpty(env, r, w, c.msgs);
      LeaveIsExact(env, side, memo, c.memo, r, w, k, token, loc, c.msgs);
    }
  }

  lemma HitIsExact(env: Env, side: Side, memo: MemoMap, r: Schema, w: Schema, k: Key)
    requires Ready(env, r, w) && KeyOf(env, r, w) == Some(k) && k in memo
    requires MemoExact(env, side, memo) && BelowPending(side, memo, SchemaIn(side, r, w))
    ensures memo[k].Done? && (memo[k].msgs == [] ==> Resolves(env, r, w))
  {
    KeyRelatedIsRelated(env, Greatest(env), r, w, k);
    KeyIsNotPending(env, side, memo, r, w, k);
  }

  lemma DifferentKindsExact(env: Env, side: Side, memo: MemoMap, token: Option<Step>, r: Schema, w: Schema,
                            loc: seq<Step>)
    requires Ready(env, r, w) && KeyOf(env, r, w).Some? && !SameKind(Lower(r, env.rn).d, Lower(w, env.wn).d)
    requires MemoExact(env, side, memo)
    ensures var o := Get(env, memo, token, r, w, loc); o.msgs != [] && MemoExact(env, side, o.memo)
  {
    hide Ready, Get, Closed, MemoFits, Ranked, KeyRelated;
    GreatestIsClosed(env);
    GetDifferentKinds(env, Greatest(env), memo, token, r, w, loc);
  }

  lemma EnterIsExact(env: Env, side: Side, memo: MemoMap, r: Schema, w: Schema, k: Key)
    requires Ready(env, r, w) && KeyOf(env, r, w) == Some(k) && k !in memo
    requires SameKind(Lower(r, env.rn).d, Lower(w, env.wn).d)
    requires MemoExact(env, side, memo) && BelowPending(side, memo, SchemaIn(side, r, w))
    ensures MemoExact(env, side, memo[k := InProgress])
    ensures NamedBelowPending(side, memo[k := InProgress], NamedIn(side, Lower(r, env.rn).d, Lower(w, env.wn).d))
  {
    hide Ready, Lower, MemoFits, Ranked, BelowPending, NamedBelowPending, KeyRelated;
    KeyIsInTables(env, r, w);
    RememberFits(env, Greatest(env), memo, k, InProgress);
    EnterKeepsBelow(env, side, memo, r, w, k);
  }

  lemma LeaveIsExact(env: Env, side: Side, memo: MemoMap, more: MemoMap, r: Schema, w: Schema, k: Key,
                     token: Option<Step>, loc: seq<Step>, msgs: seq<Msg>)
    requires Ready(env, r, w) && KeyOf(env, r, w) == Some(k) && k !in memo
    requires MemoExact(env, side, memo) && MemoExact(env, side, more) && (msgs == [] ==> Resolves(env, r, w))
    requires Get(env, memo, token, r, w, loc) == Out(more[k := Done(msgs)], msgs)
    ensures MemoExact(env, side, more[k := Done(msgs)])
  {
    hide Ready, Get, Closed, MemoFits, Ranked, KeyRelated;
    GreatestIsClosed(env);
    GetAccepts(env, Greatest(env), memo, token, r, w, loc);
    KeyRelatedIsRelated(env, Greatest(env), r, w, k);
  }

  lemma FoldIfEmpty(env: Env, r: Schema, w: Schema, msgs: seq<Msg>)
    requires msgs == [] ==> Rules(env, Greatest(env), Lower(r, env.rn), Lower(w, env.wn))
    ensures msgs == [] ==> Resolves(env, r, w)
  {
    if msgs == [] {
      GreatestFolds(env, Lower(r, env.rn), Lower(w, env.wn));
    }
  }

  ghost predicate PartsBelowPending(env: Env, side: Side, memo: MemoMap, r: Schema, w: Schema) {
    if KeyOf(env, r, w).Some?
    then NamedBelowPending(side, memo, NamedIn(side, Lower(r, env.rn).d, Lower(w, env.wn).d))
    else BelowPending(side, memo, SchemaIn(side, r, w))
  }

  lemma {:induction false} CalcExact(env: Env, side: Side, memo: MemoMap, r: Schema, w: Schema, loc: seq<Step>)
    requires Ready(env, r, w) && MemoExact(env, side, memo) && PartsBelowPending(env, side, memo, r, w)
    ensures var o := Calc(env, memo, r, w, loc);
            MemoExact(env, side, o.memo) && (o.msgs == [] ==>
                                             Rules(env, Greatest(env), Lower(r, env.rn), Lower(w, env.wn)))
    decreases Unmemoised(env, memo), CalcSize(env, r, w), 2, 0
  {
    hide Ready, ReadyNamed, Size, CalcSize, NamedSize, Unmemoised, Lower, Extends, MemoExact;
    hide Get, CalcNamed, CalcAnyUnion, BelowPending, NamedBelowPending, NamedRule;
    ReadyParts(env, r, w);
    var lr, lw := Lower(r, env.rn), Lower(w, env.wn);
    if lr.Unresolved? || lw.Unresolved? {
    } else if lr.LArray? && lw.LArray? {
      BelowPendingParts(env, side, memo, r, w);
      GetExact(env, side, memo, Some(Tok("items")), lr.items, lw.items, loc);
    } else if lr.LMap? && lw.LMap? {
      BelowPendingParts(env, side, memo, r, w);
      GetExact(env, side, memo, Some(Tok("values")), lr.values, lw.values, loc);
    } else if lr.LNamed? && lw.LNamed? {
      CalcNamedExact(env, side, memo, lr.d, lw.d, w, loc);
    } else if lr.LUnion? || lw.LUnion? {
      CalcAnyUnionExact(env, side, memo, r, w, loc);
    }
  }

  lemma BelowPendingParts(env: Env, side: Side, memo: MemoMap, r: Schema, w: Schema)
    requires BelowPending(side, memo, SchemaIn(side, r, w))
    ensures var lr, lw := Lower(r, env.rn), Lower(w, env.wn);
            && (lr.LArray? && lw.LArray? ==> BelowPending(side, memo, SchemaIn(side, lr.items, lw.items)))
            && (lr.LMap? && lw.LMap? ==> BelowPending(side, memo, SchemaIn(side, lr.values, lw.values)))
  {
  }

  lemma BranchBelowPending(side: Side, memo: MemoMap, r: Schema, w: Schema, i: nat)
    requires BelowPending(side, memo, SchemaIn(side, r, w))
    ensures r.Union? && i < |r.variants| ==> BelowPending(side, memo, SchemaIn(side, r.variants[i], w))
    ensures w.Union? && i < |w.variants| ==> BelowPending(side, memo, SchemaIn(side, r, w.variants[i]))
  {
  }

  lemma {:induction false} CalcNamedExact(env: Env, side: Side, memo: MemoMap, rd: Named, wd: Named, w: Schema,
                                          loc: seq<Step>)
    requires ReadyNamed(env, rd, wd, w) && MemoExact(env, side, memo)
             && NamedBelowPending(side, memo, NamedIn(side, rd, wd))
    ensures var o := CalcNamed(env, memo, rd, wd, w, loc);
            MemoExact(env, side, o.memo) && (o.msgs == [] ==> NamedRule(env, Greatest(env), rd, wd))
    decreases Unmemoised(env, memo), NamedSize(rd) + NamedSize(wd), 0, |if rd.NRecord? then rd.r.fields else []| + 1
  {
    hide ReadyNamed, CalcFields, MemoExact, NamedBelowPending;
    if rd.NRecord? && wd.NRecord? {
      CalcFieldsExact(env, side, memo, rd.r, wd.r, w, loc, 0);
    } else if rd.NEnum? && wd.NEnum? {
      AllSymbolsKnown(rd.e, wd.e);
    }
  }

  lemma {:induction false} CalcFieldsExact(env: Env, side: Side, memo: MemoMap, rr: RecordDef, wr: RecordDef, w: Schema,
                                           loc: seq<Step>, pos: nat)
    requires ReadyNamed(env, NRecord(rr), NRecord(wr), w) && pos <= |rr.fields|
    requires MemoExact(env, side, memo) && NamedBelowPending(side, memo, NamedIn(side, NRecord(rr), NRecord(wr)))
    ensures var o := CalcFields(env, memo, rr, wr, w, loc, pos);
            && MemoExact(env, side, o.memo)
            && (o.msgs == [] ==> forall i | pos <= i < |rr.fields| :: FieldRule(env, Greatest(env), rr.fields[i], wr))
    decreases Unmemoised(env, memo), NamedSize(NRecord(rr)) + NamedSize(NRecord(wr)), 0, |rr.fields| - pos
  {
    hide Ready, ReadyNamed, Size, NamedSize, Unmemoised, Extends, Get, CalcField, CalcFields, MemoExact,
      NamedBelowPending;
    if pos == |rr.fields| {
      FieldsEnd(env, memo, rr, wr, w, loc);
    } else {
      CalcFieldsUnfolds(env, memo, rr, wr, w, loc, pos);
      CalcFieldExact(env, side, memo, rr, wr, w, loc, pos);
      var first := CalcField(env, memo, rr, wr, w, loc, pos);
      NamedBelowPendingStays(side, memo, first.memo, NamedIn(side, NRecord(rr), NRecord(wr)));
      CalcFieldsExact(env, side, first.memo, rr, wr, w, loc, pos + 1);
    }
  }

  lemma {:induction false} CalcFieldExact(env: Env, side: Side, memo: MemoMap, rr: RecordDef, wr: RecordDef, w: Schema,
                                          loc: seq<Step>, pos: nat)
    requires ReadyNamed(env, NRecord(rr), NRecord(wr), w) && pos < |rr.fields|
    requires MemoExact(env, side, memo) && NamedBelowPending(side, memo, NamedIn(side, NRecord(rr), NRecord(wr)))
    ensures var o := CalcField(env, memo, rr, wr, w, loc, pos);
            MemoExact(env, side, o.memo) && (o.msgs == [] ==> FieldRule(env, Greatest(env), rr.fields[pos], wr))
    decreases Unmemoised(env, memo), NamedSize(NRecord(rr)) + NamedSize(NRecord(wr)), 0, 0
  {
    hide Ready, Size, NamedSize, Unmemoised, Extends, Get, CalcField, CalcFields, NamesBelow, Closed, MemoFits, Ranked;
    CalcFieldsUnfolds(env, memo, rr, wr, w, loc, pos);
    var rf := rr.fields[pos];
    var here := loc + [Tok("fields"), Pos(pos)];
    var opp := Opposite(env, rf, wr, w);
    if opp.Some? {
      if FindField(rf, wr.fields).Some? {
        assert BelowPending(side, memo, SchemaIn(side, rf.schema, opp.value));
        GetExact(env, side, memo, Some(Tok("type")), rf.schema, opp.value, here);
      } else {
        GreatestIsClosed(env);
        GetDifferentKinds(env, Greatest(env), memo, Some(Tok("type")), rf.schema, w, here);
      }
    }
  }

  lemma {:induction false} CalcAnyUnionExact(env: Env, side: Side, memo: MemoMap, r: Schema, w: Schema, loc: seq<Step>)
    requires Ready(env, r, w) && (r.Union? || w.Union?)
    requires MemoExact(env, side, memo) && BelowPending(side, memo, SchemaIn(side, r, w))
    ensures var o := CalcAnyUnion(env, memo, r, w, loc);
            && MemoExact(env, side, o.memo)
            && (o.msgs == [] && !Lower(r, env.rn).Unresolved? && !Lower(w, env.wn).Unresolved? ==>
                  Rules(env, Greatest(env), Lower(r, env.rn), Lower(w, env.wn)))
    decreases Unmemoised(env, memo), Size(r) + Size(w), 1, 0
  {
    hide Ready, Size, Unmemoised, Extends, MemoExact, BelowPending, CalcUnions, CalcWriterUnion, CalcReaderUnion;
    if r.Union? && w.Union? {
      CalcUnionsExact(env, side, memo, r, w, loc, 0);
    } else if w.Union? {
      CalcWriterUnionExact(env, side, memo, r, w, 0);
    } else {
      CalcReaderUnionExact(env, side, memo, r, w, 0);
    }
  }

  lemma {:induction false} CalcUnionsExact(env: Env, side: Side, memo: MemoMap, r: Schema, w: Schema, loc: seq<Step>,
                                           i: nat)
    requires Ready(env, r, w) && w.Union? && i <= |w.variants|
    requires MemoExact(env, side, memo) && BelowPending(side, memo, SchemaIn(side, r, w))
    ensures var o := CalcUnions(env, memo, r, w, loc, i);
            && MemoExact(env, side, o.memo)
            && (o.msgs == [] ==> forall j | i <= j < |w.variants| :: Resolves(env, r, w.variants[j]))
    decreases Unmemoised(env, memo), Size(r) + Size(w), 0, |w.variants| - i
  {
    hide Ready, Size, Unmemoised, Extends, Get, CalcUnions, MemoExact, BelowPending, Resolves;
    if i == |w.variants| {
      LoopsEnd(env, memo, r, w, loc);
    } else {
      CalcUnionsUnfolds(env, memo, r, w, loc, i);
      BranchBelowPending(side, memo, r, w, i);
      GetExact(env, side, memo, None, r, w.variants[i], []);
      var next := Get(env, memo, None, r, w.variants[i], []).memo;
      BelowPendingStays(side, memo, next, SchemaIn(side, r, w));
      CalcUnionsExact(env, side, next, r, w, loc, i + 1);
    }
  }

  lemma {:induction false} CalcWriterUnionExact(env: Env, side: Side, memo: MemoMap, r: Schema, w: Schema, i: nat)
    requires Ready(env, r, w) && w.Union? && i <= |w.variants|
    requires MemoExact(env, side, memo) && BelowPending(side, memo, SchemaIn(side, r, w))
    ensures var o := CalcWriterUnion(env, memo, r, w, i);
            && MemoExact(env, side, o.memo)
            && (o.msgs == [] ==> forall j | i <= j < |w.variants| :: Resolves(env, r, w.variants[j]))
    decreases Unmemoised(env, memo), Size(r) + Size(w), 0, |w.variants| - i
  {
    hide Ready, Size, Unmemoised, Extends, Get, CalcWriterUnion, MemoExact, BelowPending, Resolves;
    if i == |w.variants| {
      LoopsEnd(env, memo, r, w, []);
    } else {
      CalcWriterUnionUnfolds(env, memo, r, w, i);
      BranchBelowPending(side, memo, r, w, i);
      GetExact(env, side, memo, None, r, w.variants[i], []);
      var next := Get(env, memo, None, r, w.variants[i], []).memo;
      BelowPendingStays(side, memo, next, SchemaIn(side, r, w));
      CalcWriterUnionExact(env, side, next, r, w, i + 1);
    }
  }

  lemma {:induction false} CalcReaderUnionExact(env: Env, side: Side, memo: MemoMap, r: Schema, w: Schema, i: nat)
    requires Ready(env, r, w) && r.Union? && i <= |r.variants|
    requires MemoExact(env, side, memo) && BelowPending(side, memo, SchemaIn(side, r, w))
    ensures var o := CalcReaderUnion(env, memo, r, w, i);
            && MemoExact(env, side, o.memo)
            && (o.msgs == [] ==> exists j | i <= j < |r.variants| :: Resolves(env, r.variants[j], w))
    decreases Unmemoised(env, memo), Size(r) + Size(w), 0, |r.variants| - i
  {
    hide Ready, Size, Unmemoised, Extends, Get, CalcReaderUnion, MemoExact, BelowPending, Resolves;
    if i == |r.variants| {
      LoopsEnd(env, memo, r, w, []);
    } else {
      CalcReaderUnionUnfolds(env, memo, r, w, i);
      BranchBelowPending(side, memo, r, w, i);
      GetExact(env, side, memo, None, r.variants[i], w, []);
      var first := Get(env, memo, None, r.variants[i], w, []);
      if first.msgs != [] {
        BelowPendingStays(side, memo, first.memo, SchemaIn(side, r, w));
        CalcReaderUnionExact(env, side, first.memo, r, w, i + 1);
      }
    }
  }

  /** With named types that do not recurse, on either side, the check is exact. */
  lemma ExactWithoutRecursion(env: Env, r: Schema, w: Schema)
    requires Ready(env, r, w) && (NonRecursive(env.rn) || NonRecursive(env.wn))
    ensures CanRead(env, r, w) == [] <==> Resolves(env, r, w)
  {
    hide Get, Ready, Closed, Rules;
    var side: Side;
    if NonRecursive(env.rn) {
      var rank: Ranking :| Ranked(env.rn, rank);
      side := Side(true, rank);
    } else {
      var rank: Ranking :| Ranked(env.wn, rank);
      side := Side(false, rank);
    }
    GetExact(env, side, map[], None, r, w, []);
    if Resolves(env, r, w) {
      CanReadAcceptsResolvable(env, r, w);
    }
  }
}
