/**
 The memoised reader/writer compatibility check (`Checker` in
 src/schema/avro.rs), as functions that pass the memo along. `CheckerObject`
 in AvroCheckerObject.dfy is the same check on a mutable memo.

 An empty message list means "the reader can read what the writer wrote".
 */
module AvroChecker {
  import opened Wrappers
  import opened AvroTypes

  /** One segment of the location a message points at. */
  datatype Step = Tok(s: string) | Pos(n: nat)

  datatype Kind = KPrim(p: Prim) | KArray | KMap | KUnion | KRecord | KEnum | KFixed | KUnresolved

  datatype Msg =
    | TypeMismatch(loc: seq<Step>, reader: Kind, writer: Kind)
    | UnresolvedType(loc: seq<Step>, name: Name)
    | MissingUnionBranch(loc: seq<Step>, writer: Kind)
    | NameMismatch(loc: seq<Step>, name: Name)
    | FixedSizeMismatch(loc: seq<Step>, size: nat, found: nat)
    | MissingEnumSymbols(loc: seq<Step>, missing: set<string>)
    | MissingDefault(loc: seq<Step>, field: string)

  datatype Memo = InProgress | Done(msgs: seq<Msg>)

  type Key = (Name, Name)
  type MemoMap = map<Key, Memo>

  datatype Env = Env(rn: Names, wn: Names)

  datatype Out = Out(memo: MemoMap, msgs: seq<Msg>)

  function KindOf(l: Lowered): Kind {
    match l
    case LPrim(p) => KPrim(p)
    case LArray(_) => KArray
    case LMap(_) => KMap
    case LUnion(_) => KUnion
    case LNamed(NRecord(_)) => KRecord
    case LNamed(NEnum(_)) => KEnum
    case LNamed(NFixed(_)) => KFixed
    case Unresolved(_) => KUnresolved
  }

  /** The memo key of a pair: only pairs of named types are memoised. */
  function KeyOf(env: Env, r: Schema, w: Schema): Option<Key> {
    var lr, lw := Lower(r, env.rn), Lower(w, env.wn);
    if lr.LNamed? && lw.LNamed? then Some((NameOf(lr.d), NameOf(lw.d))) else None
  }

  // ---------------- the measure ----------------

  function AllPairs(env: Env): set<Key> {
    set a, b | a in env.rn && b in env.wn :: (a, b)
  }

  /** How many pairs of named types are still to be entered into the memo. */
  function Unmemoised(env: Env, memo: MemoMap): nat {
    |AllPairs(env) - memo.Keys|
  }

  /** A finished check leaves what was remembered alone, and what it adds is finished. */
  predicate Extends(memo: MemoMap, more: MemoMap) {
    && (forall k | k in memo :: k in more && more[k] == memo[k])
    && (forall k | k in more :: k in memo || more[k].Done?)
  }

  lemma SmallerSet<T>(a: set<T>, b: set<T>)
    requires a <= b
    ensures |a| <= |b|
  {
    assert b == a + (b - a);
  }

  lemma UnmemoisedShrinks(env: Env, memo: MemoMap, more: MemoMap)
    requires memo.Keys <= more.Keys
    ensures Unmemoised(env, more) <= Unmemoised(env, memo)
  {
    SmallerSet(AllPairs(env) - more.Keys, AllPairs(env) - memo.Keys);
  }

  lemma UnmemoisedDrops(env: Env, memo: MemoMap, k: Key, m: Memo)
    requires k in AllPairs(env) && k !in memo
    ensures Unmemoised(env, memo[k := m]) < Unmemoised(env, memo)
  {
    var rest := AllPairs(env) - memo[k := m].Keys;
    assert AllPairs(env) - memo.Keys == rest + {k};
  }

  predicate Ready(env: Env, r: Schema, w: Schema) {
    TableOk(env.rn) && TableOk(env.wn) && Fits(r, env.rn) && Fits(w, env.wn)
  }

  predicate ReadyNamed(env: Env, rd: Named, wd: Named, w: Schema) {
    && TableOk(env.rn) && TableOk(env.wn) && Fits(w, env.wn)
    && FitsNamed(rd, env.rn) && Lower(w, env.wn) == LNamed(wd)
  }

  /** The size a pair counts for inside `Calc`: what its references stand for, if both are named. */
  function CalcSize(env: Env, r: Schema, w: Schema): nat {
    var lr, lw := Lower(r, env.rn), Lower(w, env.wn);
    if lr.LNamed? && lw.LNamed? then NamedSize(lr.d) + NamedSize(lw.d) else Size(r) + Size(w)
  }

  /** A memoised pair stands for the two table entries its names select. */
  lemma KeyIsInTables(env: Env, r: Schema, w: Schema)
    requires Ready(env, r, w)
    ensures var k := KeyOf(env, r, w);
            k.Some? ==>
              && k.value in AllPairs(env)
              && Lower(r, env.rn) == LNamed(env.rn[k.value.0])
              && Lower(w, env.wn) == LNamed(env.wn[k.value.1])
  {
    LoweredNamedIsInTable(r, env.rn);
    LoweredNamedIsInTable(w, env.wn);
  }

  lemma LoweredParts(s: Schema, names: Names)
    requires TableOk(names) && Fits(s, names)
    ensures var l := Lower(s, names);
            && (l.LArray? ==> Fits(l.items, names) && Size(l.items) < Size(s))
            && (l.LMap? ==> Fits(l.values, names) && Size(l.values) < Size(s))
            && (l.LNamed? ==> FitsNamed(l.d, names))
            && (l.LUnion? ==> s == Union(l.variants))
  {
    LoweredNamedIsInTable(s, names);
  }

  lemma CalcSizeIs(env: Env, r: Schema, w: Schema)
    ensures var lr, lw := Lower(r, env.rn), Lower(w, env.wn);
            CalcSize(env, r, w) ==
            if lr.LNamed? && lw.LNamed? then NamedSize(lr.d) + NamedSize(lw.d) else Size(r) + Size(w)
  {
  }

  /** What a check of a pair may rely on when it recurses. */
  lemma ReadyParts(env: Env, r: Schema, w: Schema)
    requires Ready(env, r, w)
    ensures var lr, lw := Lower(r, env.rn), Lower(w, env.wn);
            && (lr.LArray? && lw.LArray? ==>
                  Ready(env, lr.items, lw.items) && Size(lr.items) + Size(lw.items) < Size(r) + Size(w))
            && (lr.LMap? && lw.LMap? ==>
                  Ready(env, lr.values, lw.values) && Size(lr.values) + Size(lw.values) < Size(r) + Size(w))
            && (lr.LNamed? && lw.LNamed? ==> ReadyNamed(env, lr.d, lw.d, w))
            && (lr.LUnion? ==> r == Union(lr.variants))
            && (lw.LUnion? ==> w == Union(lw.variants))
            && CalcSize(env, r, w) ==
               (if lr.LNamed? && lw.LNamed? then NamedSize(lr.d) + NamedSize(lw.d) else Size(r) + Size(w))
  {
    hide Lower, Fits, FitsNamed, TableOk, Size, NamedSize, CalcSize;
    CalcSizeIs(env, r, w);
    LoweredParts(r, env.rn);
    LoweredParts(w, env.wn);
  }

  // ---------------- the check ----------------

  function Here(token: Option<Step>, loc: seq<Step>): seq<Step> {
    if token.Some? then loc + [token.value] else loc
  }

  function Get(env: Env, memo: MemoMap, token: Option<Step>, r: Schema, w: Schema, loc: seq<Step>): (o: Out)
    requires Ready(env, r, w)
    ensures Extends(memo, o.memo)
    decreases Unmemoised(env, memo), Size(r) + Size(w), 3, 0
  {
    var key := KeyOf(env, r, w);
    if key.None? then
      Calc(env, memo, r, w, Here(token, loc))
    else if key.value in memo then
      Out(memo, if memo[key.value].Done? then memo[key.value].msgs else [])
    else
      KeyIsInTables(env, r, w);
      UnmemoisedDrops(env, memo, key.value, InProgress);
      var o := Calc(env, memo[key.value := InProgress], r, w, Here(token, loc));
      RememberExtends(memo, key.value, o.memo, o.msgs);
      Out(o.memo[key.value := Done(o.msgs)], o.msgs)
  }

  lemma RememberExtends(memo: MemoMap, k: Key, more: MemoMap, msgs: seq<Msg>)
    requires k !in memo && Extends(memo[k := InProgress], more)
    ensures Extends(memo, more[k := Done(msgs)])
  {
  }

  /** A check whose messages start again at the top. */
  function Fresh(env: Env, memo: MemoMap, r: Schema, w: Schema): Out
    requires Ready(env, r, w)
    decreases Unmemoised(env, memo), Size(r) + Size(w), 4, 0
  {
    Get(env, memo, None, r, w, [])
  }

  function CheckNames(reader: Name, aliases: seq<Alias>, writer: Name, loc: seq<Step>): seq<Msg> {
    if NamesMatch(reader, aliases, writer) then [] else [NameMismatch(loc + [Tok("name")], writer)]
  }

  function CheckFixed(rf: FixedDef, wf: FixedDef, loc: seq<Step>): seq<Msg> {
    CheckNames(rf.name, rf.aliases, wf.name, loc) +
    if rf.size != wf.size then [FixedSizeMismatch(loc + [Tok("size")], wf.size, rf.size)] else []
  }

  function MissingSymbols(re: EnumDef, we: EnumDef): set<string> {
    set s | s in we.symbols && s !in re.symbols
  }

  predicate DefaultSymbolOk(re: EnumDef) {
    re.default.Some? && re.default.value in re.symbols
  }

  function CheckEnum(re: EnumDef, we: EnumDef, loc: seq<Step>): seq<Msg> {
    var missing := MissingSymbols(re, we);
    CheckNames(re.name, re.aliases, we.name, loc) +
    if missing != {} && !DefaultSymbolOk(re) then [MissingEnumSymbols(loc + [Tok("symbols")], missing)] else []
  }

  predicate EnumWithDefault(s: Schema, names: Names) {
    var l := Lower(s, names);
    l.LNamed? && l.d.NEnum? && l.d.e.default.Some?
  }

  function Calc(env: Env, memo: MemoMap, r: Schema, w: Schema, loc: seq<Step>): (o: Out)
    requires Ready(env, r, w)
    ensures Extends(memo, o.memo)
    decreases Unmemoised(env, memo), CalcSize(env, r, w), 2, 0
  {
    ReadyParts(env, r, w);
    var lr, lw := Lower(r, env.rn), Lower(w, env.wn);
    if lr.Unresolved? then Out(memo, [UnresolvedType(loc, lr.name)])
    else if lw.Unresolved? then Out(memo, [UnresolvedType(loc, lw.name)])
    else if lr.LArray? && lw.LArray? then Get(env, memo, Some(Tok("items")), lr.items, lw.items, loc)
    else if lr.LMap? && lw.LMap? then Get(env, memo, Some(Tok("values")), lr.values, lw.values, loc)
    else if lr.LNamed? && lw.LNamed? then CalcNamed(env, memo, lr.d, lw.d, w, loc)
    else if lr.LUnion? || lw.LUnion? then CalcAnyUnion(env, memo, r, w, loc)
    else if lr.LPrim? && lw.LPrim? && Promotable(lw.p, lr.p) then Out(memo, [])
    else Out(memo, [TypeMismatch(loc, KindOf(lr), KindOf(lw))])
  }

  function CalcAnyUnion(env: Env, memo: MemoMap, r: Schema, w: Schema, loc: seq<Step>): (o: Out)
    requires Ready(env, r, w) && (r.Union? || w.Union?)
    ensures Extends(memo, o.memo)
    decreases Unmemoised(env, memo), Size(r) + Size(w), 1, 0
  {
    if r.Union? && w.Union? then CalcUnions(env, memo, r, w, loc, 0)
    else if w.Union? then CalcWriterUnion(env, memo, r, w, 0)
    else
      var o := CalcReaderUnion(env, memo, r, w, 0);
      Out(o.memo, if o.msgs == [] then [] else [MissingUnionBranch(loc, KindOf(Lower(w, env.wn)))])
  }

  function CalcNamed(env: Env, memo: MemoMap, rd: Named, wd: Named, w: Schema, loc: seq<Step>): (o: Out)
    requires ReadyNamed(env, rd, wd, w)
    ensures Extends(memo, o.memo)
    decreases Unmemoised(env, memo), NamedSize(rd) + NamedSize(wd), 0, |if rd.NRecord? then rd.r.fields else []| + 1
  {
    if rd.NFixed? && wd.NFixed? then Out(memo, CheckFixed(rd.f, wd.f, loc))
    else if rd.NEnum? && wd.NEnum? then Out(memo, CheckEnum(rd.e, wd.e, loc))
    else if rd.NRecord? && wd.NRecord? then
      var o := CalcFields(env, memo, rd.r, wd.r, w, loc, 0);
      Out(o.memo, CheckNames(rd.r.name, rd.r.aliases, wd.r.name, loc) + o.msgs)
    else Out(memo, [TypeMismatch(loc, KindOf(LNamed(rd)), KindOf(LNamed(wd)))])
  }

  /** The writer schema a reader field is compared with, if it is compared at all. */
  function Opposite(env: Env, rf: Field, wr: RecordDef, w: Schema): Option<Schema> {
    var found := FindField(rf, wr.fields);
    if found.Some? then Some(wr.fields[found.value].schema)
    // An enum with a default and no writer field is put against the record it is missing from.
    else if rf.default.None? && EnumWithDefault(rf.schema, env.rn) then Some(w)
    else None
  }

  lemma OppositeIsSmaller(env: Env, rr: RecordDef, wr: RecordDef, w: Schema, pos: nat)
    requires TableOk(env.wn) && Fits(w, env.wn) && Lower(w, env.wn) == LNamed(NRecord(wr)) && pos < |rr.fields|
    ensures var opp := Opposite(env, rr.fields[pos], wr, w);
            opp.Some? ==>
              && Fits(opp.value, env.wn)
              && Size(rr.fields[pos].schema) + Size(opp.value) < NamedSize(NRecord(rr)) + NamedSize(NRecord(wr))
  {
    LoweredNamedIsInTable(w, env.wn);
    FieldIsSmaller(rr.fields, pos);
    var found := FindField(rr.fields[pos], wr.fields);
    if found.Some? {
      FieldIsSmaller(wr.fields, found.value);
    }
  }

  /** The fields of a reader record, from position `pos` on. */
  function CalcFields(env: Env, memo: MemoMap, rr: RecordDef, wr: RecordDef, w: Schema, loc: seq<Step>,
                      pos: nat): (o: Out)
    requires ReadyNamed(env, NRecord(rr), NRecord(wr), w)
    requires pos <= |rr.fields|
    ensures Extends(memo, o.memo)
    decreases Unmemoised(env, memo), NamedSize(NRecord(rr)) + NamedSize(NRecord(wr)), 0, |rr.fields| - pos
  {
    if pos == |rr.fields| then
      Out(memo, [])
    else
      OppositeIsSmaller(env, rr, wr, w, pos);
      var first := CalcField(env, memo, rr, wr, w, loc, pos);
      UnmemoisedShrinks(env, memo, first.memo);
      var rest := CalcFields(env, first.memo, rr, wr, w, loc, pos + 1);
      Out(rest.memo, first.msgs + rest.msgs)
  }

  function CalcField(env: Env, memo: MemoMap, rr: RecordDef, wr: RecordDef, w: Schema, loc: seq<Step>,
                     pos: nat): (o: Out)
    requires ReadyNamed(env, NRecord(rr), NRecord(wr), w)
    requires pos < |rr.fields|
    ensures Extends(memo, o.memo)
    decreases Unmemoised(env, memo), NamedSize(NRecord(rr)) + NamedSize(NRecord(wr)), 0, 0
  {
    OppositeIsSmaller(env, rr, wr, w, pos);
    var rf := rr.fields[pos];
    var here := loc + [Tok("fields"), Pos(pos)];
    var opp := Opposite(env, rf, wr, w);
    if opp.Some? then Get(env, memo, Some(Tok("type")), rf.schema, opp.value, here)
    else Out(memo, if rf.default.Some? then [] else [MissingDefault(here, rf.name)])
  }

  /** Both sides are unions: every writer branch, from `i` on, must find a reader branch. */
  function CalcUnions(env: Env, memo: MemoMap, r: Schema, w: Schema, loc: seq<Step>, i: nat): (o: Out)
    requires Ready(env, r, w) && w.Union? && i <= |w.variants|
    ensures Extends(memo, o.memo)
    decreases Unmemoised(env, memo), Size(r) + Size(w), 0, |w.variants| - i
  {
    if i == |w.variants| then
      Out(memo, [])
    else
      VariantIsSmaller(w.variants, i);
      var first := Get(env, memo, None, r, w.variants[i], []);
      UnmemoisedShrinks(env, memo, first.memo);
      var rest := CalcUnions(env, first.memo, r, w, loc, i + 1);
      var kind := KindOf(Lower(w.variants[i], env.wn));
      Out(rest.memo, (if first.msgs == [] then [] else [MissingUnionBranch(loc + [Pos(i)], kind)]) + rest.msgs)
  }

  /** Only the writer is a union: the reader must read every branch. */
  function CalcWriterUnion(env: Env, memo: MemoMap, r: Schema, w: Schema, i: nat): (o: Out)
    requires Ready(env, r, w) && w.Union? && i <= |w.variants|
    ensures Extends(memo, o.memo)
    decreases Unmemoised(env, memo), Size(r) + Size(w), 0, |w.variants| - i
  {
    if i == |w.variants| then
      Out(memo, [])
    else
      VariantIsSmaller(w.variants, i);
      var first := Get(env, memo, None, r, w.variants[i], []);
      UnmemoisedShrinks(env, memo, first.memo);
      var rest := CalcWriterUnion(env, first.memo, r, w, i + 1);
      Out(rest.memo, first.msgs + rest.msgs)
  }

  /** Only the reader is a union: the first branch that reads the writer ends the search. */
  function CalcReaderUnion(env: Env, memo: MemoMap, r: Schema, w: Schema, i: nat): (o: Out)
    requires Ready(env, r, w) && r.Union? && i <= |r.variants|
    ensures Extends(memo, o.memo)
    decreases Unmemoised(env, memo), Size(r) + Size(w), 0, |r.variants| - i
  {
    if i == |r.variants| then
      Out(memo, [MissingUnionBranch([], KindOf(Lower(w, env.wn)))])
    else
      VariantIsSmaller(r.variants, i);
      var first := Get(env, memo, None, r.variants[i], w, []);
      if first.msgs == [] then first
      else
        UnmemoisedShrinks(env, memo, first.memo);
        CalcReaderUnion(env, first.memo, r, w, i + 1)
  }

  /** `can_read`: empty exactly when data of `w` is accepted for `r`. */
  function CanRead(env: Env, r: Schema, w: Schema): seq<Msg>
    requires Ready(env, r, w)
  {
    Fresh(env, map[], r, w).msgs
  }

  // ---------------- pairs of different kinds ----------------

  predicate SameKind(a: Named, b: Named) {
    a.NRecord? == b.NRecord? && a.NEnum? == b.NEnum?
  }

  lemma CalcDifferentKinds(env: Env, memo: MemoMap, r: Schema, w: Schema, loc: seq<Step>)
    requires Ready(env, r, w) && KeyOf(env, r, w).Some? && !SameKind(Lower(r, env.rn).d, Lower(w, env.wn).d)
    ensures var o := Calc(env, memo, r, w, loc); o.memo == memo && o.msgs != []
  {
  }

  // ---------------- one unfolding of each function, with its measure ----------------

  lemma GetUnnamed(env: Env, memo: MemoMap, token: Option<Step>, r: Schema, w: Schema, loc: seq<Step>)
    requires Ready(env, r, w) && KeyOf(env, r, w).None?
    ensures Get(env, memo, token, r, w, loc) == Calc(env, memo, r, w, Here(token, loc))
  {
    hide Calc;
  }

  lemma GetHit(env: Env, memo: MemoMap, token: Option<Step>, r: Schema, w: Schema, loc: seq<Step>, k: Key)
    requires Ready(env, r, w) && KeyOf(env, r, w) == Some(k) && k in memo
    ensures Get(env, memo, token, r, w, loc) == Out(memo, if memo[k].Done? then memo[k].msgs else [])
  {
    hide Calc;
  }

  lemma GetMiss(env: Env, memo: MemoMap, token: Option<Step>, r: Schema, w: Schema, loc: seq<Step>, k: Key)
    requires Ready(env, r, w) && KeyOf(env, r, w) == Some(k) && k !in memo
    ensures var c := Calc(env, memo[k := InProgress], r, w, Here(token, loc));
            Get(env, memo, token, r, w, loc) == Out(c.memo[k := Done(c.msgs)], c.msgs)
    ensures Unmemoised(env, memo[k := InProgress]) < Unmemoised(env, memo)
  {
    hide Calc;
    KeyIsInTables(env, r, w);
    UnmemoisedDrops(env, memo, k, InProgress);
  }

  lemma CalcFieldsUnfolds(env: Env, memo: MemoMap, rr: RecordDef, wr: RecordDef, w: Schema, loc: seq<Step>, pos: nat)
    requires ReadyNamed(env, NRecord(rr), NRecord(wr), w)
    requires pos < |rr.fields|
    ensures var rf := rr.fields[pos];
            var here := loc + [Tok("fields"), Pos(pos)];
            var opp := Opposite(env, rf, wr, w);
            var first := CalcField(env, memo, rr, wr, w, loc, pos);
            var rest := CalcFields(env, first.memo, rr, wr, w, loc, pos + 1);
            && CalcFields(env, memo, rr, wr, w, loc, pos) == Out(rest.memo, first.msgs + rest.msgs)
            && Unmemoised(env, first.memo) <= Unmemoised(env, memo)
            && (opp.Some? ==>
                  && Ready(env, rf.schema, opp.value)
                  && first == Get(env, memo, Some(Tok("type")), rf.schema, opp.value, here)
                  && Size(rf.schema) + Size(opp.value) < NamedSize(NRecord(rr)) + NamedSize(NRecord(wr)))
            && (opp.None? ==> first == Out(memo, if rf.default.Some? then [] else [MissingDefault(here, rf.name)]))
  {
    hide Get;
    OppositeIsSmaller(env, rr, wr, w, pos);
    UnmemoisedShrinks(env, memo, CalcField(env, memo, rr, wr, w, loc, pos).memo);
  }

  lemma CalcUnionsUnfolds(env: Env, memo: MemoMap, r: Schema, w: Schema, loc: seq<Step>, i: nat)
    requires Ready(env, r, w) && w.Union? && i < |w.variants|
    ensures var first := Get(env, memo, None, r, w.variants[i], []);
            var rest := CalcUnions(env, first.memo, r, w, loc, i + 1);
            var kind := KindOf(Lower(w.variants[i], env.wn));
            && CalcUnions(env, memo, r, w, loc, i) ==
               Out(rest.memo, (if first.msgs == [] then [] else [MissingUnionBranch(loc + [Pos(i)], kind)]) + rest.msgs)
            && Unmemoised(env, first.memo) <= Unmemoised(env, memo)
            && Ready(env, r, w.variants[i]) && Size(w.variants[i]) < Size(w)
  {
    hide Get;
    VariantIsSmaller(w.variants, i);
    UnmemoisedShrinks(env, memo, Get(env, memo, None, r, w.variants[i], []).memo);
  }

  lemma CalcWriterUnionUnfolds(env: Env, memo: MemoMap, r: Schema, w: Schema, i: nat)
    requires Ready(env, r, w) && w.Union? && i < |w.variants|
    ensures var first := Get(env, memo, None, r, w.variants[i], []);
            var rest := CalcWriterUnion(env, first.memo, r, w, i + 1);
            && CalcWriterUnion(env, memo, r, w, i) == Out(rest.memo, first.msgs + rest.msgs)
            && Unmemoised(env, first.memo) <= Unmemoised(env, memo)
            && Ready(env, r, w.variants[i]) && Size(w.variants[i]) < Size(w)
  {
    hide Get;
    VariantIsSmaller(w.variants, i);
    UnmemoisedShrinks(env, memo, Get(env, memo, None, r, w.variants[i], []).memo);
  }

  lemma CalcReaderUnionUnfolds(env: Env, memo: MemoMap, r: Schema, w: Schema, i: nat)
    requires Ready(env, r, w) && r.Union? && i < |r.variants|
    ensures var first := Get(env, memo, None, r.variants[i], w, []);
            && CalcReaderUnion(env, memo, r, w, i) ==
               (if first.msgs == [] then first else CalcReaderUnion(env, first.memo, r, w, i + 1))
            && Unmemoised(env, first.memo) <= Unmemoised(env, memo)
            && Ready(env, r.variants[i], w) && Size(r.variants[i]) < Size(r)
  {
    hide Get;
    VariantIsSmaller(r.variants, i);
    UnmemoisedShrinks(env, memo, Get(env, memo, None, r.variants[i], w, []).memo);
  }

  /** The loops do nothing past their last element, except report a reader union that found no branch. */
  lemma LoopsEnd(env: Env, memo: MemoMap, r: Schema, w: Schema, loc: seq<Step>)
    requires Ready(env, r, w)
    ensures w.Union? ==> CalcUnions(env, memo, r, w, loc, |w.variants|) == Out(memo, [])
    ensures w.Union? ==> CalcWriterUnion(env, memo, r, w, |w.variants|) == Out(memo, [])
    ensures r.Union? ==>
              var o := CalcReaderUnion(env, memo, r, w, |r.variants|);
              o.memo == memo && o.msgs != []
  {
  }

  lemma FieldsEnd(env: Env, memo: MemoMap, rr: RecordDef, wr: RecordDef, w: Schema, loc: seq<Step>)
    requires ReadyNamed(env, NRecord(rr), NRecord(wr), w)
    ensures CalcFields(env, memo, rr, wr, w, loc, |rr.fields|) == Out(memo, [])
  {
  }

  /** A reader union against a writer that is none: accepted exactly when a branch accepts it. */
  lemma GetReaderUnion(env: Env, memo: MemoMap, token: Option<Step>, r: Schema, w: Schema, loc: seq<Step>)
    requires Ready(env, r, w) && r.Union? && !w.Union? && !Lower(w, env.wn).Unresolved?
    ensures var o, c := Get(env, memo, token, r, w, loc), CalcReaderUnion(env, memo, r, w, 0);
            o.memo == c.memo && (o.msgs == [] <==> c.msgs == [])
  {
    hide Get, CalcReaderUnion;
    GetUnnamed(env, memo, token, r, w, loc);
  }
}
