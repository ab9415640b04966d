/**
 A reader of values, after the "Schema Resolution" section of the Apache Avro
 1.11 Specification: it takes a value of the writer's schema and gives one of
 the reader's, or an error. A pair of schemas in the greatest relation closed
 under the resolution rules never makes it fail, however deep or recursive
 the value is.

 Reals stand for floating point, so a promotion loses nothing here.
 */
module AvroReader {
  import opened Wrappers
  import opened AvroTypes
  import opened AvroChecker
  import opened AvroResolution
  import opened AvroExactness
  import opened AvroNonRecursive

  // ---------------- values of a schema ----------------

  const INT_MAX := 0x8000_0000
  const LONG_MAX := 0x8000_0000_0000_0000

  predicate AreBytes(bytes: seq<int>) {
    forall b | b in bytes :: 0 <= b < 256
  }

  predicate IsPrim(p: Prim, v: Value) {
    match p
    case Null => v.NullV?
    case Boolean => v.BoolV?
    case Int => v.IntV? && -INT_MAX <= v.n < INT_MAX
    case Long => v.LongV? && -LONG_MAX <= v.n < LONG_MAX
    case Float => v.FloatV?
    case Double => v.DoubleV?
    case Bytes => v.BytesV? && AreBytes(v.bytes)
    case Str => v.StringV? && AreBytes(v.bytes)
  }

  predicate IsA(names: Names, l: Lowered, v: Value)
    decreases v
  {
    match l
    case LPrim(p) => IsPrim(p, v)
    case LArray(items) => v.ArrayV? && forall i | 0 <= i < |v.items| :: IsA(names, Lower(items, names), v.items[i])
    case LMap(values) => v.MapV? && forall i | 0 <= i < |v.entries| ::
      IsA(names, Lower(values, names), v.entries[i].value)
    case LUnion(variants) => v.UnionV? && v.branch < |variants| && IsA(names, Lower(variants[v.branch], names), v.value)
    case LNamed(NFixed(f)) => v.FixedV? && |v.bytes| == f.size && AreBytes(v.bytes)
    case LNamed(NEnum(e)) => v.EnumV? && v.symbol in e.symbols
    case LNamed(NRecord(r)) =>
      v.RecordV? && |v.fields| == |r.fields| && forall i | 0 <= i < |r.fields| ::
        IsA(names, Lower(r.fields[i].schema, names), v.fields[i])
    case Unresolved(_) => false
  }

  // ---------------- which branch of a reader's union ----------------

  function Depth(l: Lowered): nat {
    match l
    case LArray(i) => 1 + Size(i)
    case LMap(v) => 1 + Size(v)
    case LUnion(vs) => 1 + SizeAll(vs)
    case _ => 0
  }

  lemma DepthOfLower(s: Schema, names: Names)
    ensures Depth(Lower(s, names)) <= Size(s)
  {
  }

  predicate NamedMatch(rd: Named, wd: Named) {
    if rd.NFixed? && wd.NFixed? then NamesMatch(rd.f.name, rd.f.aliases, wd.f.name) && rd.f.size == wd.f.size
    else if rd.NEnum? && wd.NEnum? then NamesMatch(rd.e.name, rd.e.aliases, wd.e.name)
    else rd.NRecord? && wd.NRecord? && NamesMatch(rd.r.name, rd.r.aliases, wd.r.name)
  }

  /** The specification's "match": by kind and name only, however the contents resolve. */
  predicate Match(env: Env, lr: Lowered, lw: Lowered)
    decreases Depth(lr)
  {
    if lr.Unresolved? || lw.Unresolved? then false
    else if lr.LUnion? || lw.LUnion? then true
    else if lr.LArray? && lw.LArray? then
      DepthOfLower(lr.items, env.rn);
      Match(env, Lower(lr.items, env.rn), Lower(lw.items, env.wn))
    else if lr.LMap? && lw.LMap? then
      DepthOfLower(lr.values, env.rn);
      Match(env, Lower(lr.values, env.rn), Lower(lw.values, env.wn))
    else if lr.LNamed? && lw.LNamed? then NamedMatch(lr.d, lw.d)
    else lr.LPrim? && lw.LPrim? && Promotable(lw.p, lr.p)
  }

  /** The first branch, from `from` on, that matches the writer's schema. */
  function FirstMatch(env: Env, variants: seq<Schema>, lw: Lowered, from: nat): (i: Option<nat>)
    requires from <= |variants|
    ensures i.Some? ==> from <= i.value < |variants| && Match(env, Lower(variants[i.value], env.rn), lw)
    ensures i.Some? ==> forall k | from <= k < i.value :: !Match(env, Lower(variants[k], env.rn), lw)
    ensures i.None? ==> forall k | from <= k < |variants| :: !Match(env, Lower(variants[k], env.rn), lw)
    decreases |variants| - from
  {
    if from == |variants| then None
    else if Match(env, Lower(variants[from], env.rn), lw) then Some(from)
    else FirstMatch(env, variants, lw, from + 1)
  }

  // ---------------- reading ----------------

  function Promote(reader: Prim, v: Value): Option<Value> {
    match v
    case IntV(n) =>
      if reader == Int then Some(v) else if reader == Long then Some(LongV(n))
      else if reader == Float then Some(FloatV(n as real)) else if reader == Double then Some(DoubleV(n as real))
        else None
    case LongV(n) =>
      if reader == Long then Some(v) else if reader == Float then Some(FloatV(n as real))
        else if reader == Double then Some(DoubleV(n as real)) else None
    case FloatV(x) => if reader == Float then Some(v) else if reader == Double then Some(DoubleV(x)) else None
    case DoubleV(_) => if reader == Double then Some(v) else None
    case StringV(b) => if reader == Str then Some(v) else if reader == Bytes then Some(BytesV(b)) else None
    case BytesV(b) => if reader == Bytes then Some(v) else if reader == Str then Some(StringV(b)) else None
    case NullV => if reader == Null then Some(v) else None
    case BoolV(_) => if reader == Boolean then Some(v) else None
    case _ => None
  }

  /** A symbol the reader does not know becomes the reader's default, if it has one. */
  function ReadSymbol(re: EnumDef, symbol: string): Option<Value> {
    if symbol in re.symbols then Some(EnumV(symbol))
    else if re.default.Some? && re.default.value in re.symbols then Some(EnumV(re.default.value)) else None
  }

  function Read(env: Env, lr: Lowered, lw: Lowered, v: Value): Option<Value>
    decreases v, Depth(lr)
  {
    if lr.Unresolved? || lw.Unresolved? then None
    else if lw.LUnion? then
      if v.UnionV? && v.branch < |lw.variants| then Read(env, lr, Lower(lw.variants[v.branch], env.wn), v.value)
        else None
    else if lr.LUnion? then
      var i := FirstMatch(env, lr.variants, lw, 0);
      if i.None? then None
      else
        VariantIsSmaller(lr.variants, i.value);
        DepthOfLower(lr.variants[i.value], env.rn);
        var x := Read(env, Lower(lr.variants[i.value], env.rn), lw, v);
        if x.None? then None else Some(UnionV(i.value, x.value))
    else if lr.LArray? && lw.LArray? then
      if v.ArrayV? && forall i | 0 <= i < |v.items| ::
        Read(env, Lower(lr.items, env.rn), Lower(lw.items, env.wn), v.items[i]).Some?
      then Some(ArrayV(seq(|v.items|, i requires 0 <= i < |v.items| =>
                         Read(env, Lower(lr.items, env.rn), Lower(lw.items, env.wn), v.items[i]).value))) else None
    else if lr.LMap? && lw.LMap? then
      if v.MapV? && forall i | 0 <= i < |v.entries| ::
        Read(env, Lower(lr.values, env.rn), Lower(lw.values, env.wn), v.entries[i].value).Some?
      then Some(MapV(seq(|v.entries|, i requires 0 <= i < |v.entries| =>
                       Entry(v.entries[i].key,
                             Read(env, Lower(lr.values, env.rn), Lower(lw.values, env.wn), v.entries[i].value).value))))
      else None
    else if lr.LNamed? && lw.LNamed? then ReadNamed(env, lr.d, lw.d, v)
    else if lr.LPrim? && lw.LPrim? then Promote(lr.p, v)
    else None
  }

  function ReadNamed(env: Env, rd: Named, wd: Named, v: Value): Option<Value>
    decreases v, 0, 1
  {
    if !NamedMatch(rd, wd) then None
    else if rd.NFixed? then (if v.FixedV? && |v.bytes| == rd.f.size then Some(v) else None)
    else if rd.NEnum? then (if v.EnumV? then ReadSymbol(rd.e, v.symbol) else None)
    else
      // Only the reader's fields; what only the writer has is skipped.
      if v.RecordV? && |v.fields| == |wd.r.fields| && forall i | 0 <= i < |rd.r.fields| ::
        ReadField(env, rd.r.fields[i], wd.r, v).Some?
      then Some(RecordV(seq(|rd.r.fields|, i requires 0 <= i < |rd.r.fields| =>
                              ReadField(env, rd.r.fields[i], wd.r, v).value)))
      else None
  }

  function ReadField(env: Env, rf: Field, wr: RecordDef, v: Value): Option<Value>
    requires v.RecordV? && |v.fields| == |wr.fields|
    decreases v, 0, 0
  {
    var found := FindField(rf, wr.fields);
    if found.Some? then Read(env, Lower(rf.schema, env.rn), Lower(wr.fields[found.value].schema, env.wn),
                             v.fields[found.value])
    else rf.default
  }

  // ---------------- what a reader's schema has to be ----------------

  /** No writer's type can match both branches, unless both are primitive. */
  ghost predicate Apart(a: Lowered, b: Lowered) {
    && !(a.LArray? && b.LArray?) && !(a.LMap? && b.LMap?)
    && (a.LNamed? && b.LNamed? ==> forall wd: Named :: !(NamedMatch(a.d, wd) && NamedMatch(b.d, wd)))
  }

  ghost predicate TidyUnion(variants: seq<Schema>, names: Names) {
    && (forall i | 0 <= i < |variants| :: !Lower(variants[i], names).LUnion?)
    && (forall i, j | 0 <= i < j < |variants| :: Apart(Lower(variants[i], names), Lower(variants[j], names)))
  }

  /** A default is a value of the field's own schema. */
  predicate DefaultFits(f: Field, names: Names) {
    f.default.Some? ==> IsA(names, Lower(f.schema, names), f.default.value)
  }

  ghost predicate Tidy(s: Schema, names: Names)
    decreases s
  {
    match s
    case Array(i) => Tidy(i, names)
    case Map(v) => Tidy(v, names)
    case Union(vs) => TidyUnion(vs, names) && forall v | v in vs :: Tidy(v, names)
    case Record(r) => forall f | f in r.fields :: DefaultFits(f, names) && Tidy(f.schema, names)
    case _ => true
  }

  ghost predicate TidyNamed(d: Named, names: Names) {
    d.NRecord? ==> forall f | f in d.r.fields :: DefaultFits(f, names) && Tidy(f.schema, names)
  }

  ghost predicate TidyTable(names: Names) {
    forall n | n in names :: TidyNamed(names[n], names)
  }

  ghost predicate TidyLowered(l: Lowered, names: Names) {
    match l
    case LArray(i) => Tidy(i, names)
    case LMap(v) => Tidy(v, names)
    case LUnion(vs) => TidyUnion(vs, names) && forall v | v in vs :: Tidy(v, names)
    case LNamed(d) => TidyNamed(d, names)
    case _ => true
  }

  lemma LowerIsTidy(s: Schema, names: Names)
    requires TidyTable(names) && Tidy(s, names)
    ensures TidyLowered(Lower(s, names), names)
  {
  }

  // ---------------- the relation and the match ----------------

  lemma RelatedRules(env: Env, lr: Lowered, lw: Lowered)
    requires (lr, lw) in Greatest(env)
    ensures Rules(env, Greatest(env), lr, lw)
  {
    GreatestIsClosed(env);
  }

  /** What resolves, matches. */
  lemma {:induction false} RelatedMatches(env: Env, lr: Lowered, lw: Lowered)
    requires (lr, lw) in Greatest(env)
    ensures Match(env, lr, lw)
    decreases Depth(lr)
  {
    hide Greatest;
    RelatedRules(env, lr, lw);
    if lr.LUnion? || lw.LUnion? {
    } else if lr.LArray? && lw.LArray? {
      DepthOfLower(lr.items, env.rn);
      RelatedMatches(env, Lower(lr.items, env.rn), Lower(lw.items, env.wn));
    } else if lr.LMap? && lw.LMap? {
      DepthOfLower(lr.values, env.rn);
      RelatedMatches(env, Lower(lr.values, env.rn), Lower(lw.values, env.wn));
    }
  }

  /** In a tidy union the first branch that matches is one that resolves. */
  lemma FirstMatchResolves(env: Env, variants: seq<Schema>, lw: Lowered, i: nat)
    requires TidyUnion(variants, env.rn) && !lw.LUnion? && i < |variants|
             && (Lower(variants[i], env.rn), lw) in Greatest(env)
    ensures var j := FirstMatch(env, variants, lw, 0);
            j.Some? && (Lower(variants[j.value], env.rn), lw) in Greatest(env)
  {
    hide Greatest;
    RelatedMatches(env, Lower(variants[i], env.rn), lw);
    var j := FirstMatch(env, variants, lw, 0).value;
    if j != i {
      var a, b := Lower(variants[j], env.rn), Lower(variants[i], env.rn);
      assert Apart(a, b) && !a.LUnion? && !b.LUnion?;
      assert lw.LPrim? by {
        NotBoth(env, a, b, lw);
      }
      GreatestFolds(env, a, lw);
    }
  }

  lemma NotBoth(env: Env, a: Lowered, b: Lowered, lw: Lowered)
    requires Apart(a, b) && !a.LUnion? && !b.LUnion? && !lw.LUnion? && Match(env, a, lw) && Match(env, b, lw)
    ensures lw.LPrim?
  {
  }

  // ---------------- the reader never fails on a pair of the relation ----------------

  lemma PromoteSucceeds(reader: Prim, writer: Prim, v: Value)
    requires Promotable(writer, reader) && IsPrim(writer, v)
    ensures Promote(reader, v).Some? && IsPrim(reader, Promote(reader, v).value)
  {
  }

  lemma SymbolSucceeds(re: EnumDef, we: EnumDef, symbol: string)
    requires EnumRule(re, we) && symbol in we.symbols
    ensures var x := ReadSymbol(re, symbol); x.Some? && x.value.EnumV? && x.value.symbol in re.symbols
  {
  }

  /** Nothing goes wrong with a value of the writer's schema, and what comes out is one of the reader's. */
  ghost predicate Reads(env: Env, lr: Lowered, lw: Lowered, v: Value) {
    var x := Read(env, lr, lw, v);
    x.Some? && IsA(env.rn, lr, x.value)
  }

  lemma {:induction false} ReaderSucceeds(env: Env, lr: Lowered, lw: Lowered, v: Value)
    requires TidyTable(env.rn) && TidyLowered(lr, env.rn) && (lr, lw) in Greatest(env) && IsA(env.wn, lw, v)
    ensures Reads(env, lr, lw, v)
    decreases v, Depth(lr)
  {
    hide Greatest, TidyTable, Tidy, Match, TidyUnion, Promote, IsPrim, ReadNamed, NamedMatch;
    RelatedRules(env, lr, lw);
    if lw.LUnion? {
      ReaderSucceeds(env, lr, Lower(lw.variants[v.branch], env.wn), v.value);
    } else if lr.LUnion? {
      UnionSucceeds(env, lr, lw, v);
    } else if lr.LArray? {
      LowerIsTidy(lr.items, env.rn);
      forall i | 0 <= i < |v.items|
        ensures Reads(env, Lower(lr.items, env.rn), Lower(lw.items, env.wn), v.items[i])
      {
        ReaderSucceeds(env, Lower(lr.items, env.rn), Lower(lw.items, env.wn), v.items[i]);
      }
    } else if lr.LMap? {
      LowerIsTidy(lr.values, env.rn);
      forall i | 0 <= i < |v.entries|
        ensures Reads(env, Lower(lr.values, env.rn), Lower(lw.values, env.wn), v.entries[i].value)
      {
        ReaderSucceeds(env, Lower(lr.values, env.rn), Lower(lw.values, env.wn), v.entries[i].value);
      }
    } else if lr.LNamed? {
      NamedSucceeds(env, lr.d, lw.d, v);
    } else {
      PromoteSucceeds(lr.p, lw.p, v);
    }
  }

  lemma {:induction false} UnionSucceeds(env: Env, lr: Lowered, lw: Lowered, v: Value)
    requires TidyTable(env.rn) && TidyLowered(lr, env.rn) && (lr, lw) in Greatest(env) && IsA(env.wn, lw, v)
    requires lr.LUnion? && !lw.LUnion?
    ensures Reads(env, lr, lw, v)
    decreases v, Depth(lr), 0
  {
    hide Greatest, TidyTable, Tidy, Match, TidyUnion, FirstMatch, Read, IsA, Reads;
    RelatedRules(env, lr, lw);
    var i :| 0 <= i < |lr.variants| && (Lower(lr.variants[i], env.rn), lw) in Greatest(env);
    FirstMatchResolves(env, lr.variants, lw, i);
    var j := FirstMatch(env, lr.variants, lw, 0).value;
    assert lr.variants[j] in lr.variants;
    LowerIsTidy(lr.variants[j], env.rn);
    VariantIsSmaller(lr.variants, j);
    DepthOfLower(lr.variants[j], env.rn);
    ReaderSucceeds(env, Lower(lr.variants[j], env.rn), lw, v);
    ReadsThrough(env, lr, lw, v, j);
  }

  lemma ReadsThrough(env: Env, lr: Lowered, lw: Lowered, v: Value, j: nat)
    requires lr.LUnion? && !lw.LUnion? && FirstMatch(env, lr.variants, lw, 0) == Some(j)
             && Reads(env, Lower(lr.variants[j], env.rn), lw, v)
    ensures Reads(env, lr, lw, v)
  {
    hide FirstMatch, Match, Lower, Read;
    var x := Read(env, Lower(lr.variants[j], env.rn), lw, v);
    ReadsBranch(env, lr, lw, v, j);
    assert IsA(env.rn, lr, UnionV(j, x.value));
  }

  lemma ReadsBranch(env: Env, lr: Lowered, lw: Lowered, v: Value, j: nat)
    requires lr.LUnion? && !lw.LUnion? && FirstMatch(env, lr.variants, lw, 0) == Some(j)
    ensures var x := Read(env, Lower(lr.variants[j], env.rn), lw, v);
            x.Some? ==> Read(env, lr, lw, v) == Some(UnionV(j, x.value))
  {
    hide FirstMatch, Match, Lower, IsA, ReadNamed, Promote;
    var x := Read(env, Lower(lr.variants[j], env.rn), lw, v);
    if x.Some? {
      NotUnresolved(env, Lower(lr.variants[j], env.rn), lw, v);
    }
  }

  lemma NotUnresolved(env: Env, lr: Lowered, lw: Lowered, v: Value)
    requires Read(env, lr, lw, v).Some?
    ensures !lw.Unresolved?
  {
  }

  lemma {:induction false} NamedSucceeds(env: Env, rd: Named, wd: Named, v: Value)
    requires TidyTable(env.rn) && TidyNamed(rd, env.rn) && (LNamed(rd), LNamed(wd)) in Greatest(env)
             && IsA(env.wn, LNamed(wd), v)
    ensures var x := ReadNamed(env, rd, wd, v); x.Some? && IsA(env.rn, LNamed(rd), x.value)
    decreases v, 0, 1
  {
    hide Greatest, TidyTable, Tidy;
    RelatedRules(env, LNamed(rd), LNamed(wd));
    if rd.NEnum? && wd.NEnum? {
      SymbolSucceeds(rd.e, wd.e, v.symbol);
    } else if rd.NRecord? && wd.NRecord? {
      forall i | 0 <= i < |rd.r.fields|
        ensures var x := ReadField(env, rd.r.fields[i], wd.r, v);
                x.Some? && IsA(env.rn, Lower(rd.r.fields[i].schema, env.rn), x.value)
      {
        FieldSucceeds(env, rd.r, wd.r, i, v);
      }
    }
  }

  lemma {:induction false} FieldSucceeds(env: Env, rr: RecordDef, wr: RecordDef, i: nat, v: Value)
    requires TidyTable(env.rn) && TidyNamed(NRecord(rr), env.rn) && i < |rr.fields|
             && FieldRule(env, Greatest(env), rr.fields[i], wr)
    requires IsA(env.wn, LNamed(NRecord(wr)), v)
    ensures var x := ReadField(env, rr.fields[i], wr, v);
            x.Some? && IsA(env.rn, Lower(rr.fields[i].schema, env.rn), x.value)
    decreases v, 0, 0
  {
    hide Greatest, TidyTable, Tidy;
    var rf := rr.fields[i];
    assert rf in rr.fields;
    var found := FindField(rf, wr.fields);
    if found.Some? {
      LowerIsTidy(rf.schema, env.rn);
      ReaderSucceeds(env, Lower(rf.schema, env.rn), Lower(wr.fields[found.value].schema, env.wn),
                     v.fields[found.value]);
    }
  }

  /** Data written with a schema the reader resolves can be read, all of it. */
  lemma ResolvableDataIsReadable(env: Env, r: Schema, w: Schema, v: Value)
    requires TidyTable(env.rn) && Tidy(r, env.rn) && Resolves(env, r, w) && IsA(env.wn, Lower(w, env.wn), v)
    ensures Reads(env, Lower(r, env.rn), Lower(w, env.wn), v)
  {
    LowerIsTidy(r, env.rn);
    ReaderSucceeds(env, Lower(r, env.rn), Lower(w, env.wn), v);
  }

  /** So an empty list of incompatibilities is a promise about data wherever the check is exact. */
  lemma CompatibleDataIsReadable(env: Env, r: Schema, w: Schema, v: Value)
    requires Ready(env, r, w) && TidyTable(env.rn) && Tidy(r, env.rn) && CanRead(env, r, w) == []
    requires (Simple(r, env.rn) && SimpleTable(env.rn)) || NonRecursive(env.rn) || NonRecursive(env.wn)
    requires IsA(env.wn, Lower(w, env.wn), v)
    ensures Reads(env, Lower(r, env.rn), Lower(w, env.wn), v)
  {
    hide Ready, Reads, CanRead;
    if Simple(r, env.rn) && SimpleTable(env.rn) {
      ExactWithSimpleUnions(env, r, w);
    } else {
      ExactWithoutRecursion(env, r, w);
    }
    ResolvableDataIsReadable(env, r, w, v);
  }

  // ---------------- why unions have to be tidy ----------------

  const STRICT := NRecord(RecordDef(Name("a", "R"), [], [Field("x", [], Plain(Int), None)]))
  const LAX := NRecord(RecordDef(Name("b", "R"), [], []))
  const WRITTEN := NRecord(RecordDef(Name("c", "R"), [], []))

  /** A reader's union of two records that share their unqualified name. */
  const UNTIDY := Union([Ref(Name("a", "R")), Ref(Name("b", "R"))])
  const UNTIDY_ENV := Env(map[Name("a", "R") := STRICT, Name("b", "R") := LAX], map[Name("c", "R") := WRITTEN])

  lemma UntidyUnionResolves()
    ensures Resolves(UNTIDY_ENV, UNTIDY, Ref(Name("c", "R")))
  {
    var env, lr, lw := UNTIDY_ENV, Lower(UNTIDY, UNTIDY_ENV.rn), LNamed(WRITTEN);
    var rel: Rel := iset{(lr, lw), (LNamed(LAX), lw)};
    assert Lower(lr.variants[0], env.rn) == LNamed(STRICT) && Lower(lr.variants[1], env.rn) == LNamed(LAX);
    assert Lower(Ref(Name("c", "R")), env.wn) == lw;
    forall r, w | (r, w) in rel
      ensures Rules(env, rel, r, w)
    {
      if r == lr {
        assert (Lower(lr.variants[1], env.rn), lw) in rel;
      }
    }
    GreatestIsGreatest(env, rel);
  }

  /** The pair resolves through the second branch; a reader by the book takes the first, and fails. */
  lemma UntidyUnionFails()
    ensures TidyTable(UNTIDY_ENV.rn) && Resolves(UNTIDY_ENV, UNTIDY, Ref(Name("c", "R")))
    ensures IsA(UNTIDY_ENV.wn, LNamed(WRITTEN), RecordV([]))
    ensures Read(UNTIDY_ENV, Lower(UNTIDY, UNTIDY_ENV.rn), LNamed(WRITTEN), RecordV([])) == None
  {
    hide Resolves, Greatest, Closed, Rules;
    var env, lr, lw := UNTIDY_ENV, Lower(UNTIDY, UNTIDY_ENV.rn), LNamed(WRITTEN);
    UntidyUnionResolves();
    assert Lower(lr.variants[0], env.rn) == LNamed(STRICT);
    assert FirstMatch(env, lr.variants, lw, 0) == Some(0);
    assert ReadField(env, STRICT.r.fields[0], WRITTEN.r, RecordV([])) == None;
  }
}
