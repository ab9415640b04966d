/**
 The check as it runs (`Checker` in src/schema/avro.rs): one memo that every
 call updates, a path that is pushed and popped on the way down, and loops over
 fields and branches. Each method leaves the memo and gives the messages that
 the functions of AvroChecker say, and the path as it found it.
 */
module AvroCheckerObject {
  import opened Wrappers
  import opened AvroTypes
  import opened AvroChecker

  class Path {
    var steps: seq<Step>

    constructor ()
      ensures steps == []
    {
      steps := [];
    }

    method Push(s: Step)
      modifies this
      ensures steps == old(steps) + [s]
    {
      steps := steps + [s];
    }

    method Pop()
      requires steps != []
      modifies this
      ensures steps == old(steps)[..|old(steps)| - 1]
    {
      steps := steps[..|steps| - 1];
    }
  }

  class CheckerObject {
    const env: Env
    var memo: MemoMap

    constructor (env: Env)
      ensures this.env == env && memo == map[]
    {
      this.env := env;
      memo := map[];
    }

    method GetMessages(token: Option<Step>, r: Schema, w: Schema, path: Path) returns (msgs: seq<Msg>)
      requires Ready(env, r, w)
      modifies this, path
      ensures Out(memo, msgs) == Get(env, old(memo), token, r, w, old(path.steps)) && path.steps == old(path.steps)
      decreases Unmemoised(env, memo), Size(r) + Size(w), 3, 0
    {
      hide Get, Calc, Ready, Lower, Unmemoised, CalcSize;
      ghost var loc := path.steps;
      if token.Some? {
        path.Push(token.value);
      }
      assert path.steps == Here(token, loc);
      var key := KeyOf(env, r, w);
      if key.Some? && key.value in memo {
        GetHit(env, memo, token, r, w, loc, key.value);
        msgs := if memo[key.value].Done? then memo[key.value].msgs else [];
      } else {
        if key.Some? {
          GetMiss(env, memo, token, r, w, loc, key.value);
          memo := memo[key.value := InProgress];
        } else {
          GetUnnamed(env, memo, token, r, w, loc);
          UnnamedSize(env, r, w);
        }
        msgs := CalcMessages(r, w, path);
        if key.Some? {
          memo := memo[key.value := Done(msgs)];
        }
      }
      if token.Some? {
        assert path.steps == loc + [token.value];
        path.Pop();
      }
    }

    /** With messages that start again at the top. */
    method FreshMessages(r: Schema, w: Schema) returns (msgs: seq<Msg>)
      requires Ready(env, r, w)
      modifies this
      ensures Out(memo, msgs) == Get(env, old(memo), None, r, w, [])
      decreases Unmemoised(env, memo), Size(r) + Size(w), 4, 0
    {
      hide Get, Ready, Unmemoised;
      var path := new Path();
      msgs := GetMessages(None, r, w, path);
    }

    method CalcMessages(r: Schema, w: Schema, path: Path) returns (msgs: seq<Msg>)
      requires Ready(env, r, w)
      modifies this, path
      ensures Out(memo, msgs) == Calc(env, old(memo), r, w, old(path.steps)) && path.steps == old(path.steps)
      decreases Unmemoised(env, memo), CalcSize(env, r, w), 2, 0
    {
      hide Get, Ready, ReadyNamed, Unmemoised, CalcSize, CalcNamed, CalcAnyUnion;
      ReadyParts(env, r, w);
      var lr, lw := Lower(r, env.rn), Lower(w, env.wn);
      if lr.Unresolved? {
        msgs := [UnresolvedType(path.steps, lr.name)];
      } else if lw.Unresolved? {
        msgs := [UnresolvedType(path.steps, lw.name)];
      } else if lr.LArray? && lw.LArray? {
        msgs := GetMessages(Some(Tok("items")), lr.items, lw.items, path);
      } else if lr.LMap? && lw.LMap? {
        msgs := GetMessages(Some(Tok("values")), lr.values, lw.values, path);
      } else if lr.LNamed? && lw.LNamed? {
        msgs := NamedMessages(lr.d, lw.d, w, path);
      } else if lr.LUnion? || lw.LUnion? {
        msgs := UnionMessages(r, w, path);
      } else if lr.LPrim? && lw.LPrim? && Promotable(lw.p, lr.p) {
        msgs := [];
      } else {
        msgs := [TypeMismatch(path.steps, KindOf(lr), KindOf(lw))];
      }
    }

    method NamedMessages(rd: Named, wd: Named, w: Schema, path: Path) returns (msgs: seq<Msg>)
      requires ReadyNamed(env, rd, wd, w)
      modifies this, path
      ensures Out(memo, msgs) == CalcNamed(env, old(memo), rd, wd, w, old(path.steps)) && path.steps == old(path.steps)
      decreases Unmemoised(env, memo), NamedSize(rd) + NamedSize(wd), 0, |if rd.NRecord? then rd.r.fields else []| + 1
    {
      hide CalcFields, ReadyNamed, Unmemoised, NamesMatch;
      if rd.NFixed? && wd.NFixed? {
        msgs := CheckFixed(rd.f, wd.f, path.steps);
      } else if rd.NEnum? && wd.NEnum? {
        msgs := CheckEnum(rd.e, wd.e, path.steps);
      } else if rd.NRecord? && wd.NRecord? {
        msgs := CheckNames(rd.r.name, rd.r.aliases, wd.r.name, path.steps);
        var more := FieldMessages(rd.r, wd.r, w, path);
        msgs := msgs + more;
      } else {
        msgs := [TypeMismatch(path.steps, KindOf(LNamed(rd)), KindOf(LNamed(wd)))];
      }
    }

    method FieldMessages(rr: RecordDef, wr: RecordDef, w: Schema, path: Path) returns (out: seq<Msg>)
      requires ReadyNamed(env, NRecord(rr), NRecord(wr), w)
      modifies this, path
      ensures Out(memo, out) == CalcFields(env, old(memo), rr, wr, w, old(path.steps), 0)
              && path.steps == old(path.steps)
      decreases Unmemoised(env, memo), NamedSize(NRecord(rr)) + NamedSize(NRecord(wr)), 0, |rr.fields|
    {
      hide CalcFields, CalcField, Get, Ready, ReadyNamed, Unmemoised, Lower, FindField, Size, NamedSize, Opposite;
      ghost var loc, whole := path.steps, CalcFields(env, memo, rr, wr, w, path.steps, 0);
      out := [];
      path.Push(Tok("fields"));
      var pos := 0;
      while pos < |rr.fields|
        invariant 0 <= pos <= |rr.fields| && path.steps == loc + [Tok("fields")]
        invariant Unmemoised(env, memo) <= Unmemoised(env, old(memo))
        invariant var rest := CalcFields(env, memo, rr, wr, w, loc, pos); whole == Out(rest.memo, out + rest.msgs)
      {
        CalcFieldsUnfolds(env, memo, rr, wr, w, loc, pos);
        var rf := rr.fields[pos];
        path.Push(Pos(pos));
        assert path.steps == loc + [Tok("fields"), Pos(pos)];
        var opp := Opposite(env, rf, wr, w);
        var more: seq<Msg> := [];
        if opp.Some? {
          more := GetMessages(Some(Tok("type")), rf.schema, opp.value, path);
        } else if rf.default.None? {
          more := [MissingDefault(path.steps, rf.name)];
        }
        ghost var rest := CalcFields(env, memo, rr, wr, w, loc, pos + 1);
        assert out + (more + rest.msgs) == out + more + rest.msgs;
        out := out + more;
        path.Pop();
        pos := pos + 1;
      }
      FieldsEnd(env, memo, rr, wr, w, loc);
      path.Pop();
      assert path.steps == loc;
    }

    method UnionMessages(r: Schema, w: Schema, path: Path) returns (msgs: seq<Msg>)
      requires Ready(env, r, w) && (r.Union? || w.Union?)
      modifies this, path
      ensures Out(memo, msgs) == CalcAnyUnion(env, old(memo), r, w, old(path.steps)) && path.steps == old(path.steps)
      decreases Unmemoised(env, memo), Size(r) + Size(w), 1, 0
    {
      hide CalcUnions, CalcWriterUnion, CalcReaderUnion, Ready, Unmemoised, Lower;
      if r.Union? && w.Union? {
        msgs := BothUnions(r, w, path);
      } else if w.Union? {
        msgs := WriterUnion(r, w);
      } else {
        var found := ReaderUnion(r, w);
        msgs := if found then [] else [MissingUnionBranch(path.steps, KindOf(Lower(w, env.wn)))];
      }
    }

    method BothUnions(r: Schema, w: Schema, path: Path) returns (out: seq<Msg>)
      requires Ready(env, r, w) && w.Union?
      modifies this, path
      ensures Out(memo, out) == CalcUnions(env, old(memo), r, w, old(path.steps), 0) && path.steps == old(path.steps)
      decreases Unmemoised(env, memo), Size(r) + Size(w), 0, 0
    {
      hide *;
      ghost var loc, whole := path.steps, CalcUnions(env, memo, r, w, path.steps, 0);
      out := [];
      var i := 0;
      while i < |w.variants|
        invariant 0 <= i <= |w.variants| && path.steps == loc
        invariant Unmemoised(env, memo) <= Unmemoised(env, old(memo))
        invariant var rest := CalcUnions(env, memo, r, w, loc, i); whole == Out(rest.memo, out + rest.msgs)
      {
        CalcUnionsUnfolds(env, memo, r, w, loc, i);
        path.Push(Pos(i));
        var branch := FreshMessages(r, w.variants[i]);
        ghost var rest := CalcUnions(env, memo, r, w, loc, i + 1);
        var kind := KindOf(Lower(w.variants[i], env.wn));
        var missing := if branch == [] then [] else [MissingUnionBranch(path.steps, kind)];
        assert out + (missing + rest.msgs) == out + missing + rest.msgs;
        out := out + missing;
        path.Pop();
        i := i + 1;
      }
      LoopsEnd(env, memo, r, w, loc);
    }

    method WriterUnion(r: Schema, w: Schema) returns (out: seq<Msg>)
      requires Ready(env, r, w) && w.Union?
      modifies this
      ensures Out(memo, out) == CalcWriterUnion(env, old(memo), r, w, 0)
      decreases Unmemoised(env, memo), Size(r) + Size(w), 0, 0
    {
      hide CalcWriterUnion, Get, Ready, Unmemoised, Lower;
      ghost var whole := CalcWriterUnion(env, memo, r, w, 0);
      out := [];
      var i := 0;
      while i < |w.variants|
        invariant 0 <= i <= |w.variants|
        invariant Unmemoised(env, memo) <= Unmemoised(env, old(memo))
        invariant var rest := CalcWriterUnion(env, memo, r, w, i); whole == Out(rest.memo, out + rest.msgs)
      {
        CalcWriterUnionUnfolds(env, memo, r, w, i);
        var branch := FreshMessages(r, w.variants[i]);
        ghost var rest := CalcWriterUnion(env, memo, r, w, i + 1);
        assert out + (branch + rest.msgs) == out + branch + rest.msgs;
        out := out + branch;
        i := i + 1;
      }
      LoopsEnd(env, memo, r, w, []);
    }

    /** The first branch that reads the writer ends the search. */
    method ReaderUnion(r: Schema, w: Schema) returns (found: bool)
      requires Ready(env, r, w) && r.Union?
      modifies this
      ensures var o := CalcReaderUnion(env, old(memo), r, w, 0); memo == o.memo && found == (o.msgs == [])
      decreases Unmemoised(env, memo), Size(r) + Size(w), 0, 0
    {
      hide CalcReaderUnion, Get, Ready, Unmemoised, Lower;
      ghost var whole := CalcReaderUnion(env, memo, r, w, 0);
      var i := 0;
      while i < |r.variants|
        invariant 0 <= i <= |r.variants|
        invariant Unmemoised(env, memo) <= Unmemoised(env, old(memo))
        invariant whole == CalcReaderUnion(env, memo, r, w, i)
      {
        CalcReaderUnionUnfolds(env, memo, r, w, i);
        var branch := FreshMessages(r.variants[i], w);
        if branch == [] {
          return true;
        }
        i := i + 1;
      }
      LoopsEnd(env, memo, r, w, []);
      found := false;
    }
  }

  lemma UnnamedSize(env: Env, r: Schema, w: Schema)
    requires KeyOf(env, r, w).None?
    ensures CalcSize(env, r, w) == Size(r) + Size(w)
  {
  }

  /** `can_read`: a checker of its own for every question. */
  method CanReadMessages(env: Env, r: Schema, w: Schema) returns (msgs: seq<Msg>)
    requires Ready(env, r, w)
    ensures msgs == CanRead(env, r, w)
  {
    hide Get, Ready;
    var checker := new CheckerObject(env);
    msgs := checker.FreshMessages(r, w);
  }
}
