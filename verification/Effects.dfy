/**
 What the lists of writes that verbs build do to the rows of a context, as one
 equation each.
 */
module Effects {
  import opened Wrappers
  import opened RegistryTypes
  import opened Store
  import opened Snapshot
  import opened Agreement
  import opened Verbs

  /** The view shows exactly what the rows hold. */
  ghost predicate Sees(view: View, rows: Rows) {
    && Represents(view.snap, rows)
    && forall ctx: string, id: nat :: Body(view, ctx, id) == Lookup(SliceOf(rows, ctx).schemas, id)
  }

  ghost predicate SeesOn(view: View, s: Slice, ctx: string) {
    && RepresentsOn(view.snap, s, ctx)
    && forall id: nat :: Body(view, ctx, id) == Lookup(s.schemas, id)
  }

  lemma SeesEach(view: View, rows: Rows, ctx: string)
    requires Sees(view, rows)
    ensures SeesOn(view, SliceOf(rows, ctx), ctx)
  {
  }

  // ---------------- edges ----------------

  function EdgeOf(r: Reference, id: nat): Edge {
    Edge(Slot(r.subject, AtLeastOne(r.version)), id)
  }

  /** The edges of a schema that lie in `ctx`. */
  function EdgesIn(ctx: string, own: string, refs: seq<Reference>, id: nat): set<Edge> {
    if refs == [] then {}
    else (if RefTarget(own, refs[0]).ctx == ctx then {EdgeOf(refs[0], id)} else {}) + EdgesIn(ctx, own, refs[1..], id)
  }

  lemma {:induction false} EdgeIsIn(ctx: string, own: string, refs: seq<Reference>, id: nat, e: Edge)
    ensures e in EdgesIn(ctx, own, refs, id) <==>
            exists r | r in refs :: RefTarget(own, r).ctx == ctx && e == EdgeOf(r, id)
    ensures e in EdgesIn(ctx, own, refs, id) ==> e.id == id
  {
    if refs != [] {
      EdgeIsIn(ctx, own, refs[1..], id, e);
      assert forall r :: r in refs <==> r == refs[0] || r in refs[1..];
    }
  }

  lemma CutsFirst(ctx: string, s: Slice, own: string, refs: seq<Reference>, id: nat)
    requires refs != []
    ensures var ws, gone := CutEdges(own, refs, id), EdgesIn(ctx, own, refs, id);
            && ws != [] && ws[1..] == CutEdges(own, refs[1..], id) && Truthful(s, ctx, ws[0])
            && WriteSlice(ctx, s, ws[0]).refby - EdgesIn(ctx, own, refs[1..], id) == s.refby - gone
            && WriteSlice(ctx, s, ws[0]) == s.(refby := WriteSlice(ctx, s, ws[0]).refby)
  {
    hide AtLeastOne;
    var ws, rest := CutEdges(own, refs, id), EdgesIn(ctx, own, refs[1..], id);
    var first := if RefTarget(own, refs[0]).ctx == ctx then {EdgeOf(refs[0], id)} else {};
    assert WriteSlice(ctx, s, ws[0]).refby == s.refby - first && EdgesIn(ctx, own, refs, id) == first + rest;
    assert (s.refby - first) - rest == s.refby - (first + rest);
  }

  lemma {:induction false} CutEdgesEffect(ctx: string, s: Slice, own: string, refs: seq<Reference>, id: nat)
    ensures WriteAll(ctx, s, CutEdges(own, refs, id)) == s.(refby := s.refby - EdgesIn(ctx, own, refs, id))
    ensures AllTruthful(ctx, s, CutEdges(own, refs, id))
    decreases refs
  {
    if refs == [] {
      assert s.refby - {} == s.refby;
    } else {
      hide CutEdges, EdgesIn, WriteSlice, Truthful;
      CutsFirst(ctx, s, own, refs, id);
      CutEdgesEffect(ctx, WriteSlice(ctx, s, CutEdges(own, refs, id)[0]), own, refs[1..], id);
    }
  }

  lemma {:induction false} AddEdgesEffect(ctx: string, s: Slice, own: string, refs: seq<Reference>, id: nat)
    ensures WriteAll(ctx, s, AddEdges(own, refs, id)) == s.(refby := s.refby + EdgesIn(ctx, own, refs, id))
    ensures AllTruthful(ctx, s, AddEdges(own, refs, id))
    decreases refs
  {
    if refs == [] {
      assert s.refby + {} == s.refby;
    } else {
      var ws := AddEdges(own, refs, id);
      assert ws[1..] == AddEdges(own, refs[1..], id);
      var next := WriteSlice(ctx, s, ws[0]);
      AddEdgesEffect(ctx, next, own, refs[1..], id);
      assert next.refby + EdgesIn(ctx, own, refs[1..], id) == s.refby + EdgesIn(ctx, own, refs, id);
    }
  }

  lemma {:induction false} TruthfulConcat(ctx: string, s: Slice, a: seq<Write>, b: seq<Write>)
    ensures AllTruthful(ctx, s, a + b) <==> AllTruthful(ctx, s, a) && AllTruthful(ctx, WriteAll(ctx, s, a), b)
    decreases a
  {
    hide WriteSlice, Truthful;
    if a == [] {
      assert a + b == b;
    } else {
      assert (a + b)[1..] == a[1..] + b;
      TruthfulConcat(ctx, WriteSlice(ctx, s, a[0]), a[1..], b);
    }
  }

  // ---------------- hard deletes ----------------

  function Gone(doomed: seq<Doomed>, ctx: string): set<Slot> {
    set d | d in doomed && d.q.ctx == ctx :: SlotOf(d)
  }

  function Freed(view: View, doomed: seq<Doomed>, also: set<Slot>, ctx: string): set<nat> {
    set d | d in doomed && d.q.ctx == ctx && Frees(view, d, also) :: d.rec.id
  }

  function CutBy(view: View, d: Doomed, also: set<Slot>, ctx: string): set<Edge> {
    if Frees(view, d, also)
    then EdgesIn(ctx, d.q.ctx, Body(view, d.q.ctx, d.rec.id).value.content.refs, d.rec.id) else {}
  }

  function Cut(view: View, doomed: seq<Doomed>, also: set<Slot>, ctx: string): set<Edge> {
    if doomed == [] then {} else CutBy(view, doomed[0], also, ctx) + Cut(view, doomed[1..], also, ctx)
  }

  function Without(s: Slice, slots: set<Slot>, ids: set<nat>, edges: set<Edge>): Slice {
    s.(versions := s.versions - slots, schemas := s.schemas - ids, refby := s.refby - edges)
  }

  /** The doomed rows say what the versions hold. */
  predicate Named(doomed: seq<Doomed>, s: Slice, ctx: string) {
    forall d | d in doomed && d.q.ctx == ctx && SlotOf(d) in s.versions :: s.versions[SlotOf(d)].id == d.rec.id
  }

  lemma HardDeleteEffect(view: View, d: Doomed, also: set<Slot>, ctx: string, s: Slice)
    requires d.q.ctx == ctx && SlotOf(d) in s.versions ==> s.versions[SlotOf(d)].id == d.rec.id
    ensures WriteAll(ctx, s, HardDelete(view, d, also)) ==
            Without(s, Gone([d], ctx), Freed(view, [d], also, ctx), CutBy(view, d, also, ctx))
    ensures AllTruthful(ctx, s, HardDelete(view, d, also))
  {
    hide StillUsed, EdgesIn;
    var head := DeleteVersion(d.q.ctx, SlotOf(d), d.rec.id);
    var tail := HardDelete(view, d, also)[1..];
    assert HardDelete(view, d, also) == [head] + tail;
    OneWrite(ctx, s, head);
    WriteAllConcat(ctx, s, [head], tail);
    TruthfulConcat(ctx, s, [head], tail);
    var s1 := WriteAll(ctx, s, [head]);
    GoneOne(view, d, also, ctx);
    assert s1 == Without(s, Gone([d], ctx), {}, {});
    if Frees(view, d, also) {
      var refs := Body(view, d.q.ctx, d.rec.id).value.content.refs;
      FreeEffect(d.q.ctx, refs, d.rec.id, ctx, s1);
      assert tail == CutEdges(d.q.ctx, refs, d.rec.id) + [DeleteSchema(d.q.ctx, d.rec.id)];
      WithoutTwice(s, Gone([d], ctx), {}, {}, {}, Freed(view, [d], also, ctx), CutBy(view, d, also, ctx));
    } else {
      assert tail == [];
    }
  }

  lemma GoneOne(view: View, d: Doomed, also: set<Slot>, ctx: string)
    ensures Gone([d], ctx) == if d.q.ctx == ctx then {SlotOf(d)} else {}
    ensures Freed(view, [d], also, ctx) == if d.q.ctx == ctx && Frees(view, d, also) then {d.rec.id} else {}
  {
  }

  lemma FreeEffect(own: string, refs: seq<Reference>, id: nat, ctx: string, s: Slice)
    ensures var ws := CutEdges(own, refs, id) + [DeleteSchema(own, id)];
            && WriteAll(ctx, s, ws) == Without(s, {}, if own == ctx then {id} else {}, EdgesIn(ctx, own, refs, id))
            && AllTruthful(ctx, s, ws)
  {
    hide EdgesIn;
    var cut, last := CutEdges(own, refs, id), DeleteSchema(own, id);
    CutEdgesEffect(ctx, s, own, refs, id);
    WriteAllConcat(ctx, s, cut, [last]);
    TruthfulConcat(ctx, s, cut, [last]);
    OneWrite(ctx, WriteAll(ctx, s, cut), last);
  }

  lemma OneWrite(ctx: string, s: Slice, w: Write)
    ensures WriteAll(ctx, s, [w]) == WriteSlice(ctx, s, w)
    ensures AllTruthful(ctx, s, [w]) == Truthful(s, ctx, w)
  {
    assert [w][1..] == [];
  }

  lemma {:induction false} PurgeEffect(view: View, doomed: seq<Doomed>, also: set<Slot>, ctx: string, s: Slice)
    requires Named(doomed, s, ctx)
    ensures WriteAll(ctx, s, Purge(view, doomed, also)) ==
            Without(s, Gone(doomed, ctx), Freed(view, doomed, also, ctx), Cut(view, doomed, also, ctx))
    ensures AllTruthful(ctx, s, Purge(view, doomed, also))
    decreases doomed
  {
    hide HardDelete, Frees, CutBy, WriteSlice;
    if doomed == [] {
      assert Gone(doomed, ctx) == {} && Freed(view, doomed, also, ctx) == {};
      assert Without(s, {}, {}, {}) == s;
    } else {
      var d, rest := doomed[0], doomed[1..];
      HardDeleteEffect(view, d, also, ctx, s);
      var ws := HardDelete(view, d, also);
      var s1 := WriteAll(ctx, s, ws);
      PurgeEffect(view, rest, also, ctx, s1);
      WriteAllConcat(ctx, s, ws, Purge(view, rest, also));
      TruthfulConcat(ctx, s, ws, Purge(view, rest, also));
      assert doomed == [d] + rest;
      GoneConcat(view, [d], rest, also, ctx);
      WithoutTwice(s, Gone([d], ctx), Freed(view, [d], also, ctx), CutBy(view, d, also, ctx),
                   Gone(rest, ctx), Freed(view, rest, also, ctx), Cut(view, rest, also, ctx));
    }
  }

  lemma GoneConcat(view: View, a: seq<Doomed>, b: seq<Doomed>, also: set<Slot>, ctx: string)
    ensures Gone(a + b, ctx) == Gone(a, ctx) + Gone(b, ctx)
    ensures Freed(view, a + b, also, ctx) == Freed(view, a, also, ctx) + Freed(view, b, also, ctx)
  {
    assert forall d :: d in a + b <==> d in a || d in b;
  }

  lemma WithoutTwice(s: Slice, slots: set<Slot>, ids: set<nat>, edges: set<Edge>, slots': set<Slot>, ids': set<nat>,
                     edges': set<Edge>)
    ensures Without(Without(s, slots, ids, edges), slots', ids', edges') ==
            Without(s, slots + slots', ids + ids', edges + edges')
  {
    assert s.versions - slots - slots' == s.versions - (slots + slots');
    assert s.schemas - ids - ids' == s.schemas - (ids + ids');
    assert s.refby - edges - edges' == s.refby - (edges + edges');
  }

  // ---------------- soft deletes ----------------

  function Hidden(versions: map<Slot, VersionRecord>, q: Qualified, vs: seq<Entry>): map<Slot, VersionRecord>
    decreases vs
  {
    if vs == [] then versions
    else Hidden(versions[Slot(q.subject, vs[0].version) := vs[0].rec.(deleted := true)], q, vs[1..])
  }

  lemma {:induction false} HideEffect(ctx: string, s: Slice, q: Qualified, vs: seq<Entry>)
    ensures WriteAll(ctx, s, HideAll(q, vs)) ==
            if q.ctx != ctx || vs == [] then s else s.(versions := Hidden(s.versions, q, vs), known := true)
    ensures AllTruthful(ctx, s, HideAll(q, vs))
    decreases vs
  {
    if vs != [] {
      var ws := HideAll(q, vs);
      assert ws[1..] == HideAll(q, vs[1..]);
      HideEffect(ctx, WriteSlice(ctx, s, ws[0]), q, vs[1..]);
    }
  }

  /** Hiding versions of a sorted list that is what the rows hold only sets their flags. */
  lemma {:induction false} HiddenAt(versions: map<Slot, VersionRecord>, q: Qualified, vs: seq<Entry>, slot: Slot)
    requires Sorted(vs)
    ensures var after := Hidden(versions, q, vs);
            var hit := if slot.subject == q.subject then Find(vs, slot.version) else None;
            Lookup(after, slot) == if hit.Some? then Some(hit.value.(deleted := true)) else Lookup(versions, slot)
    decreases vs
  {
    if vs != [] {
      HiddenAt(versions[Slot(q.subject, vs[0].version) := vs[0].rec.(deleted := true)], q, vs[1..], slot);
      FindIn(vs, slot.version);
      FindIn(vs[1..], slot.version);
    }
  }

  // ---------------- registering ----------------

  /** The rows a registration puts, on top of what it removed. */
  function Recorded(s: Slice, view: View, q: Qualified, c: Content, version: nat, id: nat): Slice {
    var rec := RecordFor(view, q, id, c);
    s.(schemas := s.schemas[id := rec],
       fingerprints := s.fingerprints[rec.content := id],
       nextId := if id >= NextId(view.snap, q.ctx) then Some(id + 1) else s.nextId,
       versions := s.versions[Slot(q.subject, version) := VersionRecord(id, false, view.now)],
       known := true,
       refby := s.refby + EdgesIn(q.ctx, q.ctx, c.refs, id))
  }

  lemma PutEffect(view: View, q: Qualified, c: Content, version: nat, id: nat, ctx: string, s: Slice)
    ensures AllTruthful(ctx, s, PutWrites(view, q, c, version, id))
    ensures WriteAll(ctx, s, PutWrites(view, q, c, version, id)) ==
            if ctx == q.ctx then Recorded(s, view, q, c, version, id)
            else s.(refby := s.refby + EdgesIn(ctx, q.ctx, c.refs, id))
  {
    hide RecordFor, EdgesIn, AddEdges;
    var a := [PutSchema(q.ctx, id, RecordFor(view, q, id, c), true)];
    var b := if id >= NextId(view.snap, q.ctx) then [SetNextId(q.ctx, id + 1)] else [];
    var p := [PutVersion(q.ctx, Slot(q.subject, version), VersionRecord(id, false, view.now))];
    var e := AddEdges(q.ctx, c.refs, id);
    var s1 := WriteAll(ctx, s, a);
    var s2 := WriteAll(ctx, s1, b);
    var s3 := WriteAll(ctx, s2, p);
    OneWrite(ctx, s, a[0]);
    if b != [] {
      OneWrite(ctx, s1, b[0]);
    }
    OneWrite(ctx, s2, p[0]);
    AddEdgesEffect(ctx, s3, q.ctx, c.refs, id);
    WriteAllConcat(ctx, s, a, b);
    WriteAllConcat(ctx, s, a + b, p);
    WriteAllConcat(ctx, s, a + b + p, e);
    TruthfulConcat(ctx, s, a, b);
    TruthfulConcat(ctx, s, a + b, p);
    TruthfulConcat(ctx, s, a + b + p, e);
  }
}
