/**
 The durable rows of one host container (src/store.rs), grouped by context as
 the keys group them. A batch is a list of writes applied in order.
 */
module Store {
  import opened Wrappers
  import opened RegistryTypes

  /** Everything stored under one context. */
  datatype Slice = Slice(
    schemas: map<nat, SchemaRecord>,
    fingerprints: map<Content, nat>,
    versions: map<Slot, VersionRecord>,
    refby: set<Edge>,
    nextId: Option<nat>,
    known: bool,
    config: map<Scope, Config>,
    mode: map<Scope, Mode>)

  const EMPTY_SLICE := Slice(map[], map[], map[], {}, None, false, map[], map[])

  datatype Rows = Rows(slices: map<string, Slice>, config: Option<Config>, mode: Option<Mode>)

  const EMPTY_ROWS := Rows(map[], None, None)

  function SliceOf(rows: Rows, ctx: string): Slice {
    if ctx in rows.slices then rows.slices[ctx] else EMPTY_SLICE
  }

  /** What one write does to the slice of `ctx`. */
  function WriteSlice(ctx: string, s: Slice, w: Write): Slice {
    if w.PutConfig? || w.DeleteConfig? || w.PutMode? || w.DeleteMode? then
      if !Within(w.scope, ctx) then s
      else if w.PutConfig? then s.(config := s.config[w.scope := w.config])
      else if w.DeleteConfig? then s.(config := s.config - {w.scope})
      else if w.PutMode? then s.(mode := s.mode[w.scope := w.mode])
      else s.(mode := s.mode - {w.scope})
    else if w.ctx != ctx then s
    else
      match w
      case PutSchema(_, id, rec, index) =>
        s.(schemas := s.schemas[id := rec],
           fingerprints := if index then s.fingerprints[rec.content := id] else s.fingerprints)
      case PutVersion(_, slot, rec) => s.(versions := s.versions[slot := rec], known := true)
      case DeleteVersion(_, slot, _) => s.(versions := s.versions - {slot})
      case DeleteSchema(_, id) => s.(schemas := s.schemas - {id})
      case PutRefby(_, slot, id) => s.(refby := s.refby + {Edge(slot, id)})
      case DeleteRefby(_, slot, id) => s.(refby := s.refby - {Edge(slot, id)})
      case SetNextId(_, next) => s.(nextId := Some(next))
      case DeleteContext(_) => s.(known := false)
  }

  function WriteAll(ctx: string, s: Slice, ws: seq<Write>): Slice
    decreases ws
  {
    if ws == [] then s else WriteAll(ctx, WriteSlice(ctx, s, ws[0]), ws[1..])
  }

  /** The context whose rows a write touches; the registry-wide settings belong to none. */
  function ContextOf(w: Write): Option<string> {
    if w.PutConfig? || w.DeleteConfig? || w.PutMode? || w.DeleteMode? then
      if w.scope.Global? then None else Some(w.scope.ctx)
    else Some(w.ctx)
  }

  function WriteRow(rows: Rows, w: Write): Rows {
    var ctx := ContextOf(w);
    if ctx.Some? then
      rows.(slices := rows.slices[ctx.value := WriteSlice(ctx.value, SliceOf(rows, ctx.value), w)])
    else
      match w
      case PutConfig(_, c) => rows.(config := Some(c))
      case DeleteConfig(_) => rows.(config := None)
      case PutMode(_, m) => rows.(mode := Some(m))
      case DeleteMode(_) => rows.(mode := None)
  }

  /** One batch: all of its writes, in order. */
  function WriteBatch(rows: Rows, ws: seq<Write>): Rows
    decreases ws
  {
    if ws == [] then rows else WriteBatch(WriteRow(rows, ws[0]), ws[1..])
  }

  lemma WriteRowSlice(rows: Rows, w: Write, ctx: string)
    ensures SliceOf(WriteRow(rows, w), ctx) == WriteSlice(ctx, SliceOf(rows, ctx), w)
  {
  }

  /** A batch acts on each context by itself. */
  lemma {:induction false} BatchBySlice(rows: Rows, ws: seq<Write>, ctx: string)
    ensures SliceOf(WriteBatch(rows, ws), ctx) == WriteAll(ctx, SliceOf(rows, ctx), ws)
    decreases ws
  {
    if ws != [] {
      hide WriteRow, WriteSlice, SliceOf;
      WriteRowSlice(rows, ws[0], ctx);
      BatchBySlice(WriteRow(rows, ws[0]), ws[1..], ctx);
    }
  }

  lemma {:induction false} WriteAllConcat(ctx: string, s: Slice, a: seq<Write>, b: seq<Write>)
    ensures WriteAll(ctx, s, a + b) == WriteAll(ctx, WriteAll(ctx, s, a), b)
    decreases a
  {
    hide WriteSlice;
    if a == [] {
      assert a + b == b;
    } else {
      assert (a + b)[1..] == a[1..] + b;
      WriteAllConcat(ctx, WriteSlice(ctx, s, a[0]), a[1..], b);
    }
  }

  // ---------------- what the rows say ----------------

  /** The slots that hold an id. */
  function Holders(s: Slice, id: nat): set<Slot> {
    set slot | slot in s.versions && s.versions[slot].id == id
  }

  predicate Held(s: Slice, id: nat) {
    exists slot :: slot in s.versions && s.versions[slot].id == id
  }

  function Referrers(s: Slice, slot: Slot): set<nat> {
    set e | e in s.refby && e.slot == slot :: e.id
  }

  function NextIdOf(s: Slice): nat {
    OrElse(s.nextId, 1)
  }
}
