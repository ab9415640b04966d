/**
 The in-memory index (src/snapshot.rs): derived maps that each write updates
 in place of being rebuilt. Version lists are sorted vectors, as their order
 is observable; usages and referrers are sorted vectors used as sets.
 */
module Snapshot {
  import opened Wrappers
  import opened RegistryTypes

  datatype Entry = Entry(version: nat, rec: VersionRecord)

  // ---------------- version lists ----------------

  predicate Sorted(vs: seq<Entry>) {
    forall i, j | 0 <= i < j < |vs| :: vs[i].version < vs[j].version
  }

  function Find(vs: seq<Entry>, v: nat): Option<VersionRecord> {
    if vs == [] then None
    else if vs[0].version == v then Some(vs[0].rec)
    else Find(vs[1..], v)
  }

  /** `small_insert`: overwrite, or insert at the place that keeps the list sorted. */
  function Insert(vs: seq<Entry>, v: nat, rec: VersionRecord): seq<Entry> {
    if vs == [] || v < vs[0].version then [Entry(v, rec)] + vs
    else if vs[0].version == v then [Entry(v, rec)] + vs[1..]
    else [vs[0]] + Insert(vs[1..], v, rec)
  }

  /** `small_remove`. */
  function Remove(vs: seq<Entry>, v: nat): seq<Entry> {
    if vs == [] then []
    else if vs[0].version == v then vs[1..]
    else [vs[0]] + Remove(vs[1..], v)
  }

  lemma {:induction false} FindIn(vs: seq<Entry>, v: nat)
    requires Sorted(vs)
    ensures Find(vs, v).Some? <==> exists i :: 0 <= i < |vs| && vs[i].version == v
    ensures forall i | 0 <= i < |vs| && vs[i].version == v :: Find(vs, v) == Some(vs[i].rec)
  {
    if vs != [] {
      FindIn(vs[1..], v);
      if vs[0].version != v {
        forall i | 0 <= i < |vs| && vs[i].version == v
          ensures Find(vs, v) == Some(vs[i].rec)
        {
          assert vs[1..][i - 1] == vs[i];
        }
        if i :| 0 <= i < |vs[1..]| && vs[1..][i].version == v {
          assert vs[i + 1].version == v;
        }
      }
    }
  }

  lemma {:induction false} InsertFinds(vs: seq<Entry>, v: nat, rec: VersionRecord, w: nat)
    requires Sorted(vs)
    ensures Find(Insert(vs, v, rec), w) == if w == v then Some(rec) else Find(vs, w)
  {
    if vs == [] || v < vs[0].version {
      assert ([Entry(v, rec)] + vs)[1..] == vs;
    } else if vs[0].version == v {
      assert ([Entry(v, rec)] + vs[1..])[1..] == vs[1..];
    } else {
      InsertFinds(vs[1..], v, rec, w);
      assert ([vs[0]] + Insert(vs[1..], v, rec))[1..] == Insert(vs[1..], v, rec);
    }
  }

  lemma {:induction false} InsertSorts(vs: seq<Entry>, v: nat, rec: VersionRecord)
    requires Sorted(vs)
    ensures Sorted(Insert(vs, v, rec)) && Insert(vs, v, rec) != []
    ensures forall i | 0 <= i < |Insert(vs, v, rec)| ::
              Insert(vs, v, rec)[i].version == v || Insert(vs, v, rec)[i] in vs
  {
    if vs != [] && vs[0].version < v {
      InsertSorts(vs[1..], v, rec);
      assert forall e | e in vs[1..] :: vs[0].version < e.version;
    }
  }

  lemma {:induction false} RemoveFinds(vs: seq<Entry>, v: nat, w: nat)
    requires Sorted(vs)
    ensures Find(Remove(vs, v), w) == if w == v then None else Find(vs, w)
  {
    if vs != [] {
      if vs[0].version == v {
        FindIn(vs[1..], v);
      } else {
        RemoveFinds(vs[1..], v, w);
        assert ([vs[0]] + Remove(vs[1..], v))[1..] == Remove(vs[1..], v);
      }
    }
  }

  lemma {:induction false} RemoveSorts(vs: seq<Entry>, v: nat)
    requires Sorted(vs)
    ensures Sorted(Remove(vs, v)) && forall e | e in Remove(vs, v) :: e in vs
  {
    if vs != [] && vs[0].version != v {
      RemoveSorts(vs[1..], v);
      assert forall e | e in vs[1..] :: e in vs && vs[0].version < e.version;
      var rest := Remove(vs[1..], v);
      assert forall i | 0 <= i < |rest| :: rest[i] in vs[1..];
    }
  }

  lemma EmptyIff(vs: seq<Entry>)
    ensures vs == [] <==> forall v :: Find(vs, v).None?
  {
    if vs != [] {
      assert Find(vs, vs[0].version).Some?;
    }
  }

  // ---------------- the index ----------------

  datatype CtxState = CtxState(
    subjects: map<string, seq<Entry>>,
    usages: map<nat, set<Slot>>,
    fingerprints: map<Content, nat>,
    refby: map<Slot, set<nat>>,
    nextId: Option<nat>)

  const EMPTY_CTX := CtxState(map[], map[], map[], map[], None)

  datatype Snap = Snap(
    ctxs: map<string, CtxState>,
    known: set<string>,
    config: map<Scope, Config>,
    mode: map<Scope, Mode>)

  const EMPTY_SNAP := Snap(map[], {}, map[], map[])

  function Ctx(snap: Snap, ctx: string): CtxState {
    if ctx in snap.ctxs then snap.ctxs[ctx] else EMPTY_CTX
  }

  function VersionsOf(c: CtxState, subject: string): seq<Entry> {
    if subject in c.subjects then c.subjects[subject] else []
  }

  function UsagesOf(c: CtxState, id: nat): set<Slot> {
    if id in c.usages then c.usages[id] else {}
  }

  function ReferrersOf(c: CtxState, slot: Slot): set<nat> {
    if slot in c.refby then c.refby[slot] else {}
  }

  /** Replacing a row takes its use away from the id the row held before, if that was another one. */
  function PutVersionIn(c: CtxState, slot: Slot, rec: VersionRecord): CtxState {
    var vs := VersionsOf(c, slot.subject);
    var prev := Find(vs, slot.version);
    var usages :=
      if prev.Some? && prev.value.id != rec.id && prev.value.id in c.usages
      then c.usages[prev.value.id := c.usages[prev.value.id] - {slot}] else c.usages;
    c.(subjects := c.subjects[slot.subject := Insert(vs, slot.version, rec)],
       usages := usages[rec.id := (if rec.id in usages then usages[rec.id] else {}) + {slot}])
  }

  /** `id` is what the caller says the version holds. */
  function DeleteVersionIn(c: CtxState, slot: Slot, id: nat): CtxState {
    var subjects :=
      if slot.subject !in c.subjects then c.subjects
      else
        var vs := Remove(c.subjects[slot.subject], slot.version);
        if vs == [] then c.subjects - {slot.subject} else c.subjects[slot.subject := vs];
    var usages :=
      if id !in c.usages then c.usages
      else
        var left := c.usages[id] - {slot};
        if left == {} then c.usages - {id} else c.usages[id := left];
    c.(subjects := subjects, usages := usages)
  }

  function PutRefbyIn(c: CtxState, slot: Slot, id: nat): CtxState {
    c.(refby := c.refby[slot := ReferrersOf(c, slot) + {id}])
  }

  function DeleteRefbyIn(c: CtxState, slot: Slot, id: nat): CtxState {
    if slot !in c.refby then c
    else
      var left := c.refby[slot] - {id};
      c.(refby := if left == {} then c.refby - {slot} else c.refby[slot := left])
  }

  function ApplyIn(c: CtxState, w: Write): CtxState {
    match w
    case PutSchema(_, id, rec, index) => if index then c.(fingerprints := c.fingerprints[rec.content := id]) else c
    case PutVersion(_, slot, rec) => PutVersionIn(c, slot, rec)
    case DeleteVersion(_, slot, id) => DeleteVersionIn(c, slot, id)
    case PutRefby(_, slot, id) => PutRefbyIn(c, slot, id)
    case DeleteRefby(_, slot, id) => DeleteRefbyIn(c, slot, id)
    case SetNextId(_, next) => c.(nextId := Some(next))
    case _ => c
  }

  predicate Settings(w: Write) {
    w.PutConfig? || w.DeleteConfig? || w.PutMode? || w.DeleteMode?
  }

  /** `Snapshot::apply`. */
  function Apply(snap: Snap, w: Write): Snap {
    if w.PutConfig? then snap.(config := snap.config[w.scope := w.config])
    else if w.DeleteConfig? then snap.(config := snap.config - {w.scope})
    else if w.PutMode? then snap.(mode := snap.mode[w.scope := w.mode])
    else if w.DeleteMode? then snap.(mode := snap.mode - {w.scope})
    else if w.DeleteContext? then snap.(known := snap.known - {w.ctx})
    else if w.DeleteSchema? || (w.PutSchema? && !w.index) then snap
    else
      snap.(ctxs := snap.ctxs[w.ctx := ApplyIn(Ctx(snap, w.ctx), w)],
            known := if w.PutVersion? then snap.known + {w.ctx} else snap.known)
  }

  function ApplyAll(snap: Snap, ws: seq<Write>): Snap
    decreases ws
  {
    if ws == [] then snap else ApplyAll(Apply(snap, ws[0]), ws[1..])
  }

  lemma {:induction false} ApplyAllConcat(snap: Snap, a: seq<Write>, b: seq<Write>)
    ensures ApplyAll(snap, a + b) == ApplyAll(ApplyAll(snap, a), b)
    decreases a
  {
    hide Apply;
    if a == [] {
      assert a + b == b;
    } else {
      assert (a + b)[1..] == a[1..] + b;
      ApplyAllConcat(Apply(snap, a[0]), a[1..], b);
    }
  }

  // ---------------- queries ----------------

  function ListVersions(snap: Snap, q: Qualified): seq<Entry> {
    VersionsOf(Ctx(snap, q.ctx), q.subject)
  }

  function GetVersion(snap: Snap, ctx: string, slot: Slot): Option<VersionRecord> {
    Find(VersionsOf(Ctx(snap, ctx), slot.subject), slot.version)
  }

  function SubjectNames(snap: Snap, ctx: string): set<string> {
    Ctx(snap, ctx).subjects.Keys
  }

  function IdUsages(snap: Snap, ctx: string, id: nat): set<Slot> {
    UsagesOf(Ctx(snap, ctx), id)
  }

  function ReferencedBy(snap: Snap, ctx: string, slot: Slot): set<nat> {
    ReferrersOf(Ctx(snap, ctx), slot)
  }

  function IdForContent(snap: Snap, ctx: string, content: Content): Option<nat> {
    Lookup(Ctx(snap, ctx).fingerprints, content)
  }

  function NextId(snap: Snap, ctx: string): nat {
    OrElse(Ctx(snap, ctx).nextId, 1)
  }

  function Contexts(snap: Snap): set<string> {
    snap.known + {DEFAULT_CONTEXT}
  }

  function GetConfig(snap: Snap, scope: Scope): Option<Config> {
    Lookup(snap.config, scope)
  }

  function GetMode(snap: Snap, scope: Scope): Option<Mode> {
    Lookup(snap.mode, scope)
  }

  ghost predicate SortedLists(snap: Snap) {
    forall q: Qualified :: Sorted(ListVersions(snap, q))
  }

  lemma ApplyKeepsSorted(snap: Snap, w: Write)
    requires SortedLists(snap)
    ensures SortedLists(Apply(snap, w))
  {
    forall q: Qualified
      ensures Sorted(ListVersions(Apply(snap, w), q))
    {
      assert Sorted(ListVersions(snap, q));
      if w.PutVersion? {
        InsertSorts(ListVersions(snap, Qualified(w.ctx, w.slot.subject)), w.slot.version, w.version);
      } else if w.DeleteVersion? {
        RemoveSorts(ListVersions(snap, Qualified(w.ctx, w.slot.subject)), w.slot.version);
      }
    }
  }
}
