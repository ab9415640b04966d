/**
 The index as it runs (src/snapshot.rs): sorted vectors searched by bisection,
 and an object whose maps one write after the other updates in place. Each
 method is proved to compute the function of the same write on values.
 */
module Index {
  import opened Wrappers
  import opened RegistryTypes
  import opened Snapshot

  // ---------------- sorted vectors ----------------

  /** Bisection: where `v` is, or where it would go. */
  method Search(vs: seq<Entry>, v: nat) returns (found: bool, i: nat)
    requires Sorted(vs)
    ensures i <= |vs| && (forall j | 0 <= j < i :: vs[j].version < v)
    ensures found ==> i < |vs| && vs[i].version == v
    ensures !found ==> forall j | i <= j < |vs| :: v < vs[j].version
  {
    var low, high := 0, |vs|;
    while low < high
      invariant 0 <= low <= high <= |vs|
      invariant forall j | 0 <= j < low :: vs[j].version < v
      invariant forall j | high <= j < |vs| :: v < vs[j].version
    {
      var mid := low + (high - low) / 2;
      if vs[mid].version == v {
        return true, mid;
      } else if vs[mid].version < v {
        low := mid + 1;
      } else {
        high := mid;
      }
    }
    return false, low;
  }

  lemma {:induction false} Overwrites(vs: seq<Entry>, v: nat, rec: VersionRecord, i: nat)
    requires i < |vs| && vs[i].version == v && forall j | 0 <= j < i :: vs[j].version < v
    ensures Insert(vs, v, rec) == vs[i := Entry(v, rec)]
  {
    if i > 0 {
      Overwrites(vs[1..], v, rec, i - 1);
      assert vs[i := Entry(v, rec)] == [vs[0]] + vs[1..][i - 1 := Entry(v, rec)];
    }
  }

  lemma {:induction false} GoesBetween(vs: seq<Entry>, v: nat, rec: VersionRecord, i: nat)
    requires i <= |vs| && (forall j | 0 <= j < i :: vs[j].version < v) && (i < |vs| ==> v < vs[i].version)
    ensures Insert(vs, v, rec) == vs[..i] + [Entry(v, rec)] + vs[i..]
  {
    if i > 0 {
      GoesBetween(vs[1..], v, rec, i - 1);
      assert vs[..i] == [vs[0]] + vs[1..][..i - 1];
      assert vs[i..] == vs[1..][i - 1..];
    }
  }

  lemma {:induction false} RemoveAt(vs: seq<Entry>, v: nat, i: nat)
    requires i < |vs| && vs[i].version == v && forall j | 0 <= j < i :: vs[j].version < v
    ensures Remove(vs, v) == vs[..i] + vs[i + 1..]
  {
    if i > 0 {
      RemoveAt(vs[1..], v, i - 1);
      assert vs[..i] == [vs[0]] + vs[1..][..i - 1];
      assert vs[i + 1..] == vs[1..][i..];
    }
  }

  lemma {:induction false} NotThere(vs: seq<Entry>, v: nat)
    requires forall j | 0 <= j < |vs| :: vs[j].version != v
    ensures Remove(vs, v) == vs
  {
    if vs != [] {
      NotThere(vs[1..], v);
    }
  }

  method SmallInsert(vs: seq<Entry>, v: nat, rec: VersionRecord) returns (out: seq<Entry>)
    requires Sorted(vs)
    ensures out == Insert(vs, v, rec)
  {
    var found, i := Search(vs, v);
    if found {
      Overwrites(vs, v, rec, i);
      out := vs[i := Entry(v, rec)];
    } else {
      GoesBetween(vs, v, rec, i);
      out := vs[..i] + [Entry(v, rec)] + vs[i..];
    }
  }

  method SmallRemove(vs: seq<Entry>, v: nat) returns (out: seq<Entry>)
    requires Sorted(vs)
    ensures out == Remove(vs, v)
  {
    var found, i := Search(vs, v);
    if found {
      RemoveAt(vs, v, i);
      out := vs[..i] + vs[i + 1..];
    } else {
      NotThere(vs, v);
      out := vs;
    }
  }

  /** `find` over a version list. */
  method Position(vs: seq<Entry>, v: nat) returns (rec: Option<VersionRecord>)
    ensures rec == Find(vs, v)
  {
    var i := 0;
    while i < |vs|
      invariant 0 <= i <= |vs|
      invariant Find(vs, v) == Find(vs[i..], v)
    {
      if vs[i].version == v {
        return Some(vs[i].rec);
      }
      assert vs[i..][1..] == vs[i + 1..];
      i := i + 1;
    }
    assert vs[i..] == [];
    rec := None;
  }

  method PutVersionInto(c: CtxState, slot: Slot, rec: VersionRecord) returns (out: CtxState)
    requires Sorted(VersionsOf(c, slot.subject))
    ensures out == PutVersionIn(c, slot, rec)
  {
    var vs := if slot.subject in c.subjects then c.subjects[slot.subject] else [];
    // The row that was there may have held another id, which then has one use less.
    var prev := Position(vs, slot.version);
    var usages := c.usages;
    if prev.Some? && prev.value.id != rec.id && prev.value.id in usages {
      usages := usages[prev.value.id := usages[prev.value.id] - {slot}];
    }
    var list := SmallInsert(vs, slot.version, rec);
    var users := (if rec.id in usages then usages[rec.id] else {}) + {slot};
    out := c.(subjects := c.subjects[slot.subject := list], usages := usages[rec.id := users]);
  }

  method DeleteVersionFrom(c: CtxState, slot: Slot, id: nat) returns (out: CtxState)
    requires Sorted(VersionsOf(c, slot.subject))
    ensures out == DeleteVersionIn(c, slot, id)
  {
    var subjects, usages := c.subjects, c.usages;
    if slot.subject in subjects {
      var vs := SmallRemove(subjects[slot.subject], slot.version);
      subjects := if vs == [] then subjects - {slot.subject} else subjects[slot.subject := vs];
    }
    if id in usages {
      var left := usages[id] - {slot};
      usages := if left == {} then usages - {id} else usages[id := left];
    }
    out := c.(subjects := subjects, usages := usages);
  }

  // ---------------- the index ----------------

  class SnapshotObject {
    var ctxs: map<string, CtxState>
    var known: set<string>
    var config: map<Scope, Config>
    var mode: map<Scope, Mode>

    ghost function Value(): Snap
      reads this
    {
      Snap(ctxs, known, config, mode)
    }

    constructor ()
      ensures Value() == EMPTY_SNAP
    {
      ctxs, known, config, mode := map[], {}, map[], map[];
    }

    /** A copy to work on, as a publish makes one. */
    constructor Copy(other: SnapshotObject)
      ensures Value() == other.Value()
    {
      ctxs, known, config, mode := other.ctxs, other.known, other.config, other.mode;
    }

    /** The state of a context, default when it has none yet. */
    method CtxMut(ctx: string) returns (c: CtxState)
      modifies this`ctxs
      ensures c == Ctx(old(Value()), ctx) && ctxs == old(ctxs)[ctx := c]
    {
      if ctx !in ctxs {
        ctxs := ctxs[ctx := EMPTY_CTX];
      }
      c := ctxs[ctx];
    }

    method PutVersion(ctx: string, slot: Slot, rec: VersionRecord)
      requires Sorted(ListVersions(Value(), Qualified(ctx, slot.subject)))
      modifies this
      ensures Value() == Apply(old(Value()), Write.PutVersion(ctx, slot, rec))
    {
      hide PutVersionIn;
      known := known + {ctx};
      var c := CtxMut(ctx);
      c := PutVersionInto(c, slot, rec);
      ctxs := ctxs[ctx := c];
    }

    method DeleteVersion(ctx: string, slot: Slot, id: nat)
      requires Sorted(ListVersions(Value(), Qualified(ctx, slot.subject)))
      modifies this
      ensures Value() == Apply(old(Value()), Write.DeleteVersion(ctx, slot, id))
    {
      hide DeleteVersionIn;
      var c := CtxMut(ctx);
      c := DeleteVersionFrom(c, slot, id);
      ctxs := ctxs[ctx := c];
    }

    /** Settings, and what only the list of contexts knows. */
    method ApplySetting(w: Write)
      requires Settings(w) || w.DeleteContext? || w.DeleteSchema?
      modifies this`config, this`mode, this`known
      ensures Value() == Apply(old(Value()), w)
    {
      match w
      case PutConfig(scope, rec) => config := config[scope := rec];
      case DeleteConfig(scope) => config := config - {scope};
      case PutMode(scope, m) => mode := mode[scope := m];
      case DeleteMode(scope) => mode := mode - {scope};
      case DeleteContext(ctx) => known := known - {ctx};
      case DeleteSchema(_, _) =>
    }

    method ApplyReference(w: Write)
      requires w.PutRefby? || w.DeleteRefby?
      modifies this`ctxs
      ensures Value() == Apply(old(Value()), w)
    {
      var c := CtxMut(w.ctx);
      if w.PutRefby? {
        ctxs := ctxs[w.ctx := c.(refby := c.refby[w.slot := (if w.slot in c.refby then c.refby[w.slot] else {}) +
                                                  {w.id}])];
      } else if w.slot in c.refby {
        var left := c.refby[w.slot] - {w.id};
        ctxs := ctxs[w.ctx := c.(refby := if left == {} then c.refby - {w.slot} else c.refby[w.slot := left])];
      }
    }

    /** One write, in place. */
    method ApplyWrite(w: Write)
      requires SortedLists(Value())
      modifies this
      ensures Value() == Apply(old(Value()), w) && SortedLists(Value())
    {
      ApplyKeepsSorted(Value(), w);
      if w.PutVersion? {
        PutVersion(w.ctx, w.slot, w.version);
      } else if w.DeleteVersion? {
        DeleteVersion(w.ctx, w.slot, w.id);
      } else if w.PutRefby? || w.DeleteRefby? {
        ApplyReference(w);
      } else if w.SetNextId? {
        var c := CtxMut(w.ctx);
        ctxs := ctxs[w.ctx := c.(nextId := Some(w.next))];
      } else if w.PutSchema? {
        if w.index {
          var c := CtxMut(w.ctx);
          ctxs := ctxs[w.ctx := c.(fingerprints := c.fingerprints[w.rec.content := w.id])];
        }
      } else {
        ApplySetting(w);
      }
    }
  }

  /** Publishing: copy what readers see, apply the batch to the copy, hand it out. */
  method Publish(current: SnapshotObject, ws: seq<Write>) returns (next: SnapshotObject)
    requires SortedLists(current.Value())
    ensures fresh(next) && next.Value() == ApplyAll(current.Value(), ws) && SortedLists(next.Value())
  {
    next := new SnapshotObject.Copy(current);
    var i := 0;
    while i < |ws|
      invariant 0 <= i <= |ws| && fresh(next) && SortedLists(next.Value())
      invariant ApplyAll(next.Value(), ws[i..]) == ApplyAll(current.Value(), ws)
    {
      assert ws[i..][1..] == ws[i + 1..];
      next.ApplyWrite(ws[i]);
      i := i + 1;
    }
  }
}
