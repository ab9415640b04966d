/**
 Rebuilding the index from the rows (`load_snapshot`, src/store.rs): one scan
 per table, in any order within a table, and the index it leaves answers every
 query as the rows do.
 */
module Loading {
  import opened Wrappers
  import opened RegistryTypes
  import opened Store
  import opened Snapshot
  import opened Agreement
  import opened Index
  import opened Verbs
  import opened Registry

  // ---------------- rows as puts ----------------

  function ConfigAt(rows: Rows, scope: Scope): Option<Config> {
    if scope.Global? then rows.config else Lookup(SliceOf(rows, scope.ctx).config, scope)
  }

  function ModeAt(rows: Rows, scope: Scope): Option<Mode> {
    if scope.Global? then rows.mode else Lookup(SliceOf(rows, scope.ctx).mode, scope)
  }

  /** The put that a scan makes of a row; a body is not read, only its fingerprint. */
  predicate IsRow(rows: Rows, w: Write) {
    match w
    case PutVersion(ctx, slot, rec) => Lookup(SliceOf(rows, ctx).versions, slot) == Some(rec)
    case PutSchema(ctx, id, rec, index) => index && Lookup(SliceOf(rows, ctx).fingerprints, rec.content) == Some(id)
    case PutRefby(ctx, slot, id) => Edge(slot, id) in SliceOf(rows, ctx).refby
    case SetNextId(ctx, next) => SliceOf(rows, ctx).nextId == Some(next)
    case PutConfig(scope, c) => ConfigAt(rows, scope) == Some(c)
    case PutMode(scope, m) => ModeAt(rows, scope) == Some(m)
    case _ => false
  }


  ghost predicate Below(done: Rows, rows: Rows) {
    && (done.config.Some? ==> done.config == rows.config) && (done.mode.Some? ==> done.mode == rows.mode)
    && forall ctx: string :: SliceBelow(SliceOf(done, ctx), SliceOf(rows, ctx), ctx)
  }

  ghost predicate SliceBelow(a: Slice, b: Slice, ctx: string) {
    && (forall slot | slot in a.versions :: slot in b.versions && a.versions[slot] == b.versions[slot])
    && (forall c | c in a.fingerprints :: c in b.fingerprints && a.fingerprints[c] == b.fingerprints[c])
    && a.refby <= b.refby && (a.nextId.Some? ==> a.nextId == b.nextId)
    && (forall scope | scope in a.config :: Within(scope,
                                                   ctx) && scope in b.config && a.config[scope] == b.config[scope])
    && (forall scope | scope in a.mode :: Within(scope, ctx) && scope in b.mode && a.mode[scope] == b.mode[scope])
  }

  lemma PutStaysBelow(done: Rows, rows: Rows, w: Write)
    requires Below(done, rows) && IsRow(rows, w)
    ensures Below(WriteRow(done, w), rows)
  {
    forall ctx: string
      ensures SliceBelow(SliceOf(WriteRow(done, w), ctx), SliceOf(rows, ctx), ctx)
    {
      WriteRowSlice(done, w, ctx);
      assert SliceBelow(SliceOf(done, ctx), SliceOf(rows, ctx), ctx);
    }
  }

  lemma PutStays(done: Rows, rows: Rows, w: Write, other: Write)
    requires Below(done, rows) && IsRow(rows, w) && IsRow(rows, other)
    ensures IsRow(WriteRow(done, w), w) && (IsRow(done, other) ==> IsRow(WriteRow(done, w), other))
  {
    hide Below;
  }

  /** After its puts, whatever their order, the rows read so far are there and nothing else. */
  ghost predicate Tracks(snap: Snap, done: Rows, rows: Rows, ws: seq<Write>) {
    Represents(snap, done) && Below(done, rows) && forall w | w in ws :: IsRow(rows, w) && IsRow(done, w)
  }

  lemma PutTracks(snap: Snap, done: Rows, rows: Rows, ws: seq<Write>, w: Write)
    requires Tracks(snap, done, rows, ws) && IsRow(rows, w)
    ensures SortedLists(snap) && Tracks(Apply(snap, w), WriteRow(done, w), rows, ws + [w])
  {
    hide Apply, WriteRow, IsRow, Below, Represents;
    NoDeletes(rows, w);
    RowAgrees(snap, done, w);
    RepresentsSorted(snap, done);
    PutStaysBelow(done, rows, w);
    forall other | other in ws + [w]
      ensures IsRow(rows, other) && IsRow(WriteRow(done, w), other)
    {
      PutStays(done, rows, w, other);
    }
  }

  lemma NoDeletes(rows: Rows, w: Write)
    requires IsRow(rows, w)
    ensures !w.DeleteVersion?
  {
  }

  lemma RepresentsSorted(snap: Snap, rows: Rows)
    requires Represents(snap, rows)
    ensures SortedLists(snap)
  {
    forall q: Qualified
      ensures Sorted(ListVersions(snap, q))
    {
      assert RepresentsOn(snap, SliceOf(rows, q.ctx), q.ctx);
      assert Sorted(VersionsOf(Ctx(snap, q.ctx), q.subject));
    }
  }

  lemma RowAgrees(snap: Snap, rows: Rows, w: Write)
    requires Represents(snap, rows) && !w.DeleteVersion?
    ensures Represents(Apply(snap, w), WriteRow(rows, w))
  {
    hide Represents, Apply, WriteRow;
    assert [w][1..] == [];
    forall ctx: string
      ensures AllTruthful(ctx, SliceOf(rows, ctx), [w])
    {
    }
    PublishAgrees(snap, rows, [w]);
    assert ApplyAll(snap, [w]) == ApplyAll(Apply(snap, w), []);
    assert WriteBatch(rows, [w]) == WriteBatch(WriteRow(rows, w), []);
  }

  // ---------------- one scan per table ----------------

  class Loader {
    const rows: Rows
    const snap: SnapshotObject
    ghost var done: Rows
    ghost var read: seq<Write>

    ghost predicate Valid()
      reads this, snap
    {
      Tracks(snap.Value(), done, rows, read)
    }

    constructor (rows: Rows)
      ensures this.rows == rows && fresh(snap) && Valid()
    {
      this.rows := rows;
      snap := new SnapshotObject();
      done, read := EMPTY_ROWS, [];
      EmptyIsGood();
    }

    /** One row, read. */
    method Put(w: Write)
      requires Valid() && IsRow(rows, w)
      modifies this, snap
      ensures Valid() && read == old(read) + [w]
    {
      PutTracks(snap.Value(), done, rows, read, w);
      snap.ApplyWrite(w);
      done, read := WriteRow(done, w), read + [w];
    }

    method ScanVersions()
      requires Valid()
      modifies this, snap
      ensures Valid() && old(read) <= read
      ensures forall ctx: string, slot | slot in SliceOf(rows, ctx).versions ::
                PutVersion(ctx, slot, SliceOf(rows, ctx).versions[slot]) in read
    {
      hide Tracks;
      var left := set ctx, slot | ctx in rows.slices && slot in rows.slices[ctx].versions :: (ctx, slot);
      while left != {}
        invariant Valid() && old(read) <= read
        invariant forall x | x in left :: x.1 in SliceOf(rows, x.0).versions
        invariant forall ctx: string, slot | slot in SliceOf(rows, ctx).versions ::
                    (ctx, slot) in left || PutVersion(ctx, slot, SliceOf(rows, ctx).versions[slot]) in read
        decreases left
      {
        var x :| x in left;
        Put(PutVersion(x.0, x.1, SliceOf(rows, x.0).versions[x.1]));
        left := left - {x};
      }
    }

    method ScanFingerprints()
      requires Valid()
      modifies this, snap
      ensures Valid() && old(read) <= read
      ensures forall ctx: string, c | c in SliceOf(rows, ctx).fingerprints ::
                FingerprintRow(ctx, c, SliceOf(rows, ctx).fingerprints[c]) in read
    {
      hide Tracks;
      var left := set ctx, c | ctx in rows.slices && c in rows.slices[ctx].fingerprints :: (ctx, c);
      while left != {}
        invariant Valid() && old(read) <= read
        invariant forall x | x in left :: x.1 in SliceOf(rows, x.0).fingerprints
        invariant forall ctx: string, c | c in SliceOf(rows, ctx).fingerprints ::
                    (ctx, c) in left || FingerprintRow(ctx, c, SliceOf(rows, ctx).fingerprints[c]) in read
        decreases left
      {
        var x :| x in left;
        Put(FingerprintRow(x.0, x.1, SliceOf(rows, x.0).fingerprints[x.1]));
        left := left - {x};
      }
    }

    method ScanRefby()
      requires Valid()
      modifies this, snap
      ensures Valid() && old(read) <= read
      ensures forall ctx: string, e | e in SliceOf(rows, ctx).refby :: PutRefby(ctx, e.slot, e.id) in read
    {
      hide Tracks;
      var left := set ctx, e | ctx in rows.slices && e in rows.slices[ctx].refby :: (ctx, e);
      while left != {}
        invariant Valid() && old(read) <= read
        invariant forall x | x in left :: x.1 in SliceOf(rows, x.0).refby
        invariant forall ctx: string, e | e in SliceOf(rows, ctx).refby ::
                    (ctx, e) in left || PutRefby(ctx, e.slot, e.id) in read
        decreases left
      {
        var x :| x in left;
        assert Edge(x.1.slot, x.1.id) == x.1;
        Put(PutRefby(x.0, x.1.slot, x.1.id));
        left := left - {x};
      }
    }

    method ScanConfig()
      requires Valid()
      modifies this, snap
      ensures Valid() && old(read) <= read
      ensures forall scope: Scope | ConfigAt(rows, scope).Some? :: PutConfig(scope, ConfigAt(rows, scope).value) in read
    {
      hide Tracks;
      var left := set ctx, scope | ctx in rows.slices && scope in rows.slices[ctx].config
        && Within(scope, ctx) :: scope;
      if rows.config.Some? {
        Put(PutConfig(Global, rows.config.value));
      }
      while left != {}
        invariant Valid() && old(read) <= read
        invariant forall scope | scope in left :: ConfigAt(rows, scope).Some?
        invariant forall scope: Scope | ConfigAt(rows, scope).Some? ::
                    scope in left || PutConfig(scope, ConfigAt(rows, scope).value) in read
        decreases left
      {
        var scope :| scope in left;
        Put(PutConfig(scope, ConfigAt(rows, scope).value));
        left := left - {scope};
      }
    }

    method ScanMode()
      requires Valid()
      modifies this, snap
      ensures Valid() && old(read) <= read
      ensures forall scope: Scope | ModeAt(rows, scope).Some? :: PutMode(scope, ModeAt(rows, scope).value) in read
    {
      hide Tracks;
      var left := set ctx, scope | ctx in rows.slices && scope in rows.slices[ctx].mode && Within(scope, ctx) :: scope;
      if rows.mode.Some? {
        Put(PutMode(Global, rows.mode.value));
      }
      while left != {}
        invariant Valid() && old(read) <= read
        invariant forall scope | scope in left :: ModeAt(rows, scope).Some?
        invariant forall scope: Scope | ModeAt(rows, scope).Some? ::
                    scope in left || PutMode(scope, ModeAt(rows, scope).value) in read
        decreases left
      {
        var scope :| scope in left;
        Put(PutMode(scope, ModeAt(rows, scope).value));
        left := left - {scope};
      }
    }

    method ScanNextIds()
      requires Valid()
      modifies this, snap
      ensures Valid() && old(read) <= read
      ensures forall ctx: string | SliceOf(rows, ctx).nextId.Some? ::
                SetNextId(ctx, SliceOf(rows, ctx).nextId.value) in read
    {
      hide Tracks;
      var left := set ctx | ctx in rows.slices && rows.slices[ctx].nextId.Some?;
      while left != {}
        invariant Valid() && old(read) <= read
        invariant forall ctx | ctx in left :: SliceOf(rows, ctx).nextId.Some?
        invariant forall ctx: string | SliceOf(rows, ctx).nextId.Some? ::
                    ctx in left || SetNextId(ctx, SliceOf(rows, ctx).nextId.value) in read
        decreases left
      {
        var ctx :| ctx in left;
        Put(SetNextId(ctx, SliceOf(rows, ctx).nextId.value));
        left := left - {ctx};
      }
    }
  }

  function FingerprintRow(ctx: string, c: Content, id: nat): Write {
    PutSchema(ctx, id, SchemaRecord(c, ""), true)
  }

  // ---------------- the whole load ----------------

  /** Every row of every table was read. */
  ghost predicate AllRead(rows: Rows, read: seq<Write>) {
    && (forall ctx: string, slot | slot in SliceOf(rows, ctx).versions ::
        PutVersion(ctx, slot, SliceOf(rows, ctx).versions[slot]) in read)
    && (forall ctx: string, c | c in SliceOf(rows, ctx).fingerprints ::
        FingerprintRow(ctx, c, SliceOf(rows, ctx).fingerprints[c]) in read)
    && (forall ctx: string, e | e in SliceOf(rows, ctx).refby :: PutRefby(ctx, e.slot, e.id) in read)
    && (forall scope: Scope | ConfigAt(rows, scope).Some? :: PutConfig(scope, ConfigAt(rows, scope).value) in read)
    && (forall scope: Scope | ModeAt(rows, scope).Some? :: PutMode(scope, ModeAt(rows, scope).value) in read)
    && (forall ctx: string | SliceOf(rows, ctx).nextId.Some? :: SetNextId(ctx, SliceOf(rows, ctx).nextId.value) in read)
  }

  /** The same rows, as far as the index is concerned. */
  ghost predicate SameRows(a: Slice, b: Slice, ctx: string) {
    && a.versions == b.versions && a.fingerprints == b.fingerprints && a.refby == b.refby && a.nextId == b.nextId
    && (forall scope: Scope | Within(scope, ctx) :: Lookup(a.config, scope) == Lookup(b.config, scope))
    && (forall scope: Scope | Within(scope, ctx) :: Lookup(a.mode, scope) == Lookup(b.mode, scope))
  }

  lemma AllReadIsSame(snap: Snap, done: Rows, rows: Rows, read: seq<Write>, ctx: string)
    requires Tracks(snap, done, rows, read) && AllRead(rows, read)
    ensures SameRows(SliceOf(done, ctx), SliceOf(rows, ctx), ctx) && done.config == rows.config
            && done.mode == rows.mode
  {
    hide Represents, Tracks, AllRead;
    var a, b := SliceOf(done, ctx), SliceOf(rows, ctx);
    RowsRead(snap, done, rows, read, ctx);
    SettingsRead(snap, done, rows, read, ctx);
    assert a.versions.Keys == b.versions.Keys && a.fingerprints.Keys == b.fingerprints.Keys;
  }

  lemma RowsRead(snap: Snap, done: Rows, rows: Rows, read: seq<Write>, ctx: string)
    requires Tracks(snap, done, rows, read) && AllRead(rows, read)
    ensures var a, b := SliceOf(done, ctx), SliceOf(rows, ctx);
            && SliceBelow(a, b, ctx) && b.versions.Keys <= a.versions.Keys
            && b.fingerprints.Keys <= a.fingerprints.Keys && b.refby <= a.refby
            && (b.nextId.Some? ==> a.nextId == b.nextId)
  {
    hide Represents;
    var a, b := SliceOf(done, ctx), SliceOf(rows, ctx);
    assert SliceBelow(a, b, ctx);
    forall slot | slot in b.versions
      ensures slot in a.versions
    {
      assert IsRow(done, PutVersion(ctx, slot, b.versions[slot]));
    }
    forall c | c in b.fingerprints
      ensures c in a.fingerprints
    {
      assert IsRow(done, FingerprintRow(ctx, c, b.fingerprints[c]));
    }
    forall e | e in b.refby
      ensures e in a.refby
    {
      assert IsRow(done, PutRefby(ctx, e.slot, e.id));
      assert Edge(e.slot, e.id) == e;
    }
    assert b.nextId.Some? ==> IsRow(done, SetNextId(ctx, b.nextId.value));
  }

  lemma SettingsRead(snap: Snap, done: Rows, rows: Rows, read: seq<Write>, ctx: string)
    requires Tracks(snap, done, rows, read) && AllRead(rows, read)
    ensures forall scope: Scope ::
              ConfigAt(done, scope) == ConfigAt(rows, scope) && ModeAt(done, scope) == ModeAt(rows, scope)
    ensures done.config == rows.config && done.mode == rows.mode
    ensures var a, b := SliceOf(done, ctx), SliceOf(rows, ctx);
            forall scope: Scope | Within(scope, ctx) ::
              Lookup(a.config, scope) == Lookup(b.config, scope) && Lookup(a.mode, scope) == Lookup(b.mode, scope)
  {
    hide Represents;
    forall scope: Scope
      ensures ConfigAt(done, scope) == ConfigAt(rows, scope) && ModeAt(done, scope) == ModeAt(rows, scope)
    {
      if ConfigAt(rows, scope).Some? {
        assert IsRow(done, PutConfig(scope, ConfigAt(rows, scope).value));
      }
      if ModeAt(rows, scope).Some? {
        assert IsRow(done, PutMode(scope, ModeAt(rows, scope).value));
      }
      if !scope.Global? {
        assert SliceBelow(SliceOf(done, scope.ctx), SliceOf(rows, scope.ctx), scope.ctx);
      }
    }
    assert ConfigAt(done, Global) == ConfigAt(rows, Global) && ModeAt(done, Global) == ModeAt(rows, Global);
    forall scope: Scope | Within(scope, ctx)
      ensures Lookup(SliceOf(done, ctx).config, scope) == Lookup(SliceOf(rows, ctx).config, scope)
      ensures Lookup(SliceOf(done, ctx).mode, scope) == Lookup(SliceOf(rows, ctx).mode, scope)
    {
      assert ConfigAt(done, scope) == ConfigAt(rows, scope) && ModeAt(done, scope) == ModeAt(rows, scope);
    }
  }

  lemma SameRowsAgree(snap: Snap, known: set<string>, a: Slice, b: Slice, ctx: string)
    requires RepresentsOn(snap, a, ctx) && SameRows(a, b, ctx) && (ctx in known <==> b.known)
    ensures RepresentsOn(snap.(known := known), b, ctx)
  {
    var c := Ctx(snap, ctx);
    CopyAgrees(c, c, a, b);
    CopyReferrers(c, c, a, b);
    forall scope: Scope | Within(scope, ctx)
      ensures GetConfig(snap, scope) == Lookup(b.config, scope) && GetMode(snap, scope) == Lookup(b.mode, scope)
    {
      assert GetConfig(snap, scope) == Lookup(a.config, scope) && GetMode(snap, scope) == Lookup(a.mode, scope);
    }
  }

  lemma LoadedAgrees(snap: Snap, done: Rows, rows: Rows, read: seq<Write>, known: set<string>)
    requires Tracks(snap, done, rows, read) && AllRead(rows, read)
    requires forall ctx: string :: ctx in known <==> SliceOf(rows, ctx).known
    ensures Represents(snap.(known := known), rows)
  {
    hide RepresentsOn, AllRead, Below, SameRows;
    forall ctx: string
      ensures RepresentsOn(snap.(known := known), SliceOf(rows, ctx), ctx)
    {
      AllReadIsSame(snap, done, rows, read, ctx);
      assert RepresentsOn(snap, SliceOf(done, ctx), ctx);
      SameRowsAgree(snap, known, SliceOf(done, ctx), SliceOf(rows, ctx), ctx);
    }
    AllReadIsSame(snap, done, rows, read, "");
  }

  /** `load_snapshot`: contexts are read from their own rows, not from the versions. */
  method Load(rows: Rows) returns (snap: SnapshotObject)
    ensures fresh(snap) && Represents(snap.Value(), rows)
  {
    hide Tracks, Represents, IsRow;
    var loader := new Loader(rows);
    loader.ScanVersions();
    loader.ScanFingerprints();
    loader.ScanRefby();
    loader.ScanConfig();
    loader.ScanMode();
    loader.ScanNextIds();
    snap := loader.snap;
    var known := set ctx | ctx in rows.slices && rows.slices[ctx].known;
    LoadedAgrees(snap.Value(), loader.done, rows, loader.read, known);
    snap.known := known;
  }

  /** The index a run leaves, and the one loaded from the rows it leaves, give the same answers. */
  method Restart(env: Env, reg: Reg, cs: seq<Command>) returns (snap: SnapshotObject)
    requires Good(reg)
    ensures fresh(snap) && SameAnswers(Run(env, reg, cs).snap, snap.Value())
  {
    snap := Load(Run(env, reg, cs).rows);
    RunAnswersLikeRebuild(env, reg, cs, snap.Value());
  }
}
