/**
 The index and the rows are two copies of one state. `Represents` says that
 every query of the index answers what the rows say; each write keeps that,
 and rebuilding the index from the rows (`load_snapshot`) establishes it.
 */
module Agreement {
  import opened RegistryTypes
  import opened Store
  import opened Snapshot

  ghost predicate VersionsAgree(c: CtxState, s: Slice) {
    && (forall slot: Slot :: Find(VersionsOf(c, slot.subject), slot.version) == Lookup(s.versions, slot))
    && (forall name: string :: Sorted(VersionsOf(c, name)))
    && (forall name: string | name in c.subjects :: c.subjects[name] != [])
  }

  ghost predicate UsagesAgree(c: CtxState, s: Slice) {
    forall id: nat :: UsagesOf(c, id) == Holders(s, id)
  }

  ghost predicate ReferrersAgree(c: CtxState, s: Slice) {
    forall slot: Slot :: ReferrersOf(c, slot) == Referrers(s, slot)
  }

  ghost predicate Indexes(c: CtxState, s: Slice) {
    && VersionsAgree(c, s) && UsagesAgree(c, s) && ReferrersAgree(c, s)
    && c.fingerprints == s.fingerprints && c.nextId == s.nextId
  }

  ghost predicate SettingsAgree(snap: Snap, s: Slice, ctx: string) {
    && (ctx in snap.known <==> s.known)
    && (forall scope: Scope | Within(scope, ctx) :: GetConfig(snap, scope) == Lookup(s.config, scope))
    && (forall scope: Scope | Within(scope, ctx) :: GetMode(snap, scope) == Lookup(s.mode, scope))
  }

  /** Every query about one context answers what that context's rows say. */
  ghost predicate RepresentsOn(snap: Snap, s: Slice, ctx: string) {
    Indexes(Ctx(snap, ctx), s) && SettingsAgree(snap, s, ctx)
  }

  ghost predicate GlobalAgrees(snap: Snap, rows: Rows) {
    GetConfig(snap, Global) == rows.config && GetMode(snap, Global) == rows.mode
  }

  ghost predicate Represents(snap: Snap, rows: Rows) {
    GlobalAgrees(snap, rows) && forall ctx: string :: RepresentsOn(snap, SliceOf(rows, ctx), ctx)
  }

  /** A delete names the id its version holds. */
  predicate Truthful(s: Slice, ctx: string, w: Write) {
    w.DeleteVersion? && w.ctx == ctx && w.slot in s.versions ==> s.versions[w.slot].id == w.id
  }

  // ---------------- one write ----------------

  lemma PutVersionAgrees(c: CtxState, s: Slice, slot: Slot, rec: VersionRecord)
    requires Indexes(c, s)
    ensures Indexes(PutVersionIn(c, slot, rec), s.(versions := s.versions[slot := rec], known := true))
  {
    hide VersionsAgree, UsagesAgree, ReferrersAgree;
    var c', s' := PutVersionIn(c, slot, rec), s.(versions := s.versions[slot := rec], known := true);
    PutVersionLists(c, c', s, s', slot, rec);
    PutVersionUsages(c, s, slot, rec);
    CopyReferrers(c, c', s, s');
  }

  lemma PutVersionLists(c: CtxState, c': CtxState, s: Slice, s': Slice, slot: Slot, rec: VersionRecord)
    requires VersionsAgree(c, s) && s'.versions == s.versions[slot := rec]
    requires c'.subjects == c.subjects[slot.subject := Insert(VersionsOf(c, slot.subject), slot.version, rec)]
    ensures VersionsAgree(c', s')
  {
    var vs := VersionsOf(c, slot.subject);
    InsertSorts(vs, slot.version, rec);
    forall any: Slot
      ensures Find(VersionsOf(c', any.subject), any.version) == Lookup(s'.versions, any)
    {
      InsertFinds(vs, slot.version, rec, any.version);
      assert Find(VersionsOf(c, any.subject), any.version) == Lookup(s.versions, any);
    }
    forall name: string
      ensures Sorted(VersionsOf(c', name))
    {
      assert Sorted(VersionsOf(c, name));
    }
  }

  lemma PutVersionUsages(c: CtxState, s: Slice, slot: Slot, rec: VersionRecord)
    requires VersionsAgree(c, s) && UsagesAgree(c, s)
    ensures UsagesAgree(PutVersionIn(c, slot, rec), s.(versions := s.versions[slot := rec], known := true))
  {
    var c', s' := PutVersionIn(c, slot, rec), s.(versions := s.versions[slot := rec], known := true);
    assert Find(VersionsOf(c, slot.subject), slot.version) == Lookup(s.versions, slot);
    forall id: nat
      ensures UsagesOf(c', id) == Holders(s', id)
    {
      assert UsagesOf(c, id) == Holders(s, id);
    }
  }

  lemma DeleteVersionAgrees(c: CtxState, s: Slice, slot: Slot, id: nat)
    requires Indexes(c, s) && (slot in s.versions ==> s.versions[slot].id == id)
    ensures Indexes(DeleteVersionIn(c, slot, id), s.(versions := s.versions - {slot}))
  {
    hide VersionsAgree, UsagesAgree, ReferrersAgree;
    DeleteVersionLists(c, s, slot, id);
    DeleteVersionUsages(c, s, slot, id);
    CopyReferrers(c, DeleteVersionIn(c, slot, id), s, s.(versions := s.versions - {slot}));
  }

  lemma DeleteVersionLists(c: CtxState, s: Slice, slot: Slot, id: nat)
    requires VersionsAgree(c, s)
    ensures VersionsAgree(DeleteVersionIn(c, slot, id), s.(versions := s.versions - {slot}))
  {
    var c', s' := DeleteVersionIn(c, slot, id), s.(versions := s.versions - {slot});
    var vs := VersionsOf(c, slot.subject);
    RemoveSorts(vs, slot.version);
    forall any: Slot
      ensures Find(VersionsOf(c', any.subject), any.version) == Lookup(s'.versions, any)
    {
      RemoveFinds(vs, slot.version, any.version);
      assert Find(VersionsOf(c, any.subject), any.version) == Lookup(s.versions, any);
    }
    forall name: string
      ensures Sorted(VersionsOf(c', name))
    {
      assert Sorted(VersionsOf(c, name));
    }
  }

  lemma DeleteVersionUsages(c: CtxState, s: Slice, slot: Slot, id: nat)
    requires UsagesAgree(c, s) && (slot in s.versions ==> s.versions[slot].id == id)
    ensures UsagesAgree(DeleteVersionIn(c, slot, id), s.(versions := s.versions - {slot}))
  {
    var c', s' := DeleteVersionIn(c, slot, id), s.(versions := s.versions - {slot});
    forall any: nat
      ensures UsagesOf(c', any) == Holders(s', any)
    {
      assert UsagesOf(c, any) == Holders(s, any);
    }
  }

  lemma RefbyAgrees(c: CtxState, s: Slice, slot: Slot, id: nat)
    requires Indexes(c, s)
    ensures Indexes(PutRefbyIn(c, slot, id), s.(refby := s.refby + {Edge(slot, id)}))
    ensures Indexes(DeleteRefbyIn(c, slot, id), s.(refby := s.refby - {Edge(slot, id)}))
  {
    hide VersionsAgree, UsagesAgree;
    var more, less := s.(refby := s.refby + {Edge(slot, id)}), s.(refby := s.refby - {Edge(slot, id)});
    forall any: Slot
      ensures ReferrersOf(PutRefbyIn(c, slot, id), any) == Referrers(more, any)
      ensures ReferrersOf(DeleteRefbyIn(c, slot, id), any) == Referrers(less, any)
    {
      PutEdge(s, slot, id, any);
      assert ReferrersOf(c, any) == Referrers(s, any);
    }
    CopyAgrees(c, PutRefbyIn(c, slot, id), s, more);
    CopyAgrees(c, DeleteRefbyIn(c, slot, id), s, less);
  }

  lemma PutEdge(s: Slice, slot: Slot, id: nat, any: Slot)
    ensures Referrers(s.(refby := s.refby + {Edge(slot, id)}), any) == Referrers(s, any) + if any == slot then {id}
            else {}
    ensures Referrers(s.(refby := s.refby - {Edge(slot, id)}), any) == Referrers(s, any) - if any == slot then {id}
            else {}
  {
    var more := s.(refby := s.refby + {Edge(slot, id)});
    forall x | x in Referrers(s, any)
      ensures x in Referrers(more, any)
    {
      assert Edge(any, x) in more.refby;
    }
    assert any == slot ==> Edge(slot, id) in more.refby;
    var less := s.(refby := s.refby - {Edge(slot, id)});
    forall x | x in Referrers(s, any) && !(any == slot && x == id)
      ensures x in Referrers(less, any)
    {
      assert Edge(any, x) in less.refby;
    }
  }

  /** Versions and usages agree as before when neither side changed them. */
  lemma CopyAgrees(c: CtxState, c': CtxState, s: Slice, s': Slice)
    requires VersionsAgree(c, s) && UsagesAgree(c, s)
    requires c'.subjects == c.subjects && c'.usages == c.usages && s'.versions == s.versions
    ensures VersionsAgree(c', s') && UsagesAgree(c', s')
  {
    forall slot: Slot
      ensures Find(VersionsOf(c', slot.subject), slot.version) == Lookup(s'.versions, slot)
    {
      assert Find(VersionsOf(c, slot.subject), slot.version) == Lookup(s.versions, slot);
    }
    forall name: string
      ensures Sorted(VersionsOf(c', name))
    {
      assert Sorted(VersionsOf(c, name));
    }
    forall id: nat
      ensures UsagesOf(c', id) == Holders(s', id)
    {
      assert UsagesOf(c, id) == Holders(s, id);
    }
  }

  lemma CopyReferrers(c: CtxState, c': CtxState, s: Slice, s': Slice)
    requires ReferrersAgree(c, s) && c'.refby == c.refby && s'.refby == s.refby
    ensures ReferrersAgree(c', s')
  {
    forall slot: Slot
      ensures ReferrersOf(c', slot) == Referrers(s', slot)
    {
      assert ReferrersOf(c, slot) == Referrers(s, slot);
    }
  }

  /** The index of a context follows a write to it, whichever row it is. */
  lemma ApplyInAgrees(c: CtxState, s: Slice, ctx: string, w: Write)
    requires Indexes(c, s) && !Settings(w) && w.ctx == ctx && Truthful(s, ctx, w)
    ensures Indexes(ApplyIn(c, w), WriteSlice(ctx, s, w))
  {
    hide PutVersionIn, DeleteVersionIn, PutRefbyIn, DeleteRefbyIn, VersionsAgree, UsagesAgree, ReferrersAgree;
    match w
    case PutVersion(_, slot, rec) => PutVersionAgrees(c, s, slot, rec);
    case DeleteVersion(_, slot, id) => DeleteVersionAgrees(c, s, slot, id);
    case PutRefby(_, slot, id) => RefbyAgrees(c, s, slot, id);
    case DeleteRefby(_, slot, id) => RefbyAgrees(c, s, slot, id);
    case _ =>
      CopyAgrees(c, ApplyIn(c, w), s, WriteSlice(ctx, s, w));
      CopyReferrers(c, ApplyIn(c, w), s, WriteSlice(ctx, s, w));
  }

  lemma ApplySettings(snap: Snap, s: Slice, ctx: string, w: Write)
    requires SettingsAgree(snap, s, ctx)
    ensures SettingsAgree(Apply(snap, w), WriteSlice(ctx, s, w), ctx)
  {
    hide ApplyIn;
    var snap', s' := Apply(snap, w), WriteSlice(ctx, s, w);
    if Settings(w) {
      forall scope: Scope | Within(scope, ctx)
        ensures GetConfig(snap', scope) == Lookup(s'.config, scope)
        ensures GetMode(snap', scope) == Lookup(s'.mode, scope)
      {
        assert GetConfig(snap, scope) == Lookup(s.config, scope);
        assert GetMode(snap, scope) == Lookup(s.mode, scope);
      }
    } else {
      OtherWritesKeepSettings(snap, s, ctx, w);
    }
  }

  lemma OtherWritesKeepSettings(snap: Snap, s: Slice, ctx: string, w: Write)
    requires SettingsAgree(snap, s, ctx) && !Settings(w)
    ensures SettingsAgree(Apply(snap, w), WriteSlice(ctx, s, w), ctx)
  {
    hide ApplyIn;
    var snap', s' := Apply(snap, w), WriteSlice(ctx, s, w);
    assert snap'.config == snap.config && snap'.mode == snap.mode && s'.config == s.config && s'.mode == s.mode;
    forall scope: Scope | Within(scope, ctx)
      ensures GetConfig(snap', scope) == Lookup(s'.config, scope)
      ensures GetMode(snap', scope) == Lookup(s'.mode, scope)
    {
      assert GetConfig(snap, scope) == Lookup(s.config, scope);
      assert GetMode(snap, scope) == Lookup(s.mode, scope);
    }
  }

  /** One write, seen from one context. */
  lemma ApplyAgreesOn(snap: Snap, s: Slice, ctx: string, w: Write)
    requires RepresentsOn(snap, s, ctx) && Truthful(s, ctx, w)
    ensures RepresentsOn(Apply(snap, w), WriteSlice(ctx, s, w), ctx)
  {
    hide Indexes, SettingsAgree, ApplyIn;
    ApplySettings(snap, s, ctx, w);
    if !Settings(w) && w.ctx == ctx {
      ApplyInAgrees(Ctx(snap, ctx), s, ctx, w);
      DeletesOfBodies(Ctx(snap, ctx), w);
    } else {
      ElsewhereIsUnchanged(Ctx(snap, ctx), s, ctx, w);
    }
  }

  lemma DeletesOfBodies(c: CtxState, w: Write)
    ensures w.DeleteSchema? || w.DeleteContext? || (w.PutSchema? && !w.index) ==> ApplyIn(c, w) == c
  {
  }

  lemma ElsewhereIsUnchanged(c: CtxState, s: Slice, ctx: string, w: Write)
    requires Indexes(c, s) && (Settings(w) || w.ctx != ctx)
    ensures Indexes(c, WriteSlice(ctx, s, w))
  {
    hide VersionsAgree, UsagesAgree, ReferrersAgree;
    CopyAgrees(c, c, s, WriteSlice(ctx, s, w));
    CopyReferrers(c, c, s, WriteSlice(ctx, s, w));
  }

  // ---------------- a batch ----------------

  /** Every delete of the batch is truthful when its turn comes. */
  predicate AllTruthful(ctx: string, s: Slice, ws: seq<Write>)
    decreases ws
  {
    ws == [] || (Truthful(s, ctx, ws[0]) && AllTruthful(ctx, WriteSlice(ctx, s, ws[0]), ws[1..]))
  }

  lemma {:induction false} ApplyAllAgreesOn(snap: Snap, s: Slice, ctx: string, ws: seq<Write>)
    requires RepresentsOn(snap, s, ctx) && AllTruthful(ctx, s, ws)
    ensures RepresentsOn(ApplyAll(snap, ws), WriteAll(ctx, s, ws), ctx)
    decreases ws
  {
    if ws != [] {
      hide RepresentsOn, Apply, WriteSlice, Truthful;
      ApplyAgreesOn(snap, s, ctx, ws[0]);
      ApplyAllAgreesOn(Apply(snap, ws[0]), WriteSlice(ctx, s, ws[0]), ctx, ws[1..]);
    }
  }

  lemma {:induction false} ApplyAllGlobal(snap: Snap, rows: Rows, ws: seq<Write>)
    requires GlobalAgrees(snap, rows)
    ensures GlobalAgrees(ApplyAll(snap, ws), WriteBatch(rows, ws))
    decreases ws
  {
    if ws != [] {
      ApplyGlobal(snap, rows, ws[0]);
      ApplyAllGlobal(Apply(snap, ws[0]), WriteRow(rows, ws[0]), ws[1..]);
    }
  }

  lemma ApplyGlobal(snap: Snap, rows: Rows, w: Write)
    requires GlobalAgrees(snap, rows)
    ensures GlobalAgrees(Apply(snap, w), WriteRow(rows, w))
  {
    hide ApplyIn, WriteSlice;
  }

  ghost predicate BatchTruthful(rows: Rows, ws: seq<Write>) {
    forall ctx: string :: AllTruthful(ctx, SliceOf(rows, ctx), ws)
  }

  /** Publishing a truthful batch keeps the index equal to the rows. */
  lemma PublishAgrees(snap: Snap, rows: Rows, ws: seq<Write>)
    requires Represents(snap, rows) && BatchTruthful(rows, ws)
    ensures Represents(ApplyAll(snap, ws), WriteBatch(rows, ws))
  {
    hide RepresentsOn, GlobalAgrees;
    ApplyAllGlobal(snap, rows, ws);
    forall ctx: string
      ensures RepresentsOn(ApplyAll(snap, ws), SliceOf(WriteBatch(rows, ws), ctx), ctx)
    {
      assert RepresentsOn(snap, SliceOf(rows, ctx), ctx) && AllTruthful(ctx, SliceOf(rows, ctx), ws);
      ApplyAllAgreesOn(snap, SliceOf(rows, ctx), ctx, ws);
      BatchBySlice(rows, ws, ctx);
    }
  }

  // ---------------- two indexes of the same rows ----------------

  /** The two indexes give the same answer to every query. */
  ghost predicate SameAnswers(a: Snap, b: Snap) {
    && (forall q: Qualified :: ListVersions(a, q) == ListVersions(b, q))
    && (forall ctx: string :: SubjectNames(a, ctx) == SubjectNames(b, ctx))
    && (forall ctx: string, id: nat :: IdUsages(a, ctx, id) == IdUsages(b, ctx, id))
    && (forall ctx: string, slot: Slot :: ReferencedBy(a, ctx, slot) == ReferencedBy(b, ctx, slot))
    && (forall ctx: string, content: Content :: IdForContent(a, ctx, content) == IdForContent(b, ctx, content))
    && (forall ctx: string :: NextId(a, ctx) == NextId(b, ctx))
    && Contexts(a) == Contexts(b)
    && (forall scope: Scope :: GetConfig(a, scope) == GetConfig(b, scope))
    && (forall scope: Scope :: GetMode(a, scope) == GetMode(b, scope))
  }

  /** A sorted list is determined by what can be found in it. */
  lemma {:induction false} SameFindsSameList(a: seq<Entry>, b: seq<Entry>)
    requires Sorted(a) && Sorted(b) && forall v :: Find(a, v) == Find(b, v)
    ensures a == b
  {
    EmptyIff(a);
    EmptyIff(b);
    if a != [] && b != [] {
      var x, y := a[0].version, b[0].version;
      FindIn(a, x);
      FindIn(b, x);
      FindIn(a, y);
      FindIn(b, y);
      assert x == y;
      forall v
        ensures Find(a[1..], v) == Find(b[1..], v)
      {
        FindIn(a[1..], x);
        FindIn(b[1..], x);
        assert Find(a, v) == Find(b, v);
      }
      SameFindsSameList(a[1..], b[1..]);
      assert Find(a, x) == Find(b, x);
      assert a == [a[0]] + a[1..] && b == [b[0]] + b[1..];
    }
  }

  lemma SameLists(a: Snap, b: Snap, rows: Rows, q: Qualified)
    requires Represents(a, rows) && Represents(b, rows)
    ensures ListVersions(a, q) == ListVersions(b, q)
  {
    assert RepresentsOn(a, SliceOf(rows, q.ctx), q.ctx) && RepresentsOn(b, SliceOf(rows, q.ctx), q.ctx);
    var x, y := ListVersions(a, q), ListVersions(b, q);
    forall v: nat
      ensures Find(x, v) == Find(y, v)
    {
      var slot := Slot(q.subject, v);
      assert Find(VersionsOf(Ctx(a, q.ctx), slot.subject), slot.version) == Lookup(SliceOf(rows, q.ctx).versions, slot);
      assert Find(VersionsOf(Ctx(b, q.ctx), slot.subject), slot.version) == Lookup(SliceOf(rows, q.ctx).versions, slot);
    }
    SameFindsSameList(x, y);
  }

  lemma SubjectsHaveVersions(snap: Snap, s: Slice, ctx: string, name: string)
    requires RepresentsOn(snap, s, ctx)
    ensures name in SubjectNames(snap, ctx) <==> ListVersions(snap, Qualified(ctx, name)) != []
  {
  }

  lemma RepresentsDetermines(a: Snap, b: Snap, rows: Rows)
    requires Represents(a, rows) && Represents(b, rows)
    ensures SameAnswers(a, b)
  {
    forall q: Qualified
      ensures ListVersions(a, q) == ListVersions(b, q)
    {
      SameLists(a, b, rows, q);
    }
    forall ctx: string
      ensures SubjectNames(a, ctx) == SubjectNames(b, ctx)
      ensures NextId(a, ctx) == NextId(b, ctx) && (ctx in a.known <==> ctx in b.known)
      ensures Ctx(a, ctx).fingerprints == Ctx(b, ctx).fingerprints
    {
      var s := SliceOf(rows, ctx);
      assert RepresentsOn(a, s, ctx) && RepresentsOn(b, s, ctx);
      forall name: string
        ensures name in SubjectNames(a, ctx) <==> name in SubjectNames(b, ctx)
      {
        SubjectsHaveVersions(a, s, ctx, name);
        SubjectsHaveVersions(b, s, ctx, name);
        SameLists(a, b, rows, Qualified(ctx, name));
      }
    }
    SameSets(a, b, rows);
    SameSettings(a, b, rows);
  }

  lemma SameSets(a: Snap, b: Snap, rows: Rows)
    requires Represents(a, rows) && Represents(b, rows)
    ensures forall ctx: string, id: nat :: IdUsages(a, ctx, id) == IdUsages(b, ctx, id)
    ensures forall ctx: string, slot: Slot :: ReferencedBy(a, ctx, slot) == ReferencedBy(b, ctx, slot)
  {
    forall ctx: string, id: nat
      ensures IdUsages(a, ctx, id) == IdUsages(b, ctx, id)
    {
      var s := SliceOf(rows, ctx);
      assert RepresentsOn(a, s, ctx) && RepresentsOn(b, s, ctx);
      assert UsagesOf(Ctx(a, ctx), id) == Holders(s, id) == UsagesOf(Ctx(b, ctx), id);
    }
    forall ctx: string, slot: Slot
      ensures ReferencedBy(a, ctx, slot) == ReferencedBy(b, ctx, slot)
    {
      var s := SliceOf(rows, ctx);
      assert RepresentsOn(a, s, ctx) && RepresentsOn(b, s, ctx);
      assert ReferrersOf(Ctx(a, ctx), slot) == Referrers(s, slot) == ReferrersOf(Ctx(b, ctx), slot);
    }
  }

  lemma SameSettings(a: Snap, b: Snap, rows: Rows)
    requires Represents(a, rows) && Represents(b, rows)
    ensures forall scope: Scope :: GetConfig(a, scope) == GetConfig(b, scope)
    ensures forall scope: Scope :: GetMode(a, scope) == GetMode(b, scope)
  {
    forall scope: Scope
      ensures GetConfig(a, scope) == GetConfig(b, scope) && GetMode(a, scope) == GetMode(b, scope)
    {
      if !scope.Global? {
        var s := SliceOf(rows, scope.ctx);
        assert RepresentsOn(a, s, scope.ctx) && RepresentsOn(b, s, scope.ctx);
        assert Within(scope, scope.ctx);
        assert GetConfig(a, scope) == Lookup(s.config, scope) == GetConfig(b, scope);
        assert GetMode(a, scope) == Lookup(s.mode, scope) == GetMode(b, scope);
      }
    }
  }
}
