/**
 What a decided verb can do to the rows of a context. Each verb is reduced to
 one of a few moves here, once; the invariants are proved on the moves.
 */
module Moves {
  import opened RegistryTypes
  import opened Store
  import opened Snapshot
  import opened Agreement
  import opened Verbs
  import opened Effects

  // ---------------- what every reachable context satisfies ----------------

  predicate BodiesStored(s: Slice) {
    forall slot | slot in s.versions :: s.versions[slot].id in s.schemas
  }

  /** The counter is above every id in sight. */
  predicate CounterAbove(s: Slice) {
    && (forall id | id in s.schemas :: id < NextIdOf(s))
    && (forall slot | slot in s.versions :: s.versions[slot].id < NextIdOf(s))
    && (forall c | c in s.fingerprints :: s.fingerprints[c] < NextIdOf(s))
  }

  predicate Placed(s: Slice) {
    && (s.versions != map[] ==> s.known)
    && (forall slot | slot in s.versions :: slot.version >= 1)
  }

  predicate Sound(s: Slice) {
    BodiesStored(s) && CounterAbove(s) && Placed(s)
  }

  ghost predicate AllSound(rows: Rows) {
    forall ctx: string :: Sound(SliceOf(rows, ctx))
  }

  // ---------------- moves ----------------

  datatype Move =
    | Stay
    | Relink(cut: set<Edge>, added: set<Edge>)
    | Purging(gone: set<Slot>, freed: set<nat>, cut: set<Edge>)
    | Hiding(hidden: set<Slot>)
    | Recording(gone: set<Slot>, freed: set<nat>, cut: set<Edge>, q: Qualified, c: Content, version: nat, id: nat)

  predicate SameCore(a: Slice, b: Slice) {
    && b.schemas == a.schemas && b.fingerprints == a.fingerprints && b.versions == a.versions
    && b.refby == a.refby && b.nextId == a.nextId
  }

  /** Only ids that no remaining version holds are freed. */
  predicate Unheld(s: Slice, gone: set<Slot>, freed: set<nat>) {
    forall id | id in freed :: Holders(s, id) <= gone
  }

  /** An id that is held keeps its content; a fresh one comes from the counter. */
  predicate GoodId(s: Slice, c: Content, id: nat) {
    Held(s, id) && id in s.schemas ==> s.schemas[id].content == c
  }

  ghost predicate IsMove(view: View, s: Slice, s': Slice, m: Move) {
    match m
    case Stay => SameCore(s, s') && (s'.known == s.known || s.versions == map[])
    case Relink(cut, added) => SameButSettings(s', s.(refby := s.refby - cut + added))
    case Purging(gone, freed, cut) => SameButSettings(s', Without(s, gone, freed, cut)) && Unheld(s, gone, freed)
    case Hiding(hidden) =>
      && hidden <= s.versions.Keys && s'.versions.Keys == s.versions.Keys
      && (forall slot | slot in s.versions ::
            s'.versions[slot] == if slot in hidden then s.versions[slot].(deleted := true) else s.versions[slot])
      && s'.schemas == s.schemas && s'.fingerprints == s.fingerprints && s'.refby == s.refby && s'.nextId == s.nextId
      && (hidden != {} ==> s'.known) && (hidden == {} ==> s'.known == s.known)
    case Recording(gone, freed, cut, q, c, version, id) =>
      && s' == Recorded(Without(s, gone, freed, cut), view, q, c, version, id)
      && Unheld(s, gone, freed) && gone <= s.versions.Keys && GoodId(s, c, id) && version >= 1
      && NextId(view.snap, q.ctx) == NextIdOf(s) && RecordFor(view, q, id, c).content == c
      && (Slot(q.subject, version) in s.versions ==> Slot(q.subject, version) in gone)
  }

  predicate SameButSettings(a: Slice, b: Slice) {
    SameCore(a, b) && a.known == b.known
  }

  /** Every move keeps the context sound. */
  lemma MovesKeepSound(view: View, s: Slice, s': Slice, m: Move)
    requires Sound(s) && IsMove(view, s, s', m)
    ensures Sound(s')
  {
    match m
    case Stay =>
    case Relink(_, _) =>
    case Purging(gone, freed, cut) =>
      forall slot | slot in s'.versions
        ensures s'.versions[slot].id in s'.schemas
      {
        assert slot in Holders(s, s.versions[slot].id);
      }
    case Hiding(_) =>
    case Recording(gone, freed, cut, q, c, version, id) => RecordingKeepsSound(view, s, s', m);
  }

  lemma RecordingKeepsSound(view: View, s: Slice, s': Slice, m: Move)
    requires Sound(s) && m.Recording? && IsMove(view, s, s', m)
    ensures Sound(s')
  {
    forall slot | slot in s'.versions
      ensures s'.versions[slot].id in s'.schemas
    {
      if slot != Slot(m.q.subject, m.version) {
        assert slot in Holders(s, s.versions[slot].id);
      }
    }
  }

  // ---------------- what a plan purges ----------------

  /** The doomed rows are rows of the context. */
  ghost predicate Rooted(doomed: seq<Doomed>, s: Slice, ctx: string) {
    forall d | d in doomed && d.q.ctx == ctx :: SlotOf(d) in s.versions && s.versions[SlotOf(d)] == d.rec
  }

  lemma FreedAreUnheld(view: View, s: Slice, ctx: string, doomed: seq<Doomed>, also: set<Slot>)
    requires SeesOn(view, s, ctx)
    requires forall slot | slot in also && slot in s.versions :: slot in Gone(doomed, ctx)
    ensures Unheld(s, Gone(doomed, ctx), Freed(view, doomed, also, ctx))
  {
    forall id | id in Freed(view, doomed, also, ctx)
      ensures Holders(s, id) <= Gone(doomed, ctx)
    {
      var d :| d in doomed && d.q.ctx == ctx && Frees(view, d, also) && d.rec.id == id;
      assert UsagesOf(Ctx(view.snap, ctx), id) == Holders(s, id);
      forall u | u in Holders(s, id)
        ensures u in Gone(doomed, ctx)
      {
        assert u in IdUsages(view.snap, ctx, id);
        assert u == SlotOf(d) || u in also;
      }
    }
  }

  /** Versions listed by the index are rows. */
  lemma ListedAreRows(view: View, s: Slice, q: Qualified)
    requires SeesOn(view, s, q.ctx)
    ensures Sorted(ListVersions(view.snap, q))
    ensures forall e | e in ListVersions(view.snap, q) ::
              Slot(q.subject, e.version) in s.versions && s.versions[Slot(q.subject, e.version)] == e.rec
    ensures forall slot | slot in s.versions && slot.subject == q.subject ::
              Entry(slot.version, s.versions[slot]) in ListVersions(view.snap, q)
  {
    var vs := ListVersions(view.snap, q);
    assert Sorted(VersionsOf(Ctx(view.snap, q.ctx), q.subject));
    forall e | e in vs
      ensures Slot(q.subject, e.version) in s.versions && s.versions[Slot(q.subject, e.version)] == e.rec
    {
      FindIn(vs, e.version);
      RowFound(view, s, q, e.version);
    }
    forall slot | slot in s.versions && slot.subject == q.subject
      ensures Entry(slot.version, s.versions[slot]) in vs
    {
      FindIn(vs, slot.version);
      RowFound(view, s, q, slot.version);
      var i :| 0 <= i < |vs| && vs[i].version == slot.version;
      assert vs[i] == Entry(slot.version, s.versions[slot]);
    }
  }

  lemma RowFound(view: View, s: Slice, q: Qualified, v: nat)
    requires SeesOn(view, s, q.ctx)
    ensures Find(ListVersions(view.snap, q), v) == Lookup(s.versions, Slot(q.subject, v))
  {
    var slot := Slot(q.subject, v);
    assert Find(VersionsOf(Ctx(view.snap, q.ctx), slot.subject), slot.version) == Lookup(s.versions, slot);
  }

  lemma RootedIsNamed(doomed: seq<Doomed>, s: Slice, ctx: string)
    requires Rooted(doomed, s, ctx)
    ensures Named(doomed, s, ctx) && Gone(doomed, ctx) <= s.versions.Keys
  {
  }

  /** A purge, with whatever settings it goes along with. */
  lemma PurgeMoves(view: View, s: Slice, ctx: string, doomed: seq<Doomed>, also: set<Slot>, more: seq<Write>)
    requires SeesOn(view, s, ctx) && Rooted(doomed, s, ctx) && forall w | w in more :: Settings(w)
    requires forall slot | slot in also && slot in s.versions :: slot in Gone(doomed, ctx)
    ensures var ws := Purge(view, doomed, also) + more;
            && AllTruthful(ctx, s, ws)
            && IsMove(view, s, WriteAll(ctx, s, ws),
                     Purging(Gone(doomed, ctx), Freed(view, doomed, also, ctx), Cut(view, doomed, also, ctx)))
  {
    hide SeesOn, Rooted, WriteSlice, Unheld;
    RootedIsNamed(doomed, s, ctx);
    FreedAreUnheld(view, s, ctx, doomed, also);
    PurgeEffect(view, doomed, also, ctx, s);
    var s1 := WriteAll(ctx, s, Purge(view, doomed, also));
    WriteAllConcat(ctx, s, Purge(view, doomed, also), more);
    TruthfulConcat(ctx, s, Purge(view, doomed, also), more);
    SettingsEffect(ctx, s1, more);
  }

  lemma SettingEffect(ctx: string, s: Slice, w: Write)
    requires Settings(w)
    ensures SameButSettings(WriteSlice(ctx, s, w), s) && Truthful(s, ctx, w)
  {
  }

  lemma {:induction false} SettingsEffect(ctx: string, s: Slice, ws: seq<Write>)
    requires forall w | w in ws :: Settings(w)
    ensures SameButSettings(WriteAll(ctx, s, ws), s) && AllTruthful(ctx, s, ws)
    decreases ws
  {
    if ws != [] {
      hide WriteSlice, Truthful, Settings;
      SettingEffect(ctx, s, ws[0]);
      assert forall w | w in ws[1..] :: w in ws;
      SettingsEffect(ctx, WriteSlice(ctx, s, ws[0]), ws[1..]);
    }
  }
}
