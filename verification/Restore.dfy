/**
 The replay itself (src/backup.rs, `restore_local` and `write_version_local`):
 loops over the dump that call the registry, and a recursive walk that writes
 what a version refers to before the version. From an empty registry, and
 from one restored before, it ends with every row of the dumped registry.
 */
module Restore {
  import opened Wrappers
  import opened RegistryTypes
  import opened Store
  import opened Snapshot
  import opened Verbs
  import opened Agreement
  import opened Moves
  import opened Registry
  import opened Backup
  import N = Names

  datatype Dump = Dump(
    order: seq<Qualified>,
    subjects: map<Qualified, seq<Row>>,
    configs: seq<(Option<Qualified>, Config)>,
    modes: seq<(Option<Qualified>, Mode)>)

  /** The rows of a subject, oldest first, and no others. */
  ghost predicate ListsSubject(rows: seq<Row>, src: Reg, q: Qualified) {
    && (forall i | 0 <= i < |rows| :: RowIn(src, q, rows[i].version) == Some(rows[i]))
    && (forall i, j | 0 <= i < j < |rows| :: rows[i].version < rows[j].version)
    && (forall v: nat | RowIn(src, q, v).Some? :: RowIn(src, q, v).value in rows)
  }

  ghost predicate Describes(d: Dump, src: Reg) {
    && (forall q: Qualified, v: nat | RowIn(src, q, v).Some? :: q in d.order)
    && (forall q | q in d.order :: q in d.subjects)
    && (forall q | q in d.subjects :: ListsSubject(d.subjects[q], src, q))
    && (forall i, j | 0 <= i < j < |d.order| :: d.order[i] != d.order[j])
  }

  function Universe(d: Dump): set<(Qualified, nat)> {
    set q, row | q in d.subjects && row in d.subjects[q] :: (q, row.version)
  }

  // ---------------- where a restore stands ----------------

  /**
   What has been written so far resembles the source; written rows are live
   unless their subject is `finished`, with its flags as in the source, or its
   deletes are being replayed (`closing`).
   */
  ghost predicate Progress(env: Env, src: Reg, rank: (Qualified, nat) -> nat, reg: Reg,
                           done: set<(Qualified, nat)>, written: set<(Qualified, nat)>, finished: set<Qualified>,
                             closing: set<Qualified>) {
    && Restorable(env, src, rank) && Towards(reg, src) && Written(reg, src, written) && written <= done
    && GlobalMode(reg.snap) != ReadonlyOverride
    && (forall x | x in done :: RowIn(src, x.0, x.1).Some?)
    && (forall x | x in written && x.0 !in finished + closing ::
        RowIn(reg, x.0, x.1).Some? && !RowIn(reg, x.0, x.1).value.deleted)
    && (forall q: Qualified, v: nat | q in finished
        && RowIn(src, q, v).Some? :: (q, v) in written && RowIn(reg, q, v) == RowIn(src, q, v))
  }

  /** Dependencies were written before what refers to them. */
  ghost predicate DepsFirst(src: Reg, trace: seq<(Qualified, nat)>) {
    forall i | 0 <= i < |trace| :: DepsBefore(src, trace, i)
  }

  ghost predicate DepsBefore(src: Reg, trace: seq<(Qualified, nat)>, i: nat)
    requires i < |trace|
  {
    var row := RowIn(src, trace[i].0, trace[i].1);
    row.Some? && forall r | r in row.value.content.refs ::
      (RefTarget(trace[i].0.ctx, r), AtLeastOne(r.version)) in trace[..i]
  }

  lemma TraceGrows(src: Reg, trace: seq<(Qualified, nat)>, q: Qualified, row: Row)
    requires DepsFirst(src, trace) && RowIn(src, q, row.version) == Some(row) && DepsWritten(q, row, Set(trace))
    ensures DepsFirst(src, trace + [(q, row.version)])
  {
    var more := trace + [(q, row.version)];
    forall i | 0 <= i < |more|
      ensures DepsBefore(src, more, i)
    {
      if i < |trace| {
        assert DepsBefore(src, trace, i);
        assert more[..i] == trace[..i];
      } else {
        assert more[..i] == trace;
      }
    }
  }

  // ---------------- steps of a restore ----------------

  /** Settings verbs move nothing. */
  lemma SettingProgress(env: Env, src: Reg, rank: (Qualified, nat) -> nat, reg: Reg, done: set<(Qualified, nat)>,
                        written: set<(Qualified, nat)>,
                        finished: set<Qualified>, closing: set<Qualified>, c: Command)
    requires Progress(env, src, rank, reg, done, written, finished, closing) && SettingVerb(c.verb)
    requires GlobalMode(Step(env, reg, c).snap) != ReadonlyOverride
    ensures Progress(env, src, rank, Step(env, reg, c), done, written, finished, closing)
    ensures SameRows(reg, Step(env, reg, c))
  {
    hide Restorable, Towards, Written, Step, RowAt, SettingVerb;
    SettingKeeps(env, src, reg, written, c);
    var reg' := Step(env, reg, c);
    forall x | x in written && x.0 !in finished + closing
      ensures RowIn(reg', x.0, x.1).Some? && !RowIn(reg', x.0, x.1).value.deleted
    {
      assert RowIn(reg, x.0, x.1) == RowIn(reg', x.0, x.1);
    }
    forall q: Qualified, v: nat | q in finished && RowIn(src, q, v).Some?
      ensures (q, v) in written && RowIn(reg', q, v) == RowIn(src, q, v)
    {
      assert RowIn(reg, q, v) == RowIn(reg', q, v);
    }
  }

  lemma WriteProgress(env: Env, src: Reg, rank: (Qualified, nat) -> nat, reg: Reg, done: set<(Qualified, nat)>,
                      written: set<(Qualified, nat)>,
                      finished: set<Qualified>, q: Qualified, row: Row, c: Command)
    requires Progress(env, src, rank, reg, done, written, finished, {}) && (q, row.version) in done && q !in finished
    requires RowIn(src, q, row.version) == Some(row) && Importing(reg.snap, q) && DepsWritten(q, row, written)
    requires c.verb == Register(q, DraftOf(row), false)
    ensures Progress(env, src, rank, Step(env, reg, c), done, written + {(q, row.version)}, finished, {})
    ensures Decide(env, ViewOf(reg, c), c.verb).Success?
    ensures Step(env, reg, c).snap.config == reg.snap.config && Step(env, reg, c).snap.mode == reg.snap.mode
  {
    hide Restorable, Towards, Written, Step, RowAt, Importing, DepsWritten, Decide, DraftOf, RegisterPlan, StepMove;
    CanWrite(env, src, rank, reg, done, written, finished, q, row);
    ImportKeeps(env, src, rank, reg, written, q, row, c);
    ImportSettings(env, src, rank, reg, written, q, row, c);
    ImportDecides(env, src, rank, reg, written, q, row, c, q.ctx);
    hide CanImport, WrittenLive;
    var reg' := Step(env, reg, c);
    forall x | x in written + {(q, row.version)} && x.0 !in finished
      ensures RowIn(reg', x.0, x.1).Some? && !RowIn(reg', x.0, x.1).value.deleted
    {
      if x != (q, row.version) {
        assert RowIn(reg, x.0, x.1).Some? && !RowIn(reg, x.0, x.1).value.deleted;
      }
    }
    forall p: Qualified, v: nat | p in finished && RowIn(src, p, v).Some?
      ensures (p, v) in written && RowIn(reg', p, v) == RowIn(src, p, v)
    {
      assert RowIn(reg, p, v) == RowIn(src, p, v);
    }
  }

  lemma CanWrite(env: Env, src: Reg, rank: (Qualified, nat) -> nat, reg: Reg, done: set<(Qualified, nat)>,
                 written: set<(Qualified, nat)>,
                 finished: set<Qualified>, q: Qualified, row: Row)
    requires Progress(env, src, rank, reg, done, written, finished, {}) && q !in finished
    requires RowIn(src, q, row.version) == Some(row) && Importing(reg.snap, q) && DepsWritten(q, row, written)
    ensures CanImport(env, src, rank, reg, written, q, row) && WrittenLive(reg, q, written)
  {
    hide Restorable, Towards, Written, RowAt, Importing, DepsWritten;
  }

  lemma DropProgress(env: Env, src: Reg, rank: (Qualified, nat) -> nat, reg: Reg, done: set<(Qualified, nat)>,
                     written: set<(Qualified, nat)>,
                     finished: set<Qualified>, q: Qualified, row: Row, c: Command)
    requires Progress(env, src, rank, reg, done, written, finished, {q}) && q !in finished
    requires CanDrop(env, src, rank, reg, q, row) && c.verb == DropVersion(q, Exact(row.version), false)
    requires GlobalMode(Step(env, reg, c).snap) != ReadonlyOverride
    ensures Progress(env, src, rank, Step(env, reg, c), done, written, finished, {q})
    ensures RowIn(Step(env, reg, c), q, row.version) == Some(row)
    ensures forall p: Qualified, v: nat | (p, v) != (q, row.version) ::
              RowIn(Step(env, reg, c), p, v) == RowIn(reg, p, v)
  {
    hide Restorable, Towards, Step, RowAt, CanDrop;
    DropRows(env, src, rank, reg, q, row, c);
    var reg' := Step(env, reg, c);
    assert RowIn(reg, q, row.version) == Some(row.(deleted := false)) && RowIn(src, q, row.version) == Some(row) by {
      DropParts(env, src, rank, reg, q, row);
    }
    forall x | x in written
      ensures WrittenRow(reg', src, written, x)
      ensures x.0 !in finished + {q} ==> RowIn(reg', x.0, x.1).Some? && !RowIn(reg', x.0, x.1).value.deleted
    {
      assert WrittenRow(reg, src, written, x);
    }
    forall p: Qualified, v: nat | p in finished && RowIn(src, p, v).Some?
      ensures (p, v) in written && RowIn(reg', p, v) == RowIn(src, p, v)
    {
      assert RowIn(reg, p, v) == RowIn(src, p, v);
    }
  }

  lemma DropParts(env: Env, src: Reg, rank: (Qualified, nat) -> nat, reg: Reg, q: Qualified, row: Row)
    requires CanDrop(env, src, rank, reg, q, row)
    ensures RowIn(reg, q, row.version) == Some(row.(deleted := false)) && RowIn(src, q, row.version) == Some(row)
  {
  }

  // ---------------- the replay ----------------

  method FindRow(rows: seq<Row>, version: nat) returns (found: Option<Row>)
    ensures found.Some? ==> found.value in rows && found.value.version == version
    ensures found.None? ==> forall row | row in rows :: row.version != version
  {
    var i := 0;
    while i < |rows|
      invariant 0 <= i <= |rows| && forall j | 0 <= j < i :: rows[j].version != version
    {
      if rows[i].version == version {
        return Some(rows[i]);
      }
      i := i + 1;
    }
    found := None;
  }

  /** What is known of the registry, the walk and the dump, together. */
  ghost predicate Walks(env: Env, src: Reg, rank: (Qualified, nat) -> nat, dump: Dump, reg: Reg,
                        done: set<(Qualified, nat)>, trace: seq<(Qualified, nat)>, finished: set<Qualified>) {
    && Describes(dump, src) && DepsFirst(src, trace) && done <= Universe(dump)
    && Progress(env, src, rank, reg, done, Set(trace), finished, {}) && Settled(dump, reg.snap, finished)
  }

  function Set(trace: seq<(Qualified, nat)>): set<(Qualified, nat)> {
    set x | x in trace
  }

  /** What the walk is in the middle of. */
  function Started(done: set<(Qualified, nat)>, trace: seq<(Qualified, nat)>): set<(Qualified, nat)> {
    done - Set(trace)
  }

  /** All of it ranks above the version the walk is asked for. */
  predicate Above(rank: (Qualified, nat) -> nat, started: set<(Qualified, nat)>, q: Qualified, version: nat) {
    forall x | x in started :: rank(x.0, x.1) > rank(q, version)
  }

  /** A version that has been entered and is not among those the walk is in the middle of has been written. */
  lemma DoneIsWritten(rank: (Qualified, nat) -> nat, done: set<(Qualified, nat)>, trace: seq<(Qualified, nat)>,
                      q: Qualified, version: nat)
    requires Above(rank, Started(done, trace), q, version) && (q, version) in done
    ensures (q, version) in trace
  {
    assert (q, version) in Started(done, trace) ==> rank(q, version) > rank(q, version);
  }

  lemma LeavesVersion(done0: set<(Qualified, nat)>, trace0: seq<(Qualified, nat)>,
                      done: set<(Qualified, nat)>, trace: seq<(Qualified, nat)>, x: (Qualified, nat))
    requires x !in done0 && Started(done, trace) == Started(done0, trace0) + {x}
    ensures Started(done, trace + [x]) == Started(done0, trace0)
  {
    assert Set(trace + [x]) == Set(trace) + {x};
  }

  /** No subject of the dump goes by the name of a context. */
  predicate PlainNames(dump: Dump) {
    forall q | q in dump.subjects :: !ContextOnly(q)
  }

  /** The settings that belong to no subject. */
  ghost predicate WideSame(before: Snap, after: Snap) {
    forall scope: Scope | !scope.Subject? ::
      GetConfig(after, scope) == GetConfig(before, scope) && GetMode(after, scope) == GetMode(before, scope)
  }

  /** Subjects that were being imported still are, and wider settings stay. */
  ghost predicate StillImporting(dump: Dump, before: Snap, after: Snap) {
    && (forall p: Qualified | Importing(before, p) :: Importing(after, p))
    && (OnlyImports(before) ==> OnlyImports(after)) && (OnlyOpened(before) ==> OnlyOpened(after))
    && (PlainNames(dump) ==> WideSame(before, after))
  }

  lemma ImportingLastsSelf(dump: Dump, snap: Snap)
    ensures StillImporting(dump, snap, snap)
  {
  }

  lemma StaysImporting(dump: Dump, before: Snap, after: Snap, q: Qualified)
    requires StillImporting(dump, before, after) && Importing(before, q)
    ensures Importing(after, q)
  {
  }

  lemma ImportingLasts(dump: Dump, a: Snap, b: Snap, c: Snap)
    requires StillImporting(dump, a, b) && StillImporting(dump, b, c)
    ensures StillImporting(dump, a, c)
  {
    hide Importing, OnlyImports, OnlyOpened, PlainNames, WideSame;
    if PlainNames(dump) {
      WideLasts(a, b, c);
    }
  }

  lemma WideLasts(a: Snap, b: Snap, c: Snap)
    requires WideSame(a, b) && WideSame(b, c)
    ensures WideSame(a, c)
  {
    forall scope: Scope | !scope.Subject?
      ensures GetConfig(c, scope) == GetConfig(a, scope) && GetMode(c, scope) == GetMode(a, scope)
    {
      assert GetConfig(b, scope) == GetConfig(a, scope) && GetMode(b, scope) == GetMode(a, scope);
    }
  }

  // ---------------- which subjects stay configured ----------------

  /** Not all of its versions are going to be hidden. */
  predicate KeepsOpen(dump: Dump, q: Qualified) {
    q in dump.subjects && (dump.subjects[q] == [] || exists row | row in dump.subjects[q] :: !row.deleted)
  }

  /** Of the subjects that are done, those that keep a live version have the setting they were imported with. */
  ghost predicate Settled(dump: Dump, snap: Snap, finished: set<Qualified>) {
    forall q | q in finished && !ContextOnly(q) :: ScopeOf(q) in snap.config <==> KeepsOpen(dump, q)
  }

  lemma OpeningSettles(dump: Dump, before: Snap, after: Snap, finished: set<Qualified>, q: Qualified, c: Config)
    requires Settled(dump, before, finished) && after.config == before.config[ScopeOf(q) := c]
    requires q !in finished || KeepsOpen(dump, q)
    ensures Settled(dump, after, finished)
  {
    hide KeepsOpen;
    forall p | p in finished && !ContextOnly(p)
      ensures ScopeOf(p) in after.config <==> KeepsOpen(dump, p)
    {
      assert ScopeOf(p) == ScopeOf(q) ==> p == q;
    }
  }

  lemma OpeningIsNarrow(before: Snap, after: Snap, q: Qualified, c: Config, m: Mode)
    requires !ContextOnly(q) && after.config == before.config[ScopeOf(q) := c]
             && after.mode == before.mode[ScopeOf(q) := m]
    ensures WideSame(before, after)
  {
  }

  /** A registry-wide READONLY_OVERRIDE lets nothing but modes change. */
  ghost predicate Frozen(reg: Reg, src: Reg) {
    GlobalMode(reg.snap) == ReadonlyOverride && Towards(reg, src)
  }

  /** Opening a subject then sets its mode, and is refused its config. */
  lemma OpensNothing(env: Env, src: Reg, reg: Reg, q: Qualified, a: Command, b: Command)
    requires Frozen(reg, src) && a.verb == ChangeMode(Some(q), Mode.Import, true)
             && b.verb == UpdateConfig(Some(q), UNNORMALIZED)
    ensures Decide(env, ViewOf(reg, a), a.verb).Success?
    ensures var mid := Step(env, reg, a);
            SameRows(reg, mid) && Decide(env, ViewOf(mid, b), b.verb).Failure? && Step(env, mid, b) == mid
  {
    hide Towards, SameRows, Decide, Step, RowAt;
    SettingKeeps(env, src, reg, {}, a);
    ModeIsLetThrough(env, reg, a);
    SubjectModeStays(env, reg, q, a);
    OverrideRefusesConfig(env, Step(env, reg, a), b);
  }

  lemma SubjectModeStays(env: Env, reg: Reg, q: Qualified, a: Command)
    requires a.verb == ChangeMode(Some(q), Mode.Import, true)
    ensures GlobalMode(Step(env, reg, a).snap) == GlobalMode(reg.snap)
  {
    var put := [PutMode(ScopeOf(q), Mode.Import)];
    assert put[1..] == [];
    assert ApplyAll(reg.snap, put) == ApplyAll(Apply(reg.snap, put[0]), []);
  }

  /** A walk is never frozen. */
  lemma WalksIsNotFrozen(env: Env, src: Reg, rank: (Qualified, nat) -> nat, dump: Dump, reg: Reg,
                         done: set<(Qualified, nat)>, trace: seq<(Qualified, nat)>, finished: set<Qualified>)
    requires Walks(env, src, rank, dump, reg, done, trace, finished)
    ensures !Frozen(reg, src)
  {
    hide Describes, DepsFirst, Restorable, Towards, Written, RowAt;
  }

  /** Opening a subject is let through otherwise. */
  lemma OpensSubject(env: Env, src: Reg, rank: (Qualified, nat) -> nat, dump: Dump, reg: Reg,
                     done: set<(Qualified, nat)>, trace: seq<(Qualified, nat)>, finished: set<Qualified>, q: Qualified,
                     a: Command, b: Command)
    requires Walks(env, src, rank, dump, reg, done, trace, finished)
    requires q in dump.subjects && (q !in finished || KeepsOpen(dump, q))
    requires a.verb == ChangeMode(Some(q), Mode.Import, true) && b.verb == UpdateConfig(Some(q), UNNORMALIZED)
    ensures Decide(env, ViewOf(reg, a), a.verb).Success? && Decide(env, ViewOf(Step(env, reg, a), b), b.verb).Success?
    ensures var end := Step(env, Step(env, reg, a), b);
            Walks(env, src, rank, dump, end, done, trace, finished) && SameRows(reg, end) && Importing(end.snap, q)
              && StillImporting(dump, reg.snap, end.snap)
  {
    hide Describes, DepsFirst, Restorable, Towards, Written, Step, Decide, RowAt, ScopeOf, KeepsOpen, Settled, WideSame;
    PreparesSubject(env, reg, q, a, b);
    var mid, end := Step(env, reg, a), Step(env, Step(env, reg, a), b);
    assert GlobalMode(mid.snap) != ReadonlyOverride && GlobalMode(end.snap) != ReadonlyOverride;
    SettingProgress(env, src, rank, reg, done, Set(trace), finished, {}, a);
    SettingProgress(env, src, rank, mid, done, Set(trace), finished, {}, b);
    RowsLast(reg, mid, end);
    var config := Merged(OrElse(GetConfig(reg.snap, ScopeOf(q)), NO_CONFIG), UNNORMALIZED);
    OpeningSettles(dump, reg.snap, end.snap, finished, q, config);
    if PlainNames(dump) {
      OpeningIsNarrow(reg.snap, end.snap, q, config, Mode.Import);
    }
  }

  lemma RowsLast(a: Reg, b: Reg, c: Reg)
    requires SameRows(a, b) && SameRows(b, c)
    ensures SameRows(a, c)
  {
    hide RowAt;
    forall q: Qualified, version: nat
      ensures RowIn(a, q, version) == RowIn(c, q, version)
    {
      assert RowIn(a, q, version) == RowIn(b, q, version) && RowIn(b, q, version) == RowIn(c, q, version);
    }
  }

  /** A version that was not done is of a subject that is not finished. */
  lemma EntersVersion(env: Env, src: Reg, rank: (Qualified, nat) -> nat, dump: Dump, reg: Reg,
                      done: set<(Qualified, nat)>, trace: seq<(Qualified, nat)>, finished: set<Qualified>, q: Qualified,
                      row: Row)
    requires Walks(env, src, rank, dump, reg, done, trace, finished) && (q, row.version) !in done
    requires RowIn(src, q, row.version) == Some(row) && q in dump.subjects && row in dump.subjects[q]
    ensures Walks(env, src, rank, dump, reg, done + {(q, row.version)}, trace, finished)
    ensures q !in finished && Started(done + {(q, row.version)}, trace) == Started(done, trace) + {(q, row.version)}
  {
    hide Describes, DepsFirst, Restorable, Towards, Written, RowAt, Settled;
  }

  /** What a version of the source refers to is in the dump, and ranks lower. */
  lemma FindsTarget(env: Env, src: Reg, rank: (Qualified, nat) -> nat, dump: Dump, q: Qualified, row: Row, r: Reference)
    returns (found: Row)
    requires Restorable(env, src, rank) && Describes(dump, src) && RowIn(src, q, row.version) == Some(row)
             && r in row.content.refs
    ensures var target := RefTarget(q.ctx, r);
            && target in dump.subjects && found in dump.subjects[target] && found.version == AtLeastOne(r.version)
            && rank(target, found.version) < rank(q, row.version) && KeepsOpen(dump, target)
  {
    hide Good, RowAt, ReadableOf;
    assert RowFits(env, src, rank, q, row);
    assert RefFits(src, rank, q, row.version, r);
    var target := RefTarget(q.ctx, r);
    found := RowIn(src, target, r.version).value;
    assert target in dump.order;
    assert ListsSubject(dump.subjects[target], src, target);
    ItsVersion(src, target, r.version);
  }

  lemma ItsVersion(reg: Reg, q: Qualified, version: nat)
    ensures RowIn(reg, q, version).Some? ==> RowIn(reg, q, version).value.version == version
  {
  }

  lemma ListedIsRow(dump: Dump, src: Reg, q: Qualified, row: Row)
    requires Describes(dump, src) && q in dump.subjects && row in dump.subjects[q]
    ensures RowIn(src, q, row.version) == Some(row)
  {
    hide RowAt;
    assert ListsSubject(dump.subjects[q], src, q);
    var i :| 0 <= i < |dump.subjects[q]| && dump.subjects[q][i] == row;
  }

  lemma ShrinksBy(dump: Dump, before: set<(Qualified, nat)>, after: set<(Qualified, nat)>, x: (Qualified, nat))
    requires x in Universe(dump) && x !in before && before + {x} <= after
    ensures |Universe(dump) - after| < |Universe(dump) - before|
  {
    hide Universe;
    var less, more := Universe(dump) - after, Universe(dump) - before;
    assert less <= more - {x};
    Fewer(less, more - {x});
    assert |more - {x}| == |more| - 1;
  }

  lemma {:induction false} Fewer(a: set<(Qualified, nat)>, b: set<(Qualified, nat)>)
    requires a <= b
    ensures |a| <= |b|
  {
    if x :| x in a {
      Fewer(a - {x}, b - {x});
    }
  }

  /** With all it refers to written, the version is let through. */
  lemma WritesVersion(env: Env, src: Reg, rank: (Qualified, nat) -> nat, dump: Dump, reg: Reg,
                      done: set<(Qualified, nat)>, trace: seq<(Qualified, nat)>, finished: set<Qualified>, q: Qualified,
                      row: Row, c: Command)
    requires Walks(env, src, rank, dump, reg, done, trace, finished) && (q, row.version) in done && q !in finished
    requires RowIn(src, q, row.version) == Some(row) && Importing(reg.snap, q) && DepsWritten(q, row, Set(trace))
    requires c.verb == Register(q, DraftOf(row), false)
    ensures Decide(env, ViewOf(reg, c), c.verb).Success?
    ensures Walks(env, src, rank, dump, Step(env, reg, c), done, trace + [(q, row.version)], finished)
    ensures StillImporting(dump, reg.snap, Step(env, reg, c).snap)
  {
    hide Progress, Describes, DepsFirst, RowAt, Step, Decide, DraftOf, DepsWritten, KeepsOpen;
    WriteProgress(env, src, rank, reg, done, Set(trace), finished, q, row, c);
    TraceGrows(src, trace, q, row);
    assert Set(trace + [(q, row.version)]) == Set(trace) + {(q, row.version)};
  }

  class Restorer {
    const env: Env
    const now: int
    const guid: string
    var reg: Reg
    var done: set<(Qualified, nat)>
    ghost var trace: seq<(Qualified, nat)>
    ghost var finished: set<Qualified>
    ghost var filled: Snap             // as the rows leave it, before the settings follow

    constructor (env: Env, reg: Reg, now: int, guid: string)
      ensures this.env == env && this.reg == reg && done == {} && trace == [] && finished == {}
    {
      this.env, this.reg, this.now, this.guid := env, reg, now, guid;
      done, trace, finished, filled := {}, [], {}, reg.snap;
    }

    /** One call of the registry: the verb is decided and, unless refused, committed. */
    method Call(verb: Verb) returns (ok: bool)
      modifies this`reg
      ensures reg == Step(env, old(reg), Command(verb, now, guid))
      ensures ok == Decide(env, ViewOf(old(reg), Command(verb, now, guid)), verb).Success?
    {
      var plan := Decide(env, ViewOf(reg, Command(verb, now, guid)), verb);
      ok := plan.Success?;
      if ok {
        reg := Commit(reg, plan.value);
      }
    }

    /** IMPORT mode, and no normalizing, for a subject about to be written; stops at the first that is refused. */
    method OpenSubject(q: Qualified, ghost dump: Dump, ghost src: Reg, ghost rank: (Qualified, nat) -> nat)
      returns (ok: bool)
      requires Frozen(reg, src) || Walks(env, src, rank, dump, reg, done, trace, finished)
      requires q in dump.subjects && (q !in finished || KeepsOpen(dump, q))
      modifies this`reg
      ensures ok == !Frozen(old(reg), src) && SameRows(old(reg), reg)
      ensures ok ==> Walks(env, src, rank, dump, reg, done, trace, finished)
      ensures ok ==> Importing(reg.snap, q) && StillImporting(dump, old(reg).snap, reg.snap)
    {
      hide Walks, Step, Decide, SameRows, Importing, StillImporting, Frozen, KeepsOpen;
      ghost var a, b := Command(ChangeMode(Some(q), Mode.Import, true), now, guid),
        Command(UpdateConfig(Some(q), UNNORMALIZED), now, guid);
      if Frozen(reg, src) {
        OpensNothing(env, src, reg, q, a, b);
      } else {
        OpensSubject(env, src, rank, dump, reg, done, trace, finished, q, a, b);
      }
      ok := Call(ChangeMode(Some(q), Mode.Import, true));
      if ok {
        ok := Call(UpdateConfig(Some(q), UNNORMALIZED));
      }
    }

    /** A version, after everything it refers to. */
    method WriteVersion(dump: Dump, q: Qualified, row: Row, ghost src: Reg, ghost rank: (Qualified, nat) -> nat)
      returns (ok: bool)
      requires Walks(env, src, rank, dump, reg, done, trace, finished)
               && Above(rank, Started(done, trace), q, row.version)
      requires q in dump.subjects && row in dump.subjects[q] && Importing(reg.snap, q)
      modifies this`reg, this`done, this`trace
      ensures ok && Walks(env, src, rank, dump, reg, done, trace, finished) && (q, row.version) in trace
      ensures old(trace) <= trace && old(done) <= done && Started(done, trace) == old(Started(done, trace))
      ensures StillImporting(dump, old(reg).snap, reg.snap)
      decreases |Universe(dump) - done|, 0
    {
      hide *;
      NoDeps(q, row, trace);
      WalksParts(env, src, rank, dump, reg, done, trace, finished);
      ListedIsRow(dump, src, q, row);
      ImportingLastsSelf(dump, reg.snap);
      if (q, row.version) in done {
        DoneIsWritten(rank, done, trace, q, row.version);
        return true;
      }
      ghost var done0, started := done, Started(done, trace);
      EntersVersion(env, src, rank, dump, reg, done, trace, finished, q, row);
      done := done + {(q, row.version)};
      Listed(dump, q, row);
      var i := 0;
      while i < |row.content.refs|
        invariant 0 <= i <= |row.content.refs| && Walks(env, src, rank, dump, reg, done, trace, finished)
        invariant old(trace) <= trace && done0 + {(q, row.version)} <= done
                  && Started(done, trace) == started + {(q, row.version)}
        invariant StillImporting(dump, old(reg).snap, reg.snap)
        invariant WroteDeps(q, row, trace, i)
      {
        ghost var s1, before := reg.snap, trace;
        ShrinksBy(dump, done0, done, (q, row.version));
        ok := WriteReference(dump, q, row, row.content.refs[i], src, rank, started);
        ImportingLasts(dump, old(reg).snap, s1, reg.snap);
        OneMoreDep(q, row, before, trace, i);
        i := i + 1;
      }
      ghost var s3 := reg.snap;
      StaysImporting(dump, old(reg).snap, s3, q);
      LeavesVersion(done0, old(trace), done, trace, (q, row.version));
      ok := RegisterRow(q, row, dump, src, rank);
      ImportingLasts(dump, old(reg).snap, s3, reg.snap);
    }

    /** The registration itself. */
    method RegisterRow(q: Qualified, row: Row, ghost dump: Dump, ghost src: Reg, ghost rank: (Qualified, nat) -> nat)
      returns (ok: bool)
      requires Walks(env, src, rank, dump, reg, done, trace, finished) && (q, row.version) in done && q !in finished
      requires RowIn(src, q, row.version) == Some(row) && Importing(reg.snap, q)
      requires WroteDeps(q, row, trace, |row.content.refs|)
      modifies this`reg, this`trace
      ensures ok && Walks(env, src, rank, dump, reg, done, trace, finished) && trace == old(trace) + [(q, row.version)]
      ensures StillImporting(dump, old(reg).snap, reg.snap)
    {
      hide Walks, Importing, RowAt, Step, Decide, DraftOf, RefTarget, AtLeastOne, StillImporting;
      AllDeps(q, row, trace);
      WritesVersion(env, src, rank, dump, reg, done, trace, finished, q, row,
                    Command(Register(q, DraftOf(row), false), now, guid));
      ok := Call(Register(q, DraftOf(row), false));
      trace := trace + [(q, row.version)];
    }

    /** The version a reference names, if the dump has it. */
    method WriteReference(dump: Dump, q: Qualified, row: Row, r: Reference,
                          ghost src: Reg, ghost rank: (Qualified, nat) -> nat, ghost started: set<(Qualified, nat)>)
                            returns (ok: bool)
      requires Walks(env, src, rank, dump, reg, done, trace, finished)
      requires Started(done, trace) == started + {(q, row.version)} && Above(rank, started, q, row.version)
      requires RowIn(src, q, row.version) == Some(row) && r in row.content.refs
      modifies this`reg, this`done, this`trace
      ensures ok && Walks(env, src, rank, dump, reg, done, trace, finished)
              && (RefTarget(q.ctx, r), AtLeastOne(r.version)) in trace
      ensures old(trace) <= trace && old(done) <= done && Started(done, trace) == old(Started(done, trace))
      ensures StillImporting(dump, old(reg).snap, reg.snap)
      decreases |Universe(dump) - done|, 1
    {
      hide Walks, Importing, RowAt, Restorable, Universe, Describes, StillImporting, KeepsOpen;
      ok := true;
      WalksParts(env, src, rank, dump, reg, done, trace, finished);
      var target := RefTarget(q.ctx, r);
      ghost var expected := FindsTarget(env, src, rank, dump, q, row, r);
      if target in dump.subjects {
        var found := FindRow(dump.subjects[target], AtLeastOne(r.version));
        if found.Some? {
          WalksIsNotFrozen(env, src, rank, dump, reg, done, trace, finished);
          ok := OpenSubject(target, dump, src, rank);
          if !ok {
            return;
          }
          ghost var s2 := reg.snap;
          ok := WriteVersion(dump, target, found.value, src, rank);
          ImportingLasts(dump, old(reg).snap, s2, reg.snap);
        }
      }
    }

    /** Every version of a subject. */
    method WriteSubject(dump: Dump, q: Qualified, ghost src: Reg, ghost rank: (Qualified, nat) -> nat)
      returns (ok: bool)
      requires Frozen(reg, src) || Walks(env, src, rank, dump, reg, done, trace, finished)
      requires Started(done, trace) == {} && q in dump.subjects && q !in finished
      modifies this`reg, this`done, this`trace
      ensures ok == !Frozen(old(reg), src) && (!ok ==> SameRows(old(reg), reg))
      ensures ok ==> Walks(env, src, rank, dump, reg, done, trace, finished) && Started(done, trace) == {}
      ensures ok ==> Importing(reg.snap, q) && (forall row | row in dump.subjects[q] :: (q, row.version) in trace)
      ensures ok ==> StillImporting(dump, old(reg).snap, reg.snap)
    {
      hide Walks, Importing, StillImporting, Universe, Frozen, SameRows;
      ok := OpenSubject(q, dump, src, rank);
      if !ok {
        return;
      }
      var rows, i := dump.subjects[q], 0;
      while i < |rows|
        invariant 0 <= i <= |rows| && ok && Walks(env, src, rank, dump, reg, done, trace, finished)
                  && Started(done, trace) == {}
        invariant Importing(reg.snap, q) && StillImporting(dump, old(reg).snap, reg.snap)
        invariant forall j | 0 <= j < i :: (q, rows[j].version) in trace
      {
        ghost var s1, before := reg.snap, trace;
        ok := WriteVersion(dump, q, rows[i], src, rank);
        StaysImporting(dump, s1, reg.snap, q);
        ImportingLasts(dump, old(reg).snap, s1, reg.snap);
        assert forall x | x in before :: x in trace;
        i := i + 1;
      }
    }

    /** The soft deletes of a subject, replayed once all its versions are there. */
    method ReplayDeletes(dump: Dump, q: Qualified, ghost src: Reg, ghost rank: (Qualified, nat) -> nat)
      requires Walks(env, src, rank, dump, reg, done, trace, finished) && q in dump.subjects && q !in finished
               && Importing(reg.snap, q)
      requires forall row | row in dump.subjects[q] :: (q, row.version) in trace
      modifies this`reg, this`finished
      ensures Walks(env, src, rank, dump, reg, done, trace, finished) && finished == old(finished) + {q}
      ensures OnlyImports(old(reg).snap) ==> OnlyImports(reg.snap)
      ensures OnlyOpened(old(reg).snap) ==> OnlyOpened(reg.snap)
      ensures WideSame(old(reg).snap, reg.snap)
    {
      hide Walks, Importing, OnlyImports, OnlyOpened, Closing, Step, Decide, WideSame;
      var rows, i := dump.subjects[q], 0;
      StartsClosing(env, src, rank, dump, reg, done, trace, finished, q);
      WideSelf(reg.snap);
      while i < |rows|
        invariant 0 <= i <= |rows| && finished == old(finished)
                  && Closing(env, src, rank, dump, reg, done, trace, finished, q, i)
        invariant (OnlyImports(old(reg).snap) ==> OnlyImports(reg.snap))
                  && (OnlyOpened(old(reg).snap) ==> OnlyOpened(reg.snap)) && WideSame(old(reg).snap, reg.snap)
      {
        ghost var before := reg.snap;
        if rows[i].deleted {
          ReplaysDelete(env, src, rank, dump, reg, done, trace, finished, q, i,
                        Command(DropVersion(q, Exact(rows[i].version), false), now, guid));
          var ok := Call(DropVersion(q, Exact(rows[i].version), false));
          WideLasts(old(reg).snap, before, reg.snap);
        } else {
          SkipsLive(env, src, rank, dump, reg, done, trace, finished, q, i);
        }
        i := i + 1;
      }
      ClosesSubject(env, src, rank, dump, reg, done, trace, finished, q);
      finished := finished + {q};
    }

    /**
     The whole restore: settings of wider scopes, then every subject's versions
     and deletes, then the settings of subjects and the modes, which a delete of
     the last live version would have dropped. It stops at the first refusal.
     */
    method Replay(dump: Dump, ghost src: Reg, ghost rank: (Qualified, nat) -> nat) returns (ok: bool)
      requires Restorable(env, src, rank) && Describes(dump, src) && Towards(reg, src)
      requires done == {} && trace == [] && finished == {}
      modifies this
      ensures ok ==> SameRows(reg, src) && Towards(reg, src) && DepsFirst(src, trace)
      ensures !ok ==> SameRows(reg, old(reg)) || SameRows(reg, src)
      ensures GlobalMode(old(reg).snap) == ReadonlyOverride ==> SameRows(reg, old(reg))
      ensures OnlyImports(old(reg).snap) ==> ok && SettingsFrom(dump, filled, reg.snap)
      ensures OnlyImports(old(reg).snap) && OnlyOpened(old(reg).snap) ==> OnlyOpened(filled)
      ensures OnlyImports(old(reg).snap) ==> Settled(dump, filled, set q | q in dump.order)
      ensures OnlyImports(old(reg).snap) && PlainNames(dump) ==>
                WideFrom(old(reg).snap, filled, dump.configs)
    {
      hide Restorable, Describes, Towards, Walks, Importing, OnlyImports, OnlyOpened, SettingsFrom, SameRows, Good,
        Universe, Step, Decide, DepsFirst, Frozen, WideSame, Settled, PlainNames, WideFrom;
      TowardsIsGood(reg, src);
      ok := ApplyConfigs(dump.configs, false);
      RowsReturn(old(reg), reg);
      if !ok {
        return;
      }
      StartsReplay(env, src, rank, dump, old(reg), reg);
      WideConfigs(old(reg).snap, reg.snap, dump.configs);
      ghost var start := reg;
      WideSelf(reg.snap);
      var i := 0;
      while i < |dump.order|
        invariant 0 <= i <= |dump.order| && Started(done, trace) == {}
                  && (OnlyImports(start.snap) ==> OnlyImports(reg.snap))
        invariant (OnlyOpened(start.snap) ==> OnlyOpened(reg.snap))
                  && (PlainNames(dump) ==> WideSame(start.snap, reg.snap))
        invariant Frozen(start, src) || finished == set q | q in dump.order[..i]
        invariant if Frozen(start, src) then i == 0 && reg == start && trace == [] && finished == {}
                  else Walks(env, src, rank, dump, reg, done, trace, finished)
      {
        var q := dump.order[i];
        OrderFits(dump, src, i);
        ghost var s1 := reg.snap;
        if !Frozen(start, src) {
          WalksIsNotFrozen(env, src, rank, dump, reg, done, trace, finished);
        }
        ok := WriteSubject(dump, q, src, rank);
        if !ok {
          RowsReturn(start, reg);
          RowsLast(reg, start, old(reg));
          return;
        }
        ModesLast(dump, s1, reg.snap);
        ghost var s2 := reg.snap;
        ReplayDeletes(dump, q, src, rank);
        if PlainNames(dump) {
          WideLasts(s1, s2, reg.snap);
          WideLasts(start.snap, s1, reg.snap);
        }
        assert dump.order[..i + 1] == dump.order[..i] + [q];
        i := i + 1;
      }
      assert dump.order[..i] == dump.order;
      if Frozen(start, src) {
        NothingToRestore(dump, reg, src);
      } else {
        WalkEnds(env, src, rank, dump, reg, done, trace, finished);
      }
      if !Frozen(start, src) && PlainNames(dump) {
        WideOnTop(old(reg).snap, start.snap, reg.snap, dump.configs);
      }
      filled := reg.snap;
      ok := ReplaySettings(dump, src);
      if Frozen(start, src) {
        BackAgain(reg, src, start, old(reg));
      }
    }

    /** What follows the rows: settings only. */
    method ReplaySettings(dump: Dump, ghost src: Reg) returns (ok: bool)
      requires Towards(reg, src) && SameRows(reg, src)
      modifies this`reg
      ensures Towards(reg, src) && SameRows(reg, src)
      ensures OnlyImports(old(reg).snap) ==> ok && SettingsFrom(dump, old(reg).snap, reg.snap)
    {
      hide SameRows, Towards, Good, OnlyImports, Step, Decide, PutConfigs, PutModes, Unconfigured, Modeless;
      ClearConfigs(dump, src);
      ghost var before := reg;
      TowardsIsGood(reg, src);
      ok := ApplyConfigs(dump.configs, true);
      TowardsStays(before, reg, src);
      RowsReturn(before, reg);
      RowsLast(reg, before, src);
      if ok {
        SetModes(dump, src);
        ClearModes(dump, src);
      }
    }

    /** The configuration a subject was imported with goes, unless the dump has one for it. */
    method ClearConfigs(dump: Dump, ghost src: Reg)
      requires Towards(reg, src) && SameRows(reg, src)
      modifies this`reg
      ensures Towards(reg, src) && SameRows(reg, src) && reg.snap.mode == old(reg).snap.mode
      ensures OnlyImports(reg.snap) == OnlyImports(old(reg).snap)
      ensures OnlyImports(old(reg).snap) ==> reg.snap.config == old(reg).snap.config - Unconfigured(dump, |dump.order|)
    {
      hide SameRows, Towards, OnlyImports, Step, Decide, Unconfigured;
      var i := 0;
      NoneYet(dump);
      while i < |dump.order|
        invariant 0 <= i <= |dump.order| && Towards(reg, src) && SameRows(reg, src)
                  && reg.snap.mode == old(reg).snap.mode
        invariant OnlyImports(old(reg).snap) ==> reg.snap.config == old(reg).snap.config - Unconfigured(dump, i)
      {
        OneMoreConfig(dump, i);
        if forall k | 0 <= k < |dump.configs| :: dump.configs[k].0 != Some(dump.order[i]) {
          ghost var before := reg;
          SameModesSame(old(reg).snap, reg.snap);
          ConfigModes(env, reg, Command(ClearConfig(Some(dump.order[i])), now, guid));
          var _ := CallSetting(ClearConfig(Some(dump.order[i])), src);
          RowsReturn(before, reg);
          RowsLast(reg, before, src);
        }
        i := i + 1;
      }
      SameModesSame(old(reg).snap, reg.snap);
    }

    method SetModes(dump: Dump, ghost src: Reg)
      requires Towards(reg, src) && SameRows(reg, src)
      modifies this`reg
      ensures Towards(reg, src) && SameRows(reg, src) && reg.snap.config == old(reg).snap.config
      ensures reg.snap.mode == PutModes(old(reg).snap.mode, dump.modes)
    {
      hide SameRows, Towards, Step, Decide;
      var i := 0;
      while i < |dump.modes|
        invariant 0 <= i <= |dump.modes| && Towards(reg, src) && SameRows(reg, src)
                  && reg.snap.config == old(reg).snap.config
        invariant reg.snap.mode == PutModes(old(reg).snap.mode, dump.modes[..i])
      {
        ghost var before, c := reg, Command(ChangeMode(dump.modes[i].0, dump.modes[i].1, true), now, guid);
        ModeModes(env, reg, c);
        var _ := CallSetting(ChangeMode(dump.modes[i].0, dump.modes[i].1, true), src);
        RowsReturn(before, reg);
        RowsLast(reg, before, src);
        assert dump.modes[..i + 1][..i] == dump.modes[..i];
        i := i + 1;
      }
      assert dump.modes[..i] == dump.modes;
    }

    method ClearModes(dump: Dump, ghost src: Reg)
      requires Towards(reg, src) && SameRows(reg, src)
      modifies this`reg
      ensures Towards(reg, src) && SameRows(reg, src) && reg.snap.config == old(reg).snap.config
      ensures reg.snap.mode == old(reg).snap.mode - Modeless(dump, |dump.order|)
    {
      hide SameRows, Towards, Step, Decide, Modeless;
      var i := 0;
      NoneYet(dump);
      while i < |dump.order|
        invariant 0 <= i <= |dump.order| && Towards(reg, src) && SameRows(reg, src)
                  && reg.snap.config == old(reg).snap.config
        invariant reg.snap.mode == old(reg).snap.mode - Modeless(dump, i)
      {
        OneMoreMode(dump, i);
        if forall k | 0 <= k < |dump.modes| :: dump.modes[k].0 != Some(dump.order[i]) {
          ghost var before := reg;
          ModeModes(env, reg, Command(ClearMode(dump.order[i]), now, guid));
          var _ := CallSetting(ClearMode(dump.order[i]), src);
          RowsReturn(before, reg);
          RowsLast(reg, before, src);
        }
        i := i + 1;
      }
    }

    method CallSetting(verb: Verb, ghost src: Reg) returns (ok: bool)
      requires Towards(reg, src) && SettingVerb(verb)
      modifies this`reg
      ensures reg == Step(env, old(reg), Command(verb, now, guid)) && Towards(reg, src) && SameRows(old(reg), reg)
      ensures ok == Decide(env, ViewOf(old(reg), Command(verb, now, guid)), verb).Success?
    {
      hide SameRows, Towards, Step, Decide, SettingVerb;
      SettingKeeps(env, src, reg, {}, Command(verb, now, guid));
      ok := Call(verb);
    }

    /** Settings that are not about rows; stops at the first that is refused. */
    method ApplyConfigs(configs: seq<(Option<Qualified>, Config)>, ofSubjects: bool) returns (ok: bool)
      requires Good(reg)
      modifies this`reg
      ensures Good(reg) && SameRows(old(reg), reg) && reg.snap.mode == old(reg).snap.mode
      ensures forall ctx: string :: At(reg, ctx).refby == At(old(reg), ctx).refby
      ensures OnlyImports(old(reg).snap) ==> ok
      ensures ok ==> reg.snap.config == PutConfigs(old(reg).snap.config, configs, ofSubjects)
    {
      hide Good, Step, Decide, SameRows, OnlyImports;
      ok := true;
      var i := 0;
      RowsStay(reg);
      while i < |configs|
        invariant 0 <= i <= |configs| && ok && Good(reg) && SameRows(old(reg), reg)
                  && reg.snap.mode == old(reg).snap.mode
        invariant forall ctx: string :: At(reg, ctx).refby == At(old(reg), ctx).refby
        invariant reg.snap.config == PutConfigs(old(reg).snap.config, configs[..i], ofSubjects)
      {
        assert configs[..i + 1][..i] == configs[..i];
        if OfSubject(configs[i].0) == ofSubjects {
          ghost var before, c := reg, Command(UpdateConfig(configs[i].0, configs[i].1), now, guid);
          SettingStep(env, reg, c);
          ConfigModes(env, reg, c);
          LetThrough(env, reg, c);
          SameModesSame(reg.snap, old(reg).snap);
          ok := Call(UpdateConfig(configs[i].0, configs[i].1));
          RowsLast(old(reg), before, reg);
          if !ok {
            return;
          }
        }
        i := i + 1;
      }
      assert configs[..i] == configs;
    }
  }

  // ---------------- settings ----------------

  /** The dumped configurations, of subjects or of wider scopes, put on top of what is there. */
  function PutConfigs(config: map<Scope, Config>, configs: seq<(Option<Qualified>, Config)>,
                      ofSubjects: bool): map<Scope, Config> {
    if configs == [] then config
    else
      var last := configs[|configs| - 1];
      var before := PutConfigs(config, configs[..|configs| - 1], ofSubjects);
      if OfSubject(last.0) != ofSubjects then before
      else before[ScopeFor(last.0) := Merged(OrElse(Lookup(before, ScopeFor(last.0)), NO_CONFIG), last.1)]
  }

  function PutModes(mode: map<Scope, Mode>, modes: seq<(Option<Qualified>, Mode)>): map<Scope, Mode> {
    if modes == [] then mode
    else
      var last := modes[|modes| - 1];
      PutModes(mode, modes[..|modes| - 1])[ScopeFor(last.0) := last.1]
  }

  /** Subjects, of the first `n`, for which the dump has no configuration. */
  function Unconfigured(dump: Dump, n: nat): set<Scope>
    requires n <= |dump.order|
  {
    set j | 0 <= j < n && (forall k | 0 <= k < |dump.configs| :: dump.configs[k].0 != Some(dump.order[j])) ::
      ScopeOf(dump.order[j])
  }

  function Modeless(dump: Dump, n: nat): set<Scope>
    requires n <= |dump.order|
  {
    set j | 0 <= j < n && (forall k | 0 <= k < |dump.modes| :: dump.modes[k].0 != Some(dump.order[j])) ::
      ScopeOf(dump.order[j])
  }

  lemma NoneYet(dump: Dump)
    ensures Unconfigured(dump, 0) == {} && Modeless(dump, 0) == {}
  {
  }

  lemma OneMoreConfig(dump: Dump, i: nat)
    requires i < |dump.order|
    ensures Unconfigured(dump, i + 1) == Unconfigured(dump, i) +
            if forall k | 0 <= k < |dump.configs| ::
              dump.configs[k].0 != Some(dump.order[i]) then {ScopeOf(dump.order[i])} else {}
  {
  }

  lemma OneMoreMode(dump: Dump, i: nat)
    requires i < |dump.order|
    ensures Modeless(dump, i + 1) == Modeless(dump, i) +
            if forall k | 0 <= k < |dump.modes| :: dump.modes[k].0 != Some(dump.order[i]) then {ScopeOf(dump.order[i])}
              else {}
  {
  }

  /** What the settings are when they have followed the rows, given what they were. */
  ghost predicate SettingsFrom(dump: Dump, was: Snap, snap: Snap) {
    && snap.config == PutConfigs(was.config - Unconfigured(dump, |dump.order|), dump.configs, true)
    && snap.mode == PutModes(was.mode, dump.modes) - Modeless(dump, |dump.order|)
  }

  /** Configurations of wider scopes touch no subject's, and those of subjects no wider one. */
  lemma {:induction false} PutConfigsElsewhere(config: map<Scope, Config>, configs: seq<(Option<Qualified>, Config)>,
                                               ofSubjects: bool,
                                               scope: Scope)
    requires scope.Subject? != ofSubjects
    ensures Lookup(PutConfigs(config, configs, ofSubjects), scope) == Lookup(config, scope)
    decreases configs
  {
    if configs != [] {
      PutConfigsElsewhere(config, configs[..|configs| - 1], ofSubjects, scope);
    }
  }

  lemma WideConfigs(before: Snap, after: Snap, configs: seq<(Option<Qualified>, Config)>)
    requires after.config == PutConfigs(before.config, configs, false)
    ensures OnlyOpened(before) ==> OnlyOpened(after)
  {
    hide PutConfigs;
    forall scope: Scope | scope.Subject?
      ensures Lookup(after.config, scope) == Lookup(before.config, scope)
    {
      PutConfigsElsewhere(before.config, configs, false, scope);
    }
    assert forall scope: Scope | scope in after.config
           && scope.Subject? :: Lookup(after.config, scope) == Some(after.config[scope]);
  }

  /** The wider settings when the rows are there: those there were, with the dump's configurations on top. */
  ghost predicate WideFrom(before: Snap, after: Snap, configs: seq<(Option<Qualified>, Config)>) {
    forall scope: Scope | !scope.Subject? ::
      && GetConfig(after, scope) == Lookup(PutConfigs(before.config, configs, false), scope)
      && GetMode(after, scope) == GetMode(before, scope)
  }

  lemma WideOnTop(before: Snap, start: Snap, after: Snap, configs: seq<(Option<Qualified>, Config)>)
    requires start.config == PutConfigs(before.config, configs, false) && start.mode == before.mode
             && WideSame(start, after)
    ensures WideFrom(before, after, configs)
  {
    hide PutConfigs;
  }

  /** The dump speaks of a scope once. */
  predicate Unambiguous(dump: Dump) {
    && (forall i, j | 0 <= i < j < |dump.configs| :: dump.configs[i].0 != dump.configs[j].0)
    && (forall i, j | 0 <= i < j < |dump.modes| :: dump.modes[i].0 != dump.modes[j].0)
  }

  lemma ScopesDiffer(a: Option<Qualified>, b: Option<Qualified>)
    ensures ScopeFor(a) == ScopeFor(b) <==> a == b
  {
  }

  lemma {:induction false} PutConfigsAt(config: map<Scope, Config>, configs: seq<(Option<Qualified>, Config)>,
                                        ofSubjects: bool,
                                        target: Option<Qualified>)
    requires OfSubject(target) == ofSubjects && forall i, j | 0 <= i < j < |configs| :: configs[i].0 != configs[j].0
    ensures var scope, now := ScopeFor(target), Lookup(PutConfigs(config, configs, ofSubjects), ScopeFor(target));
            && (forall k | 0 <= k < |configs| && configs[k].0 == target ::
                  now == Some(Merged(OrElse(Lookup(config, scope), NO_CONFIG), configs[k].1)))
            && ((forall k | 0 <= k < |configs| :: configs[k].0 != target) ==> now == Lookup(config, scope))
    decreases configs
  {
    if configs != [] {
      var most, last := configs[..|configs| - 1], configs[|configs| - 1];
      PutConfigsAt(config, most, ofSubjects, target);
      ScopesDiffer(last.0, target);
      assert forall k | 0 <= k < |most| :: most[k] == configs[k];
    }
  }

  lemma {:induction false} PutModesAt(mode: map<Scope, Mode>, modes: seq<(Option<Qualified>, Mode)>,
                                      target: Option<Qualified>)
    requires forall i, j | 0 <= i < j < |modes| :: modes[i].0 != modes[j].0
    ensures var scope, now := ScopeFor(target), Lookup(PutModes(mode, modes), ScopeFor(target));
            && (forall k | 0 <= k < |modes| && modes[k].0 == target :: now == Some(modes[k].1))
            && ((forall k | 0 <= k < |modes| :: modes[k].0 != target) ==> now == Lookup(mode, scope))
    decreases modes
  {
    if modes != [] {
      var most, last := modes[..|modes| - 1], modes[|modes| - 1];
      PutModesAt(mode, most, target);
      ScopesDiffer(last.0, target);
      assert forall k | 0 <= k < |most| :: most[k] == modes[k];
    }
  }

  lemma IsUnconfigured(dump: Dump, q: Qualified)
    requires q in dump.order
    ensures ScopeOf(q) in Unconfigured(dump, |dump.order|) <==>
              forall k | 0 <= k < |dump.configs| :: dump.configs[k].0 != Some(q)
    ensures ScopeOf(q) in Modeless(dump, |dump.order|) <==>
              forall k | 0 <= k < |dump.modes| :: dump.modes[k].0 != Some(q)
  {
    var j :| 0 <= j < |dump.order| && dump.order[j] == q;
    assert forall p: Qualified | ScopeOf(p) == ScopeOf(q) :: p == q;
  }

  /**
   A subject's configuration ends as the dump has it exactly if the dump says
   whether to normalize, or all of the subject's versions are hidden. If not,
   it keeps the setting it was imported with.
   */
  lemma RestoredConfig(dump: Dump, was: Snap, snap: Snap, k: nat)
    requires SettingsFrom(dump, was, snap) && Unambiguous(dump) && OnlyOpened(was)
             && Settled(dump, was, set q | q in dump.order)
    requires k < |dump.configs| && OfSubject(dump.configs[k].0) && dump.configs[k].0.value in dump.order
    ensures var q, c := dump.configs[k].0.value, dump.configs[k].1;
            && GetConfig(snap, ScopeOf(q)) == Reimported(Some(c), KeepsOpen(dump, q))
            && (GetConfig(snap, ScopeOf(q)) == Some(c) <==> c.normalize.Some? || !KeepsOpen(dump, q))
  {
    hide PutConfigs, Unconfigured, Modeless, PutModes, KeepsOpen;
    IsUnconfigured(dump, dump.configs[k].0.value);
    PutConfigsAt(was.config - Unconfigured(dump, |dump.order|), dump.configs, true, dump.configs[k].0);
  }

  /** What becomes of a configuration on top of the one a subject is imported with, if it is still there. */
  function Reimported(c: Option<Config>, live: bool): Option<Config> {
    if c.Some? && live then Some(c.value.(normalize := Some(OrElse(c.value.normalize, false)))) else c
  }

  /** A subject of the dump has the mode the dump says, or none; and no configuration if the dump has none. */
  lemma RestoredSettings(dump: Dump, was: Snap, snap: Snap, q: Qualified)
    requires SettingsFrom(dump, was, snap) && Unambiguous(dump) && q in dump.order
    ensures forall k | 0 <= k < |dump.modes| && dump.modes[k].0 == Some(q) ::
              GetMode(snap, ScopeOf(q)) == Some(dump.modes[k].1)
    ensures (forall k | 0 <= k < |dump.modes| :: dump.modes[k].0 != Some(q)) ==> GetMode(snap, ScopeOf(q)) == None
    ensures !ContextOnly(q) && (forall k | 0 <= k < |dump.configs| :: dump.configs[k].0 != Some(q)) ==>
              GetConfig(snap, ScopeOf(q)) == None
  {
    hide PutConfigs, Unconfigured, Modeless, PutModes;
    IsUnconfigured(dump, q);
    PutModesAt(was.mode, dump.modes, Some(q));
    if !ContextOnly(q) {
      PutConfigsAt(was.config - Unconfigured(dump, |dump.order|), dump.configs, true, Some(q));
    }
  }

  lemma WalksParts(env: Env, src: Reg, rank: (Qualified, nat) -> nat, dump: Dump, reg: Reg,
                   done: set<(Qualified, nat)>, trace: seq<(Qualified, nat)>, finished: set<Qualified>)
    requires Walks(env, src, rank, dump, reg, done, trace, finished)
    ensures Restorable(env, src, rank) && Describes(dump, src)
  {
    hide Restorable, Describes;
  }

  lemma Listed(dump: Dump, q: Qualified, row: Row)
    requires q in dump.subjects && row in dump.subjects[q]
    ensures (q, row.version) in Universe(dump)
  {
  }

  /** The first `n` references of the row were written. */
  predicate WroteDeps(q: Qualified, row: Row, trace: seq<(Qualified, nat)>, n: nat)
    requires n <= |row.content.refs|
  {
    forall j | 0 <= j < n :: (RefTarget(q.ctx, row.content.refs[j]), AtLeastOne(row.content.refs[j].version)) in trace
  }

  lemma OneMoreDep(q: Qualified, row: Row, before: seq<(Qualified, nat)>, trace: seq<(Qualified, nat)>, n: nat)
    requires n < |row.content.refs| && WroteDeps(q, row, before, n) && before <= trace
    requires (RefTarget(q.ctx, row.content.refs[n]), AtLeastOne(row.content.refs[n].version)) in trace
    ensures WroteDeps(q, row, trace, n + 1)
  {
    assert forall x | x in before :: x in trace;
  }

  lemma NoDeps(q: Qualified, row: Row, trace: seq<(Qualified, nat)>)
    ensures WroteDeps(q, row, trace, 0)
  {
  }

  lemma AllDeps(q: Qualified, row: Row, trace: seq<(Qualified, nat)>)
    requires WroteDeps(q, row, trace, |row.content.refs|)
    ensures DepsWritten(q, row, Set(trace))
  {
  }

  predicate OfSubject(target: Option<Qualified>) {
    target.Some? && !ContextOnly(target.value)
  }

  lemma RowsStay(reg: Reg)
    ensures SameRows(reg, reg)
  {
  }

  lemma LetThrough(env: Env, reg: Reg, c: Command)
    requires c.verb.UpdateConfig?
    ensures OnlyImports(reg.snap) ==> Decide(env, ViewOf(reg, c), c.verb).Success?
  {
    if OnlyImports(reg.snap) {
      ConfigIsLetThrough(env, reg, c);
    }
  }

  lemma SameModesSame(a: Snap, b: Snap)
    requires a.mode == b.mode
    ensures OnlyImports(a) == OnlyImports(b)
  {
  }

  /** The registry and its contexts have the configuration and the mode the dump says, or what they had. */
  lemma RestoredWide(dump: Dump, before: Snap, was: Snap, snap: Snap, t: Option<Qualified>)
    requires SettingsFrom(dump, was, snap) && Unambiguous(dump) && !OfSubject(t)
             && forall q | q in dump.order :: !ContextOnly(q)
    requires WideFrom(before, was, dump.configs)
    ensures forall k | 0 <= k < |dump.configs| && dump.configs[k].0 == t ::
              GetConfig(snap, ScopeFor(t)) ==
              Some(Merged(OrElse(GetConfig(before, ScopeFor(t)), NO_CONFIG), dump.configs[k].1))
    ensures (forall k | 0 <= k < |dump.configs| :: dump.configs[k].0 != t) ==>
              GetConfig(snap, ScopeFor(t)) == GetConfig(before, ScopeFor(t))
    ensures forall k | 0 <= k < |dump.modes| && dump.modes[k].0 == t ::
              GetMode(snap, ScopeFor(t)) == Some(dump.modes[k].1)
    ensures (forall k | 0 <= k < |dump.modes| :: dump.modes[k].0 != t) ==>
              GetMode(snap, ScopeFor(t)) == GetMode(before, ScopeFor(t))
  {
    hide PutConfigs, PutModes;
    var scope := ScopeFor(t);
    assert scope !in Unconfigured(dump, |dump.order|) && scope !in Modeless(dump, |dump.order|);
    PutConfigsElsewhere(was.config - Unconfigured(dump, |dump.order|), dump.configs, true, scope);
    PutConfigsAt(before.config, dump.configs, false, t);
    PutModesAt(was.mode, dump.modes, t);
  }

  // ---------------- replaying deletes ----------------

  /** The deletes of the first `n` rows have been replayed; the subject is importing while any is left. */
  ghost predicate Closing(env: Env, src: Reg, rank: (Qualified, nat) -> nat, dump: Dump, reg: Reg,
                          done: set<(Qualified, nat)>, trace: seq<(Qualified, nat)>, finished: set<Qualified>,
                            q: Qualified, n: nat) {
    && Describes(dump, src) && DepsFirst(src, trace) && done <= Universe(dump) && q in dump.subjects && q !in finished
    && Progress(env, src, rank, reg, done, Set(trace), finished, {q}) && n <= |dump.subjects[q]|
    && (forall row | row in dump.subjects[q] :: (q, row.version) in trace)
    && (forall j | 0 <= j < |dump.subjects[q]| :: AtStage(reg, q, dump.subjects[q][j], j < n))
    && (forall j | n <= j < |dump.subjects[q]| && dump.subjects[q][j].deleted ::
        ModeInScope(reg.snap, q) == Mode.Import)
    && Settled(dump, reg.snap, finished)
    && (ContextOnly(q) || (ScopeOf(q) in reg.snap.config <==> OpenAt(dump.subjects[q], n)))
  }

  /** Some version is still live when the deletes of the first `n` have been replayed. */
  predicate OpenAt(rows: seq<Row>, n: nat) {
    rows == [] || exists j | 0 <= j < |rows| :: LiveAt(rows, n, j)
  }

  predicate LiveAt(rows: seq<Row>, n: nat, j: nat)
    requires j < |rows|
  {
    j >= n || !rows[j].deleted
  }

  lemma WideSelf(snap: Snap)
    ensures WideSame(snap, snap)
  {
  }

  /** A version other than the one about to be hidden is live exactly if the dump leaves one so. */
  lemma OthersAtStage(reg: Reg, src: Reg, dump: Dump, q: Qualified, i: nat)
    requires Towards(reg, src) && Describes(dump, src) && q in dump.subjects && i < |dump.subjects[q]|
             && dump.subjects[q][i].deleted
    requires forall j | 0 <= j < |dump.subjects[q]| :: AtStage(reg, q, dump.subjects[q][j], j < i)
    ensures OthersLive(reg, q, dump.subjects[q][i].version) <==> OpenAt(dump.subjects[q], i + 1)
  {
    hide Good, RowAt;
    var rows := dump.subjects[q];
    VersionsDiffer(dump, src, q);
    if OpenAt(rows, i + 1) {
      var j :| 0 <= j < |rows| && LiveAt(rows, i + 1, j);
      assert AtStage(reg, q, rows[j], j < i);
      assert rows[j].version != rows[i].version;
    }
    if OthersLive(reg, q, rows[i].version) {
      var v: nat :| v != rows[i].version && RowIn(reg, q, v).Some? && !RowIn(reg, q, v).value.deleted;
      assert Resembles(RowIn(reg, q, v), RowIn(src, q, v));
      assert ListsSubject(rows, src, q);
      ItsVersion(src, q, v);
      var j :| 0 <= j < |rows| && rows[j] == RowIn(src, q, v).value;
      assert AtStage(reg, q, rows[j], j < i);
      assert LiveAt(rows, i + 1, j);
    }
  }

  lemma DroppingSettles(dump: Dump, before: Snap, after: Snap, finished: set<Qualified>, q: Qualified, gone: set<Scope>)
    requires Settled(dump, before, finished) && q !in finished && gone <= {Subject(q.ctx, q.subject)}
    requires after.config == before.config - gone && after.mode == before.mode - gone
    ensures Settled(dump, after, finished) && WideSame(before, after)
  {
    hide KeepsOpen;
    forall p | p in finished && !ContextOnly(p)
      ensures ScopeOf(p) in after.config <==> KeepsOpen(dump, p)
    {
      assert ScopeOf(p) != Subject(q.ctx, q.subject);
    }
  }

  predicate AtStage(reg: Reg, q: Qualified, row: Row, closed: bool) {
    RowIn(reg, q, row.version) == Some(if closed then row else row.(deleted := false))
  }

  lemma StartsClosing(env: Env, src: Reg, rank: (Qualified, nat) -> nat, dump: Dump, reg: Reg,
                      done: set<(Qualified, nat)>, trace: seq<(Qualified, nat)>, finished: set<Qualified>, q: Qualified)
    requires Walks(env, src, rank, dump, reg, done, trace, finished) && q in dump.subjects && q !in finished
             && Importing(reg.snap, q)
    requires forall row | row in dump.subjects[q] :: (q, row.version) in trace
    ensures Closing(env, src, rank, dump, reg, done, trace, finished, q, 0)
  {
    hide Restorable, Towards, DepsFirst, Universe, RowAt, Describes, Settled;
    var rows := dump.subjects[q];
    if rows != [] {
      OpenBefore(rows, 0);
    }
    forall j | 0 <= j < |rows|
      ensures AtStage(reg, q, rows[j], false)
    {
      assert rows[j] in rows;
      ListedIsRow(dump, src, q, rows[j]);
      assert (q, rows[j].version) in Set(trace);
      assert WrittenRow(reg, src, Set(trace), (q, rows[j].version));
    }
  }

  lemma SkipsLive(env: Env, src: Reg, rank: (Qualified, nat) -> nat, dump: Dump, reg: Reg,
                  done: set<(Qualified, nat)>, trace: seq<(Qualified, nat)>, finished: set<Qualified>, q: Qualified,
                  i: nat)
    requires Closing(env, src, rank, dump, reg, done, trace, finished, q, i) && i < |dump.subjects[q]|
             && !dump.subjects[q][i].deleted
    ensures Closing(env, src, rank, dump, reg, done, trace, finished, q, i + 1)
  {
    hide Progress, DepsFirst, Universe, RowAt, Describes, ModeInScope, Settled;
    var rows := dump.subjects[q];
    assert LiveAt(rows, i, i) && LiveAt(rows, i + 1, i);
    assert rows[i].(deleted := false) == rows[i];
    forall j | 0 <= j < |rows|
      ensures AtStage(reg, q, rows[j], j < i + 1)
    {
      assert AtStage(reg, q, rows[j], j < i);
    }
  }

  lemma ReplaysDelete(env: Env, src: Reg, rank: (Qualified, nat) -> nat, dump: Dump, reg: Reg,
                      done: set<(Qualified, nat)>, trace: seq<(Qualified, nat)>, finished: set<Qualified>, q: Qualified,
                      i: nat, c: Command)
    requires Closing(env, src, rank, dump, reg, done, trace, finished, q, i) && i < |dump.subjects[q]|
             && dump.subjects[q][i].deleted
    requires c.verb == DropVersion(q, Exact(dump.subjects[q][i].version), false)
    ensures Closing(env, src, rank, dump, Step(env, reg, c), done, trace, finished, q, i + 1)
    ensures Decide(env, ViewOf(reg, c), c.verb).Success?
    ensures OnlyImports(reg.snap) ==> OnlyImports(Step(env, reg, c).snap)
    ensures OnlyOpened(reg.snap) ==> OnlyOpened(Step(env, reg, c).snap)
    ensures WideSame(reg.snap, Step(env, reg, c).snap)
  {
    hide Restorable, Towards, Written, DepsFirst, Universe, RowAt, Describes, ModeInScope, Step, Decide, OnlyImports,
      OnlyOpened, Settled, WideSame, OthersLive, OpenAt;
    var rows, reg' := dump.subjects[q], Step(env, reg, c);
    var row := rows[i];
    assert row in rows;
    ListedIsRow(dump, src, q, row);
    assert AtStage(reg, q, row, false);
    assert CanDrop(env, src, rank, reg, q, row);
    DropModes(env, src, rank, reg, q, row, c);
    DropDecides(env, src, rank, reg, q, row, c, q.ctx);
    DropProgress(env, src, rank, reg, done, Set(trace), finished, q, row, c);
    OthersAtStage(reg, src, dump, q, i);
    DropSettled(env, src, rank, reg, q, row, c);
    OpenBefore(rows, i);
    var gone := if OthersLive(reg, q, row.version) then {} else {Subject(q.ctx, q.subject)};
    DroppingSettles(dump, reg.snap, reg'.snap, finished, q, gone);
    hide Progress, CanDrop;
    VersionsDiffer(dump, src, q);
    forall j | 0 <= j < |rows|
      ensures AtStage(reg', q, rows[j], j < i + 1)
    {
      assert AtStage(reg, q, rows[j], j < i);
    }
    forall j | i + 1 <= j < |rows| && rows[j].deleted
      ensures ModeInScope(reg'.snap, q) == Mode.Import
    {
      OpenLater(rows, i, j);
      SameModeInScope(reg.snap, reg'.snap, q);
    }
  }

  lemma OpenBefore(rows: seq<Row>, i: nat)
    requires i < |rows|
    ensures OpenAt(rows, i)
  {
    assert LiveAt(rows, i, i);
  }

  lemma OpenLater(rows: seq<Row>, i: nat, j: nat)
    requires i + 1 <= j < |rows|
    ensures OpenAt(rows, i + 1)
  {
    assert LiveAt(rows, i + 1, j);
  }

  lemma SameModeInScope(a: Snap, b: Snap, q: Qualified)
    requires a.mode == b.mode
    ensures ModeInScope(a, q) == ModeInScope(b, q)
  {
  }

  lemma VersionsDiffer(dump: Dump, src: Reg, q: Qualified)
    requires Describes(dump, src) && q in dump.subjects
    ensures forall i, j | 0 <= i < j < |dump.subjects[q]| :: dump.subjects[q][i].version < dump.subjects[q][j].version
  {
    assert ListsSubject(dump.subjects[q], src, q);
  }

  lemma ClosesSubject(env: Env, src: Reg, rank: (Qualified, nat) -> nat, dump: Dump, reg: Reg,
                      done: set<(Qualified, nat)>, trace: seq<(Qualified, nat)>, finished: set<Qualified>, q: Qualified)
    requires q in dump.subjects && Closing(env, src, rank, dump, reg, done, trace, finished, q, |dump.subjects[q]|)
    ensures Walks(env, src, rank, dump, reg, done, trace, finished + {q})
  {
    hide Restorable, Towards, Written, DepsFirst, Universe, RowAt;
    OpenAtLast(dump, q);
    var rows := dump.subjects[q];
    forall v: nat | RowIn(src, q, v).Some?
      ensures (q, v) in Set(trace) && RowIn(reg, q, v) == RowIn(src, q, v)
    {
      var row := RowIn(src, q, v).value;
      assert ListsSubject(rows, src, q);
      var j :| 0 <= j < |rows| && rows[j] == row;
      ItsVersion(src, q, v);
      assert AtStage(reg, q, rows[j], true);
    }
  }

  lemma OpenAtLast(dump: Dump, q: Qualified)
    requires q in dump.subjects
    ensures OpenAt(dump.subjects[q], |dump.subjects[q]|) <==> KeepsOpen(dump, q)
  {
    var rows := dump.subjects[q];
    if j :| 0 <= j < |rows| && !rows[j].deleted {
      assert rows[j] in rows && LiveAt(rows, |rows|, j);
    }
  }

  // ---------------- the ends of a replay ----------------

  lemma TowardsIsGood(reg: Reg, src: Reg)
    requires Towards(reg, src)
    ensures Good(reg)
  {
  }

  lemma RowsReturn(a: Reg, b: Reg)
    requires SameRows(a, b)
    ensures SameRows(b, a)
  {
    hide RowAt;
    forall q: Qualified, version: nat
      ensures RowIn(b, q, version) == RowIn(a, q, version)
    {
      assert RowIn(a, q, version) == RowIn(b, q, version);
    }
  }

  lemma ModesLast(dump: Dump, a: Snap, b: Snap)
    requires StillImporting(dump, a, b)
    ensures (OnlyImports(a) ==> OnlyImports(b)) && (OnlyOpened(a) ==> OnlyOpened(b))
            && (PlainNames(dump) ==> WideSame(a, b))
  {
  }

  lemma ModeIsLetThrough(env: Env, reg: Reg, c: Command)
    requires c.verb.ChangeMode? && c.verb.force
    ensures Decide(env, ViewOf(reg, c), c.verb).Success?
  {
  }

  lemma TowardsStays(before: Reg, reg: Reg, src: Reg)
    requires Towards(before, src) && Good(reg) && SameRows(before, reg)
             && forall ctx: string :: At(reg, ctx).refby == At(before, ctx).refby
    ensures Towards(reg, src)
  {
    hide Good, RowAt, Referenced;
    forall q: Qualified, version: nat | RowIn(reg, q, version).Some?
      ensures Resembles(RowIn(reg, q, version), RowIn(src, q, version))
    {
      assert RowIn(before, q, version) == RowIn(reg, q, version);
    }
  }

  lemma StartsWalk(env: Env, src: Reg, rank: (Qualified, nat) -> nat, dump: Dump, before: Reg, reg: Reg)
    requires Restorable(env, src, rank) && Describes(dump, src) && Towards(before, src)
             && GlobalMode(before.snap) != ReadonlyOverride
    requires Good(reg) && SameRows(before, reg) && reg.snap.mode == before.snap.mode
    requires forall ctx: string :: At(reg, ctx).refby == At(before, ctx).refby
    ensures Walks(env, src, rank, dump, reg, {}, [], {}) && Started({}, []) == {}
  {
    hide Restorable, Describes, Towards, Good, RowAt;
    assert Set([]) == {};
    TowardsStays(before, reg, src);
  }

  /** After the settings of the wider scopes: a walk can begin, or nothing will be let through. */
  lemma StartsReplay(env: Env, src: Reg, rank: (Qualified, nat) -> nat, dump: Dump, before: Reg, reg: Reg)
    requires Restorable(env, src, rank) && Describes(dump, src) && Towards(before, src)
    requires Good(reg) && SameRows(before, reg) && reg.snap.mode == before.snap.mode
    requires forall ctx: string :: At(reg, ctx).refby == At(before, ctx).refby
    ensures Started({}, []) == {} && OnlyImports(before.snap) == OnlyImports(reg.snap)
    ensures Frozen(reg, src) == (GlobalMode(before.snap) == ReadonlyOverride)
    ensures Frozen(reg, src) ==> !OnlyImports(reg.snap) && DepsFirst(src, [])
    ensures !Frozen(reg, src) ==> Walks(env, src, rank, dump, reg, {}, [], {})
  {
    hide Restorable, Describes, Towards, Good, RowAt, Walks;
    TowardsStays(before, reg, src);
    SameModesSame(before.snap, reg.snap);
    assert Set([]) == {};
    if GlobalMode(before.snap) != ReadonlyOverride {
      StartsWalk(env, src, rank, dump, before, reg);
    } else {
      assert reg.snap.mode[Global] == ReadonlyOverride;
    }
  }

  /** A dump of nothing restores to nothing. */
  lemma NothingToRestore(dump: Dump, reg: Reg, src: Reg)
    requires Describes(dump, src) && dump.order == [] && Frozen(reg, src)
    ensures Towards(reg, src) && SameRows(reg, src)
  {
    hide RowAt, Good;
    forall q: Qualified, version: nat
      ensures RowIn(reg, q, version) == RowIn(src, q, version)
    {
      assert RowIn(reg, q, version).Some? ==> Resembles(RowIn(reg, q, version), RowIn(src, q, version));
    }
  }

  lemma BackAgain(a: Reg, src: Reg, b: Reg, c: Reg)
    requires SameRows(a, src) && SameRows(b, src) && SameRows(b, c)
    ensures SameRows(a, c)
  {
    hide SameRows;
    RowsReturn(b, src);
    RowsLast(a, src, b);
    RowsLast(a, b, c);
  }

  lemma OrderFits(dump: Dump, src: Reg, i: nat)
    requires Describes(dump, src) && i < |dump.order|
    ensures dump.order[i] in dump.subjects && dump.order[i] !in dump.order[..i]
  {
    assert dump.order[i] in dump.order;
  }

  lemma WalkEnds(env: Env, src: Reg, rank: (Qualified, nat) -> nat, dump: Dump, reg: Reg,
                 done: set<(Qualified, nat)>, trace: seq<(Qualified, nat)>, finished: set<Qualified>)
    requires Walks(env, src, rank, dump, reg, done, trace, finished) && forall q | q in dump.order :: q in finished
    ensures Towards(reg, src) && SameRows(reg, src) && DepsFirst(src, trace) && Settled(dump, reg.snap, finished)
  {
    hide Restorable, DepsFirst, Good, RowAt, Universe, Referenced, Settled;
    forall q: Qualified, version: nat
      ensures RowIn(reg, q, version) == RowIn(src, q, version)
    {
      if RowIn(src, q, version).Some? {
        assert q in dump.order;
      } else {
        assert RowIn(reg, q, version).Some? ==> Resembles(RowIn(reg, q, version), RowIn(src, q, version));
      }
    }
  }

  // ---------------- dumping ----------------

  method DumpSubject(reg: Reg, q: Qualified) returns (rows: seq<Row>)
    requires Good(reg)
    ensures ListsSubject(rows, reg, q)
    ensures rows == [] <==> ListVersions(reg.snap, q) == []
  {
    hide Good, RowAt, ListsSubject, Sorted;
    var vs, i := ListVersions(reg.snap, q), 0;
    rows := [];
    ListedRows(reg, q);
    while i < |vs|
      invariant 0 <= i <= |vs| && |rows| == i
      invariant forall j | 0 <= j < i :: RowIn(reg, q, vs[j].version) == Some(rows[j])
    {
      assert vs[i] in vs;
      rows := rows + [RowIn(reg, q, vs[i].version).value];
      i := i + 1;
    }
    ReadsAll(reg, q, vs, rows);
  }

  lemma ReadsAll(reg: Reg, q: Qualified, vs: seq<Entry>, rows: seq<Row>)
    requires Good(reg) && vs == ListVersions(reg.snap, q) && |rows| == |vs|
    requires forall j | 0 <= j < |vs| :: RowIn(reg, q, vs[j].version) == Some(rows[j])
    ensures ListsSubject(rows, reg, q)
  {
    hide Good, RowAt;
    ListedRows(reg, q);
    forall j | 0 <= j < |rows|
      ensures rows[j].version == vs[j].version
    {
      ItsVersion(reg, q, vs[j].version);
    }
    forall v: nat | RowIn(reg, q, v).Some?
      ensures RowIn(reg, q, v).value in rows
    {
      var j :| 0 <= j < |vs| && vs[j].version == v;
      assert rows[j] == RowIn(reg, q, v).value;
    }
  }

  lemma ListedRows(reg: Reg, q: Qualified)
    requires Good(reg)
    ensures Sorted(ListVersions(reg.snap, q))
    ensures forall e | e in ListVersions(reg.snap, q) :: RowIn(reg, q, e.version).Some?
    ensures forall v: nat | RowIn(reg, q, v).Some? ::
              exists i :: 0 <= i < |ListVersions(reg.snap, q)| && ListVersions(reg.snap, q)[i].version == v
  {
    hide Good, RowAt;
    var vs := ListVersions(reg.snap, q);
    ListedRowsSorted(reg, q);
    forall v: nat
      ensures RowIn(reg, q, v).Some? <==> Find(vs, v).Some?
    {
      VersionShown(reg, q.ctx, Slot(q.subject, v));
    }
    forall v: nat
      ensures Find(vs, v).Some? <==> exists i :: 0 <= i < |vs| && vs[i].version == v
    {
      FindIn(vs, v);
    }
    forall e | e in vs
      ensures RowIn(reg, q, e.version).Some?
    {
      var i :| 0 <= i < |vs| && vs[i] == e;
      assert Find(vs, e.version).Some?;
    }
  }

  lemma ListedRowsSorted(reg: Reg, q: Qualified)
    requires Good(reg)
    ensures Sorted(ListVersions(reg.snap, q))
  {
    GoodIsSorted(reg);
  }

  /** A row is of a context and a subject that the index lists. */
  lemma RowIsListed(reg: Reg, q: Qualified, v: nat)
    requires Good(reg) && RowIn(reg, q, v).Some?
    ensures q.ctx in Contexts(reg.snap) && q.subject in SubjectNames(reg.snap, q.ctx)
  {
    var s := SliceOf(reg.rows, q.ctx);
    assert Sound(s) && RepresentsOn(reg.snap, s, q.ctx);
    assert Slot(q.subject, v) in s.versions;
    ListedRows(reg, q);
    SubjectsHaveVersions(reg.snap, s, q.ctx, q.subject);
    assert Qualified(q.ctx, q.subject) == q;
  }

  /** The subjects of one context, with their rows. */
  method DumpContext(reg: Reg, ctx: string) returns (order: seq<Qualified>, subjects: map<Qualified, seq<Row>>)
    requires Good(reg)
    ensures forall q :: q in order <==> q in subjects
    ensures (forall q | q in order :: q.ctx == ctx && subjects[q] != [] && ListsSubject(subjects[q], reg, q))
            && Distinct(order)
    ensures forall q: Qualified, v: nat | q.ctx == ctx && RowIn(reg, q, v).Some? :: q in order
  {
    hide Good, RowAt, ListsSubject;
    var names, i := N.InOrder(SubjectNames(reg.snap, ctx)), 0;
    order, subjects := [], map[];
    while i < |names|
      invariant 0 <= i <= |names| && (forall q :: q in order <==> q in subjects) && Distinct(order)
      invariant forall q | q in order ::
                  q.ctx == ctx && q.subject in names[..i] && subjects[q] != [] && ListsSubject(subjects[q], reg, q)
      invariant forall j | 0 <= j < i ::
                  ListVersions(reg.snap, Qualified(ctx, names[j])) == [] || Qualified(ctx, names[j]) in order
    {
      var q := Qualified(ctx, names[i]);
      var rows := DumpSubject(reg, q);
      NotAgain(names, i);
      if rows != [] {
        AppendDistinct(order, q);
        order, subjects := order + [q], subjects[q := rows];
      }
      i := i + 1;
    }
    forall q: Qualified, v: nat | q.ctx == ctx && RowIn(reg, q, v).Some?
      ensures q in order
    {
      RowIsListed(reg, q, v);
      ListedRows(reg, q);
      var j :| 0 <= j < |names| && names[j] == q.subject;
    }
  }

  predicate Distinct(order: seq<Qualified>) {
    forall i, j | 0 <= i < j < |order| :: order[i] != order[j]
  }

  lemma AppendDistinct(order: seq<Qualified>, q: Qualified)
    requires Distinct(order) && q !in order
    ensures Distinct(order + [q])
  {
  }

  lemma NotAgain(names: seq<string>, i: nat)
    requires i < |names| && forall j, k | 0 <= j < k < |names| :: N.Below(names[j], names[k])
    ensures names[i] !in names[..i]
  {
    forall j | 0 <= j < i
      ensures names[j] != names[i]
    {
      N.Trichotomy(names[j], names[i]);
    }
  }

  /** `dump_local`: every subject of every context, straight from the index, and the settings. */
  method DumpLocal(env: Env, reg: Reg) returns (d: Dump)
    requires Good(reg)
    ensures Describes(d, reg) && Populated(d, reg) && DumpsSettings(env, reg.snap, d)
  {
    hide Good, RowAt, RowIn, Reads, DumpsSettings, Describes, Populated, ListsSubject, Targets;
    var ctxs := N.InOrder(Contexts(reg.snap));
    var order, subjects := DumpSubjects(reg, ctxs);
    forall q: Qualified, v: nat | RowIn(reg, q, v).Some?
      ensures q in order
    {
      RowIsListed(reg, q, v);
    }
    var configs, modes := DumpSettings(env, reg, order, ctxs);
    d := Dump(order, subjects, configs, modes);
    DumpsRows(reg, d);
    ReadsAllSettings(env, reg.snap, ctxs, d);
  }

  lemma DumpsRows(reg: Reg, d: Dump)
    requires (forall q :: q in d.order <==> q in d.subjects) && Distinct(d.order)
    requires forall q | q in d.order :: d.subjects[q] != [] && ListsSubject(d.subjects[q], reg, q)
    requires forall q: Qualified, v: nat | RowIn(reg, q, v).Some? :: q in d.order
    ensures Describes(d, reg) && Populated(d, reg)
  {
    hide RowIn;
    forall q | q in d.order
      ensures HasRows(reg, q)
    {
      assert ListsSubject(d.subjects[q], reg, q) && RowIn(reg, q, d.subjects[q][0].version).Some?;
    }
  }

  method DumpSubjects(reg: Reg, ctxs: seq<string>) returns (order: seq<Qualified>, subjects: map<Qualified, seq<Row>>)
    requires Good(reg) && forall j, k | 0 <= j < k < |ctxs| :: N.Below(ctxs[j], ctxs[k])
    ensures (forall q :: q in order <==> q in subjects) && Distinct(order)
    ensures forall q | q in order :: subjects[q] != [] && ListsSubject(subjects[q], reg, q)
    ensures forall q: Qualified, v: nat | q.ctx in ctxs && RowIn(reg, q, v).Some? :: q in order
  {
    hide Good, RowAt, ListsSubject;
    var i := 0;
    order, subjects := [], map[];
    while i < |ctxs|
      invariant 0 <= i <= |ctxs| && (forall q :: q in order <==> q in subjects) && Distinct(order)
      invariant forall q | q in order :: q.ctx in ctxs[..i] && subjects[q] != [] && ListsSubject(subjects[q], reg, q)
      invariant forall q: Qualified, v: nat | q.ctx in ctxs[..i] && RowIn(reg, q, v).Some? :: q in order
    {
      var more, rows := DumpContext(reg, ctxs[i]);
      NotAgain(ctxs, i);
      JoinDistinct(order, more);
      order, subjects := order + more, subjects + rows;
      i := i + 1;
    }
    assert ctxs[..i] == ctxs;
  }

  lemma ReadsAllSettings(env: Env, snap: Snap, ctxs: seq<string>, d: Dump)
    requires var targets := Targets(ctxs, d.order);
             && Reads(env, snap, targets, |targets|, d.configs, d.modes)
             && (DistinctTargets(targets) ==> Apart(d.configs) && Apart(d.modes))
    requires Distinct(d.order) && (forall j, k | 0 <= j < k < |ctxs| :: N.Below(ctxs[j], ctxs[k]))
             && forall n | n in Contexts(snap) :: n in ctxs
    ensures DumpsSettings(env, snap, d)
  {
    hide ConfigOf, ModeOf;
    var targets := Targets(ctxs, d.order);
    forall t: Option<Qualified> | t.Some? ==> t.value in d.order || IsWide(snap, t.value)
      ensures t in targets
    {
      IsTarget(ctxs, d.order, t);
    }
    if forall q | q in d.order :: !ContextOnly(q) {
      forall j, k | 0 <= j < k < |ctxs|
        ensures ctxs[j] != ctxs[k]
      {
        N.Trichotomy(ctxs[j], ctxs[k]);
      }
      TargetsDiffer(ctxs, d.order);
    }
  }

  lemma IsTarget(ctxs: seq<string>, order: seq<Qualified>, t: Option<Qualified>)
    requires t.Some? ==>
               t.value in order || (ContextOnly(t.value) && t.value.ctx in ctxs && t.value.ctx != DEFAULT_CONTEXT)
    ensures t in Targets(ctxs, order)
  {
    var targets := Targets(ctxs, order);
    if t.Some? && t.value !in order {
      WideHas(ctxs, t.value.ctx);
      var i :| 0 <= i < |Wide(ctxs)| && Wide(ctxs)[i] == t;
      assert targets[1 + i] == t;
    } else if t.Some? {
      var i :| 0 <= i < |order| && order[i] == t.value;
      assert targets[1 + |Wide(ctxs)| + i] == t;
    } else {
      assert targets[0] == None;
    }
  }

  lemma JoinDistinct(a: seq<Qualified>, b: seq<Qualified>)
    requires Distinct(a) && Distinct(b) && forall q | q in b :: q !in a
    ensures Distinct(a + b)
  {
    forall i, j | 0 <= i < j < |a + b|
      ensures (a + b)[i] != (a + b)[j]
    {
      if j >= |a| {
        assert (a + b)[j] == b[j - |a|] && b[j - |a|] in b;
      }
    }
  }

  /**
   `config_of`: a scope's own configuration as it is read, that is filled with
   defaults; there is always a global one.
   */
  function ConfigOf(env: Env, snap: Snap, target: Option<Qualified>): Option<Config> {
    var c := GetConfig(snap, ScopeFor(target));
    if target.None? then Some(Filled(env, OrElse(c, NO_CONFIG))) else if c.Some? then Some(Filled(env, c.value))
      else None
  }

  /** `mode_of_scope`: a registry-wide READONLY_OVERRIDE, or the mode of exactly this scope. */
  function ModeOf(snap: Snap, target: Option<Qualified>): Option<Mode> {
    if GlobalMode(snap) == ReadonlyOverride || target.None? then Some(GlobalMode(snap))
      else GetMode(snap, ScopeOf(target.value))
  }

  /** The contexts that have settings of their own, as targets. */
  function Wide(ctxs: seq<string>): seq<Option<Qualified>> {
    if ctxs == [] then []
    else (if ctxs[0] == DEFAULT_CONTEXT then [] else [Some(Qualified(ctxs[0], ""))]) + Wide(ctxs[1..])
  }

  /** The scopes a dump asks about, the wider ones first. */
  function Targets(ctxs: seq<string>, order: seq<Qualified>): seq<Option<Qualified>> {
    [None] + Wide(ctxs) + seq(|order|, i requires 0 <= i < |order| => Some(order[i]))
  }

  /** The dump has what is read at the global scope and at every subject it lists, and nothing else that is not so. */
  ghost predicate DumpsSettings(env: Env, snap: Snap, d: Dump) {
    && (forall x | x in d.configs :: ConfigOf(env, snap, x.0) == Some(x.1))
    && (forall x | x in d.modes :: ModeOf(snap, x.0) == Some(x.1))
    && (forall t: Option<Qualified> | t.Some? ==> t.value in d.order || IsWide(snap, t.value) ::
          && (ConfigOf(env, snap, t).Some? ==> (t, ConfigOf(env, snap, t).value) in d.configs)
          && (ModeOf(snap, t).Some? ==> (t, ModeOf(snap, t).value) in d.modes))
    && ((forall q | q in d.order :: !ContextOnly(q)) ==> Unambiguous(d))
  }

  /** A context that is known, other than the default one, whose settings are the registry's. */
  predicate IsWide(snap: Snap, q: Qualified) {
    ContextOnly(q) && q.ctx in Contexts(snap) && q.ctx != DEFAULT_CONTEXT
  }

  /** Everything read at the first `n` targets, in order. */
  ghost predicate Reads(env: Env, snap: Snap, targets: seq<Option<Qualified>>, n: nat,
                        configs: seq<(Option<Qualified>, Config)>, modes: seq<(Option<Qualified>, Mode)>)
    requires n <= |targets|
  {
    && (forall x | x in configs :: x.0 in targets[..n] && ConfigOf(env, snap, x.0) == Some(x.1))
    && (forall x | x in modes :: x.0 in targets[..n] && ModeOf(snap, x.0) == Some(x.1))
    && (forall i | 0 <= i < n && ConfigOf(env, snap, targets[i]).Some? ::
        (targets[i], ConfigOf(env, snap, targets[i]).value) in configs)
    && (forall i | 0 <= i < n && ModeOf(snap, targets[i]).Some? ::
        (targets[i], ModeOf(snap, targets[i]).value) in modes)
  }

  predicate Apart<T>(xs: seq<(Option<Qualified>, T)>) {
    forall i, j | 0 <= i < j < |xs| :: xs[i].0 != xs[j].0
  }

  method DumpSettings(env: Env, reg: Reg, order: seq<Qualified>, ctxs: seq<string>)
    returns (configs: seq<(Option<Qualified>, Config)>, modes: seq<(Option<Qualified>, Mode)>)
    ensures var targets := Targets(ctxs, order);
            Reads(env, reg.snap, targets, |targets|, configs, modes)
              && (DistinctTargets(targets) ==> Apart(configs) && Apart(modes))
  {
    hide ConfigOf, ModeOf, Targets;
    configs, modes := [], [];
    var targets, i := Targets(ctxs, order), 0;
    while i < |targets|
      invariant 0 <= i <= |targets| && Reads(env, reg.snap, targets, i, configs, modes)
      invariant DistinctTargets(targets) ==> Apart(configs) && Apart(modes)
    {
      var config, mode := ConfigOf(env, reg.snap, targets[i]), ModeOf(reg.snap, targets[i]);
      assert targets[..i + 1] == targets[..i] + [targets[i]];
      if DistinctTargets(targets) {
        assert targets[i] !in targets[..i];
      }
      if config.Some? {
        assert forall k | 0 <= k < |configs| :: configs[k] in configs;
        configs := configs + [(targets[i], config.value)];
      }
      if mode.Some? {
        assert forall k | 0 <= k < |modes| :: modes[k] in modes;
        modes := modes + [(targets[i], mode.value)];
      }
      i := i + 1;
    }
  }

  predicate DistinctTargets(targets: seq<Option<Qualified>>) {
    forall i, j | 0 <= i < j < |targets| :: targets[i] != targets[j]
  }

  lemma {:induction false} WideIs(ctxs: seq<string>)
    ensures forall t | t in Wide(ctxs) :: t.Some? && ContextOnly(t.value) && t.value.ctx in ctxs
    ensures (forall i, j | 0 <= i < j < |ctxs| :: ctxs[i] != ctxs[j]) ==> DistinctTargets(Wide(ctxs))
  {
    if ctxs != [] {
      WideIs(ctxs[1..]);
      if forall i, j | 0 <= i < j < |ctxs| :: ctxs[i] != ctxs[j] {
        assert forall i, j | 0 <= i < j < |ctxs[1..]| :: ctxs[1..][i] == ctxs[i + 1] && ctxs[1..][j] == ctxs[j + 1];
        assert ctxs[0] !in ctxs[1..];
        var rest := Wide(ctxs[1..]);
        assert forall i | 0 <= i < |rest| :: rest[i] in rest;
      }
    }
  }

  lemma {:induction false} WideHas(ctxs: seq<string>, ctx: string)
    requires ctx in ctxs && ctx != DEFAULT_CONTEXT
    ensures Some(Qualified(ctx, "")) in Wide(ctxs)
  {
    if ctx != ctxs[0] {
      WideHas(ctxs[1..], ctx);
    }
  }

  lemma TargetsDiffer(ctxs: seq<string>, order: seq<Qualified>)
    requires Distinct(order) && (forall q | q in order :: !ContextOnly(q))
             && forall i, j | 0 <= i < j < |ctxs| :: ctxs[i] != ctxs[j]
    ensures DistinctTargets(Targets(ctxs, order))
  {
    WideIs(ctxs);
    var wide := Wide(ctxs);
    assert forall i | 0 <= i < |wide| :: wide[i] in wide;
    assert forall i | 0 <= i < |order| :: order[i] in order;
  }

  // ---------------- there and back ----------------

  lemma EmptyIsTowards(src: Reg)
    ensures Towards(EMPTY_REG, src) && OnlyImports(EMPTY_REG.snap) && GlobalMode(EMPTY_REG.snap) == Readwrite
  {
    EmptyIsGood();
  }

  /** No schema is registered under the name of a context. */
  ghost predicate OnlySubjects(reg: Reg) {
    forall q: Qualified, v: nat | RowIn(reg, q, v).Some? :: !ContextOnly(q)
  }

  ghost predicate HasRows(reg: Reg, q: Qualified) {
    exists v: nat :: RowIn(reg, q, v).Some?
  }

  ghost predicate HasLive(reg: Reg, q: Qualified) {
    exists v: nat :: RowIn(reg, q, v).Some? && !RowIn(reg, q, v).value.deleted
  }

  /** The registry, a context of its own settings, or a subject with versions. */
  ghost predicate Asked(src: Reg, t: Option<Qualified>) {
    t.Some? ==> HasRows(src, t.value) || IsWide(src.snap, t.value)
  }

  /**
   Modes read as they did, and so do the configurations of the registry and of
   contexts. A subject with a live version has normalizing switched off unless
   its configuration, as it was read, said otherwise.
   */
  ghost predicate SettingsReturned(env: Env, src: Reg, snap: Snap) {
    && (forall t: Option<Qualified> | Asked(src, t) :: ModeOf(snap, t) == ModeOf(src.snap, t))
    && (forall t: Option<Qualified> | Asked(src, t) && !OfSubject(t) ::
        ConfigOf(env, snap, t) == ConfigOf(env, src.snap, t))
    && (forall q: Qualified | HasRows(src, q) ::
          GetConfig(snap, ScopeOf(q)) == Reimported(ConfigOf(env, src.snap, Some(q)), HasLive(src, q)))
  }

  /**
   Dumping a registry and restoring the dump into an empty one gives its rows
   and its settings, and a second restore changes no row. The configuration
   stored for a subject is the one that was read exactly if there was none, or
   it said whether to normalize, or the subject has no live version.
   */
  method RoundTrip(env: Env, src: Reg, now: int, guid: string, ghost rank: (Qualified, nat) -> nat)
    returns (once: Reg, twice: Reg)
    requires Restorable(env, src, rank)
    ensures SameRows(once, src) && SameRows(twice, src)
    ensures OnlySubjects(src) ==> SettingsReturned(env, src, once.snap)
    ensures OnlySubjects(src) ==>
              forall q: Qualified | HasRows(src, q) ::
                var read := ConfigOf(env, src.snap, Some(q));
                GetConfig(once.snap, ScopeOf(q)) == read <==>
                read.None? || read.value.normalize.Some? || !HasLive(src, q)
  {
    hide Restorable, Describes, Towards, SameRows, DumpsSettings, SettingsFrom, RowAt, ConfigOf, ModeOf, OnlySubjects,
      Populated, Settled, WideFrom, PlainNames, HasLive, HasRows;
    SourceIsGood(env, src, rank);
    var dump := DumpLocal(env, src);
    EmptyIsTowards(src);
    var first := new Restorer(env, EMPTY_REG, now, guid);
    var ok := first.Replay(dump, src, rank);
    once := first.reg;
    if OnlySubjects(src) {
      NamesArePlain(dump, src);
      SettingsReturn(env, src, dump, first.filled, once.snap);
    }
    var second := new Restorer(env, once, now, guid);
    ok := second.Replay(dump, src, rank);
    twice := second.reg;
    BackToSource(twice, once, src);
  }

  /** A subject of the dump has versions. */
  ghost predicate Populated(dump: Dump, src: Reg) {
    && (forall q :: q in dump.order <==> q in dump.subjects)
    && (forall q | q in dump.subjects :: dump.subjects[q] != [] && HasRows(src, q))
  }

  lemma NamesArePlain(dump: Dump, src: Reg)
    requires Populated(dump, src) && OnlySubjects(src)
    ensures PlainNames(dump) && forall q | q in dump.order :: !ContextOnly(q)
  {
    hide RowAt;
  }

  /** A subject of the dump stays configured exactly if it has a live version. */
  lemma KeepsOpenIff(dump: Dump, src: Reg, q: Qualified)
    requires Describes(dump, src) && Populated(dump, src) && q in dump.subjects
    ensures KeepsOpen(dump, q) <==> HasLive(src, q)
  {
    hide RowAt;
    var rows := dump.subjects[q];
    assert ListsSubject(rows, src, q);
    if row :| row in rows && !row.deleted {
      var i :| 0 <= i < |rows| && rows[i] == row;
      assert RowIn(src, q, rows[i].version) == Some(row);
    }
  }

  lemma SettingsReturn(env: Env, src: Reg, dump: Dump, was: Snap, snap: Snap)
    requires Describes(dump, src) && DumpsSettings(env, src.snap, dump) && SettingsFrom(dump, was, snap)
             && OnlyOpened(was)
    requires Populated(dump, src) && OnlySubjects(src) && Settled(dump, was, set q | q in dump.order)
    requires WideFrom(EMPTY_SNAP, was, dump.configs)
    ensures SettingsReturned(env, src, snap)
  {
    hide RowAt, SettingsFrom, ConfigOf, ModeOf, Unambiguous, WideFrom, Settled, OnlyOpened, HasLive, KeepsOpen;
    NamesArePlain(dump, src);
    hide OnlySubjects, PlainNames;
    GlobalReturns(env, src, dump, was, snap);
    forall t: Option<Qualified> | Asked(src, t) && !OfSubject(t)
      ensures ModeOf(snap, t) == ModeOf(src.snap, t) && ConfigOf(env, snap, t) == ConfigOf(env, src.snap, t)
    {
      if t.Some? && HasRows(src, t.value) {
        RowsAreListed(dump, src, t.value);
      }
      WideReturns(env, src, dump, was, snap, t);
    }
    forall q: Qualified | HasRows(src, q)
      ensures ModeOf(snap, Some(q)) == ModeOf(src.snap, Some(q))
      ensures GetConfig(snap, ScopeOf(q)) == Reimported(ConfigOf(env, src.snap, Some(q)), HasLive(src, q))
    {
      RowsAreListed(dump, src, q);
      KeepsOpenIff(dump, src, q);
      SubjectReturns(env, src, dump, was, snap, q);
    }
    WideOrSubject(src);
  }

  lemma RowsAreListed(dump: Dump, src: Reg, q: Qualified)
    requires Describes(dump, src) && HasRows(src, q)
    ensures q in dump.order && q in dump.subjects
  {
    hide RowAt;
  }

  lemma WideOrSubject(src: Reg)
    ensures forall t: Option<Qualified> | Asked(src, t) && OfSubject(t) :: HasRows(src, t.value)
  {
    hide HasRows;
  }

  lemma GlobalReturns(env: Env, src: Reg, dump: Dump, was: Snap, snap: Snap)
    requires DumpsSettings(env, src.snap, dump) && SettingsFrom(dump, was, snap) && Unambiguous(dump)
    ensures GlobalMode(snap) == GlobalMode(src.snap)
  {
    hide PutConfigs, Unconfigured, ConfigOf;
    assert (None, GlobalMode(src.snap)) in dump.modes by {
      assert ModeOf(src.snap, None) == Some(GlobalMode(src.snap));
    }
    var k :| 0 <= k < |dump.modes| && dump.modes[k] == (None, GlobalMode(src.snap));
    PutModesAt(was.mode, dump.modes, None);
    assert Global !in Modeless(dump, |dump.order|);
  }

  /** What was read and dumped, or that there was nothing to read. */
  lemma DumpedOrNot(env: Env, src: Reg, dump: Dump, t: Option<Qualified>) returns (m: int, c: int)
    requires DumpsSettings(env, src.snap, dump) && (t.Some? ==> t.value in dump.order || IsWide(src.snap, t.value))
    ensures if ModeOf(src.snap, t).Some? then 0 <= m < |dump.modes| && dump.modes[m] == (t, ModeOf(src.snap, t).value)
            else forall k | 0 <= k < |dump.modes| :: dump.modes[k].0 != t
    ensures if ConfigOf(env, src.snap, t).Some?
            then 0 <= c < |dump.configs| && dump.configs[c] == (t, ConfigOf(env, src.snap, t).value)
            else forall k | 0 <= k < |dump.configs| :: dump.configs[k].0 != t
  {
    hide ConfigOf, ModeOf, Unambiguous;
    m, c := 0, 0;
    var mode, config := ModeOf(src.snap, t), ConfigOf(env, src.snap, t);
    if mode.Some? {
      var k :| 0 <= k < |dump.modes| && dump.modes[k] == (t, mode.value);
      m := k;
    } else {
      assert forall k | 0 <= k < |dump.modes| :: dump.modes[k] in dump.modes;
    }
    if config.Some? {
      var k :| 0 <= k < |dump.configs| && dump.configs[k] == (t, config.value);
      c := k;
    } else {
      assert forall k | 0 <= k < |dump.configs| :: dump.configs[k] in dump.configs;
    }
  }

  lemma WideReturns(env: Env, src: Reg, dump: Dump, was: Snap, snap: Snap, t: Option<Qualified>)
    requires DumpsSettings(env, src.snap, dump) && SettingsFrom(dump, was, snap) && Unambiguous(dump) && !OfSubject(t)
    requires WideFrom(EMPTY_SNAP, was, dump.configs) && GlobalMode(snap) == GlobalMode(src.snap)
    requires (forall q | q in dump.order :: !ContextOnly(q)) && (t.Some? ==> IsWide(src.snap, t.value))
    ensures ModeOf(snap, t) == ModeOf(src.snap, t) && ConfigOf(env, snap, t) == ConfigOf(env, src.snap, t)
  {
    hide DumpsSettings, SettingsFrom, Unambiguous, WideFrom, GlobalMode;
    var m, c := DumpedOrNot(env, src, dump, t);
    RestoredWide(dump, EMPTY_SNAP, was, snap, t);
  }

  lemma SubjectReturns(env: Env, src: Reg, dump: Dump, was: Snap, snap: Snap, q: Qualified)
    requires DumpsSettings(env, src.snap, dump) && SettingsFrom(dump, was, snap) && Unambiguous(dump) && OnlyOpened(was)
    requires q in dump.order && !ContextOnly(q) && GlobalMode(snap) == GlobalMode(src.snap)
    requires Settled(dump, was, set p | p in dump.order)
    ensures ModeOf(snap, Some(q)) == ModeOf(src.snap, Some(q))
    ensures GetConfig(snap, ScopeOf(q)) == Reimported(ConfigOf(env, src.snap, Some(q)), KeepsOpen(dump, q))
  {
    hide DumpsSettings, SettingsFrom, Unambiguous, GlobalMode, Settled, OnlyOpened, KeepsOpen, ConfigOf;
    var m, c := DumpedOrNot(env, src, dump, Some(q));
    RestoredSettings(dump, was, snap, q);
    if ConfigOf(env, src.snap, Some(q)).Some? {
      RestoredConfig(dump, was, snap, c);
    }
  }

  lemma SourceIsGood(env: Env, src: Reg, rank: (Qualified, nat) -> nat)
    requires Restorable(env, src, rank)
    ensures Good(src)
  {
  }

  lemma BackToSource(twice: Reg, once: Reg, src: Reg)
    requires SameRows(once, src) && (SameRows(twice, once) || SameRows(twice, src))
    ensures SameRows(twice, src)
  {
    hide RowAt;
    if SameRows(twice, once) {
      RowsLast(twice, once, src);
    }
  }
}
