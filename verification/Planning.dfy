/**
 The loops of the verbs' plans (src/mutations/, src/registry/schemas.rs,
 src/registry/listings.rs, src/registry/lookup.rs): lists that are pushed to,
 searches that stop early, a walk that marks what it has visited. Each is
 proved to compute what the functions of Verbs say.
 */
module Planning {
  import opened Wrappers
  import opened RegistryTypes
  import opened Snapshot
  import opened Verbs

  // ---------------- references ----------------

  /** `collect_ref` with its visited set and output list. */
  class Collector {
    var visited: set<(Qualified, nat)>
    var texts: seq<string>

    ghost function Value(): Closure
      reads this
    {
      Closure(visited, texts)
    }

    constructor ()
      ensures Value() == Closure({}, [])
    {
      visited, texts := {}, [];
    }

    method Collect(view: View, q: Qualified, version: nat, depth: nat) returns (err: Option<Error>)
      modifies this
      ensures var r := CollectRef(view, q, version, old(Value()), depth);
              if r.Success? then err == None && Value() == r.value else err == Some(r.error)
      decreases if depth > 64 then 0 else 65 - depth, 1, 0
    {
      if depth > 64 {
        return Some(InvalidSchema);
      }
      if (q, version) in visited {
        return None;
      }
      visited := visited + {(q, version)};
      var vr := GetVersion(view.snap, q.ctx, Slot(q.subject, version));
      if vr.None? {
        return Some(InvalidSchema);
      }
      var rec := Body(view, q.ctx, vr.value.id);
      if rec.None? {
        return Some(SchemaNotFound);
      }
      err := CollectEach(view, q.ctx, rec.value.content.refs, depth + 1);
      if err.None? {
        texts := texts + [rec.value.content.text];
      }
    }

    method CollectEach(view: View, ctx: string, refs: seq<Reference>, depth: nat) returns (err: Option<Error>)
      modifies this
      ensures var r := CollectAll(view, ctx, refs, old(Value()), depth);
              if r.Success? then err == None && Value() == r.value else err == Some(r.error)
      decreases if depth > 64 then 0 else 65 - depth, 2, |refs|
    {
      hide CollectRef;
      ghost var whole := CollectAll(view, ctx, refs, Value(), depth);
      var i := 0;
      while i < |refs|
        invariant 0 <= i <= |refs| && CollectAll(view, ctx, refs[i..], Value(), depth) == whole
      {
        assert refs[i..][0] == refs[i] && refs[i..][1..] == refs[i + 1..];
        err := Collect(view, RefTarget(ctx, refs[i]), AtLeastOne(refs[i].version), depth);
        if err.Some? {
          return;
        }
        i := i + 1;
      }
      err := None;
    }
  }

  method ResolveReferences(view: View, ctx: string, refs: seq<RefIn>) returns (out: Result<Resolved, Error>)
    ensures out == ResolveRefs(view, ctx, refs, NOTHING)
  {
    hide CollectRef, GetExact;
    var collector := new Collector();
    var concrete: seq<Reference> := [];
    var i := 0;
    while i < |refs|
      invariant 0 <= i <= |refs| && fresh(collector)
      invariant ResolveRefs(view, ctx, refs[i..], Resolved(concrete, collector.Value())) ==
                ResolveRefs(view, ctx, refs, NOTHING)
    {
      var r := refs[i];
      assert refs[i..][0] == r && refs[i..][1..] == refs[i + 1..];
      if r.Incomplete? || (r.version != -1 && r.version <= 0) {
        return Failure(InvalidSchema);
      }
      var target := Qualified(OrElse(r.ctx, ctx), r.subject);
      var found := GetExact(view.snap, target, if r.version == -1 then Latest else Exact(r.version), true);
      if found.None? {
        return Failure(InvalidSchema);
      }
      var err := collector.Collect(view, target, found.value.version, 0);
      if err.Some? {
        return Failure(err.value);
      }
      concrete := concrete + [Reference(r.name, r.ctx, r.subject, found.value.version)];
      i := i + 1;
    }
    out := Success(Resolved(concrete, Closure(collector.visited, collector.texts)));
  }

  /** `live_referrers`, as far as `check_not_referenced` looks at it. */
  method HasLiveReferrer(snap: Snap, ctx: string, slot: Slot) returns (live: bool)
    ensures live == ReferencedLive(snap, ctx, slot)
  {
    hide GetVersion, IdUsages;
    var ids := ReferencedBy(snap, ctx, slot);
    while ids != {}
      invariant ids <= ReferencedBy(snap, ctx, slot)
      invariant forall id | id in ReferencedBy(snap, ctx, slot) && id !in ids :: !LiveIn(snap, ctx, id)
      decreases ids
    {
      var id :| id in ids;
      var uses := IdUsages(snap, ctx, id);
      while uses != {}
        invariant uses <= IdUsages(snap, ctx, id)
        invariant forall u | u in IdUsages(snap, ctx, id) && u !in uses ::
                    var vr := GetVersion(snap, ctx, u); vr.None? || vr.value.deleted
        decreases uses
      {
        var u :| u in uses;
        var vr := GetVersion(snap, ctx, u);
        if vr.Some? && !vr.value.deleted {
          assert LiveIn(snap, ctx, id);
          return true;
        }
        uses := uses - {u};
      }
      ids := ids - {id};
    }
    live := false;
  }

  // ---------------- hard deletes ----------------

  method HardDeleteWrites(view: View, d: Doomed, also: set<Slot>) returns (writes: seq<Write>, event: LogEvent)
    ensures writes == HardDelete(view, d, also)
    ensures event == LogEvent(d.q.ctx, SlotOf(d), d.rec.id, HardDeleted)
  {
    hide Body, IdUsages;
    writes := [DeleteVersion(d.q.ctx, SlotOf(d), d.rec.id)];
    event := LogEvent(d.q.ctx, SlotOf(d), d.rec.id, HardDeleted);
    var uses := IdUsages(view.snap, d.q.ctx, d.rec.id);
    var still := exists u | u in uses :: !(u.subject == d.q.subject && (u.version == d.version || u in also));
    var rec := Body(view, d.q.ctx, d.rec.id);
    if !still && rec.Some? {
      var refs, i := rec.value.content.refs, 0;
      while i < |refs|
        invariant 0 <= i <= |refs|
        invariant writes + CutEdges(d.q.ctx, refs[i..], d.rec.id) == [DeleteVersion(d.q.ctx, SlotOf(d), d.rec.id)] +
                  CutEdges(d.q.ctx, refs, d.rec.id)
      {
        assert refs[i..][0] == refs[i] && refs[i..][1..] == refs[i + 1..];
        var t := RefTarget(d.q.ctx, refs[i]);
        writes := writes + [DeleteRefby(t.ctx, Slot(t.subject, AtLeastOne(refs[i].version)), d.rec.id)];
        i := i + 1;
      }
      assert refs[i..] == [];
      assert writes == [DeleteVersion(d.q.ctx, SlotOf(d), d.rec.id)] + CutEdges(d.q.ctx, refs, d.rec.id);
      writes := writes + [DeleteSchema(d.q.ctx, d.rec.id)];
    } else {
      assert writes == writes + [];
    }
  }

  method PurgeWrites(view: View, doomed: seq<Doomed>, also: set<Slot>)
    returns (writes: seq<Write>, events: seq<LogEvent>)
    ensures writes == Purge(view, doomed, also) && events == PurgeEvents(doomed)
  {
    hide HardDelete;
    writes, events := [], [];
    var i := 0;
    while i < |doomed|
      invariant 0 <= i <= |doomed|
      invariant writes + Purge(view, doomed[i..], also) == Purge(view, doomed, also)
      invariant events + PurgeEvents(doomed[i..]) == PurgeEvents(doomed)
    {
      assert doomed[i..][0] == doomed[i] && doomed[i..][1..] == doomed[i + 1..];
      var ws, ev := HardDeleteWrites(view, doomed[i], also);
      writes, events := writes + ws, events + [ev];
      i := i + 1;
    }
  }

  // ---------------- compatibility ----------------

  /** Live versions that take part in the check, newest first. */
  method CompatCandidates(view: View, q: Qualified, cfg: Config, c: Content, live: seq<Entry>)
    returns (out: Result<seq<Content>, Error>)
    ensures out == Candidates(view, q, cfg, c, live)
  {
    hide Body, InGroup;
    var found: seq<Content>, i := [], 0;
    assert live[0..] == live;
    while i < |live|
      invariant 0 <= i <= |live| && Continues(Candidates(view, q, cfg, c, live), found,
                                              Candidates(view, q, cfg, c, live[i..]))
    {
      assert live[i..][0] == live[i] && live[i..][1..] == live[i + 1..];
      var rec := Body(view, q.ctx, live[i].rec.id);
      if rec.None? {
        return Failure(SchemaNotFound);
      }
      ghost var rest := Candidates(view, q, cfg, c, live[i + 1..]);
      var more := if InGroup(cfg, c, rec.value.content) then [rec.value.content] else [];
      assert rest.Success? ==> found + (more + rest.value) == (found + more) + rest.value;
      found := found + more;
      i := i + 1;
    }
    assert live[i..] == [] && found + [] == found;
    out := Success(found);
  }

  /** The whole result is what was found, followed by the rest; a failure of the rest is one of the whole. */
  predicate Continues(whole: Result<seq<Content>, Error>, found: seq<Content>, rest: Result<seq<Content>, Error>) {
    if rest.Success? then whole.Success? && whole.value == found + rest.value else whole == Failure(rest.error)
  }

  /** A stored schema with everything it refers to. */
  method ReadStored(view: View, ctx: string, c: Content) returns (out: Result<Readable, Error>)
    ensures out == ReadableOf(view, ctx, c)
  {
    var resolved := ResolveReferences(view, ctx, AllAsSent(c.refs));
    if resolved.Failure? {
      return Failure(resolved.error);
    }
    out := Success(Readable(c.kind, c.text, resolved.value.closure.texts));
  }

  /** `check_level`: the earlier schemas are all parsed first, then walked from the newest to the first failure. */
  method CheckLevel(env: Env, view: View, ctx: string, level: Level, newer: Readable, olds: seq<Content>)
    returns (out: Result<bool, Error>)
    ensures out == CheckAll(env, view, ctx, level, newer, olds)
  {
    hide ReadableOf, Compatible;
    var parsed: seq<Readable>, i := [], 0;
    while i < |olds|
      invariant 0 <= i <= |olds| && |parsed| == i
      invariant forall j | 0 <= j < i :: ReadableOf(view, ctx, olds[j]) == Success(parsed[j])
    {
      var p := ReadStored(view, ctx, olds[i]);
      if p.Failure? {
        FirstFailure(env, view, ctx, level, newer, olds, i, p.error);
        return Failure(p.error);
      }
      parsed := parsed + [p.value];
      i := i + 1;
    }
    AllParsed(env, view, ctx, level, newer, olds, parsed);
    i := 0;
    while i < |parsed|
      invariant 0 <= i <= |parsed| && forall j | 0 <= j < i :: Compatible(env, level, newer, parsed[j])
    {
      if !Compatible(env, level, newer, parsed[i]) {
        return Success(false);
      }
      i := i + 1;
    }
    out := Success(true);
  }

  lemma {:induction false} FirstFailure(env: Env, view: View, ctx: string, level: Level, newer: Readable,
                                        olds: seq<Content>, i: nat, e: Error)
    requires i < |olds| && ReadableOf(view, ctx, olds[i]) == Failure(e)
             && forall j | 0 <= j < i :: ReadableOf(view, ctx, olds[j]).Success?
    ensures CheckAll(env, view, ctx, level, newer, olds) == Failure(e)
    decreases i
  {
    hide ReadableOf, Compatible;
    if i > 0 {
      assert forall j | 0 <= j < i - 1 :: olds[1..][j] == olds[j + 1];
      FirstFailure(env, view, ctx, level, newer, olds[1..], i - 1, e);
    }
  }

  lemma {:induction false} AllParsed(env: Env, view: View, ctx: string, level: Level, newer: Readable,
                                     olds: seq<Content>, parsed: seq<Readable>)
    requires |parsed| == |olds| && forall j | 0 <= j < |olds| :: ReadableOf(view, ctx, olds[j]) == Success(parsed[j])
    ensures CheckAll(env, view, ctx, level, newer, olds) ==
            Success(forall j | 0 <= j < |parsed| :: Compatible(env, level, newer, parsed[j]))
    decreases olds
  {
    hide ReadableOf, Compatible;
    if olds != [] {
      assert forall j | 0 <= j < |olds[1..]| :: olds[1..][j] == olds[j + 1] && parsed[1..][j] == parsed[j + 1];
      AllParsed(env, view, ctx, level, newer, olds[1..], parsed[1..]);
      assert (forall j | 0 <= j < |parsed| :: Compatible(env, level, newer, parsed[j])) <==>
             Compatible(env, level, newer, parsed[0]) && forall j | 0 <= j < |parsed[1..]| ::
               Compatible(env, level, newer, parsed[1..][j]);
    }
  }

  // ---------------- whole plans ----------------

  method DropSubjectPlan(view: View, q: Qualified, permanent: bool) returns (plan: Result<Plan, Error>)
    ensures plan == PlanDropSubject(view, q, permanent)
  {
    hide HasSubjects, ReferencedLive, Purge, PurgeEvents;
    if !HasSubjects(view.snap, q, true) {
      return Failure(SubjectNotFound);
    }
    if !permanent && !HasSubjects(view.snap, q, false) {
      return Failure(SubjectSoftDeleted);
    }
    var all := ListVersions(view.snap, q);
    var vs := if permanent then all else LiveOnes(all);
    var i := 0;
    while i < |vs|
      invariant 0 <= i <= |vs| && Objection(view.snap, q, vs, permanent) == Objection(view.snap, q, vs[i..], permanent)
    {
      assert vs[i..][0] == vs[i] && vs[i..][1..] == vs[i + 1..];
      var live := HasLiveReferrer(view.snap, q.ctx, Slot(q.subject, vs[i].version));
      if live {
        return Failure(ReferenceExists);
      }
      if permanent && Live(vs[i]) {
        return Failure(SubjectNotSoftDeleted);
      }
      i := i + 1;
    }
    assert vs[i..] == [];
    var writes: seq<Write>, events: seq<LogEvent>;
    if permanent {
      // No version is kept for the sake of another one on the list.
      var doomed := DoomAll(q, vs);
      writes, events := PurgeWrites(view, doomed, Slots(doomed));
    } else {
      writes, events := HideWrites(q, vs);
      writes := writes + DropSettings(q);
    }
    plan := Success(Plan(writes, events));
  }

  method HideWrites(q: Qualified, vs: seq<Entry>) returns (writes: seq<Write>, events: seq<LogEvent>)
    ensures writes == HideAll(q, vs) && events == HideEvents(q, vs)
  {
    writes, events := [], [];
    var i := 0;
    while i < |vs|
      invariant 0 <= i <= |vs|
      invariant writes + HideAll(q, vs[i..]) == HideAll(q, vs) && events + HideEvents(q, vs[i..]) == HideEvents(q, vs)
    {
      assert vs[i..][0] == vs[i] && vs[i..][1..] == vs[i + 1..];
      writes := writes + [PutVersion(q.ctx, Slot(q.subject, vs[i].version), vs[i].rec.(deleted := true))];
      events := events + [LogEvent(q.ctx, Slot(q.subject, vs[i].version), vs[i].rec.id, SoftDeleted)];
      i := i + 1;
    }
  }

  method ChangeModePlan(view: View, target: Option<Qualified>, mode: Mode, force: bool)
    returns (plan: Result<Plan, Error>)
    ensures plan == PlanChangeMode(view, target, mode, force)
  {
    hide HasSubjects, HasAnySubject, ReferencedLive, Purge, PurgeEvents, InScope, ModeFor;
    var writes: seq<Write>, events: seq<LogEvent> := [], [];
    if mode == Mode.Import && ModeFor(view.snap, target) != Mode.Import && !force {
      var live := if target.Some? then HasSubjects(view.snap, target.value, false) else HasAnySubject(view.snap, false);
      if live {
        return Failure(NotPermitted);
      }
      // Nothing in scope is live here: whatever rows there are have been hidden, and are removed.
      var doomed := InScope(view.snap, target);
      var i := 0;
      while i < |doomed|
        invariant 0 <= i <= |doomed| && forall j | 0 <= j < i ::
                    !ReferencedLive(view.snap, doomed[j].q.ctx, SlotOf(doomed[j]))
      {
        var referenced := HasLiveReferrer(view.snap, doomed[i].q.ctx, SlotOf(doomed[i]));
        if referenced {
          assert doomed[i] in doomed;
          return Failure(ReferenceExists);
        }
        i := i + 1;
      }
      writes, events := PurgeWrites(view, doomed, Slots(doomed));
    }
    assert [] + [PutMode(ScopeFor(target), mode)] == [PutMode(ScopeFor(target), mode)];
    writes := writes + [PutMode(ScopeFor(target), mode)];
    plan := Success(Plan(writes, events));
  }

  method RegisterWrites(view: View, q: Qualified, c: Content, version: nat, id: nat) returns (plan: Plan)
    ensures plan == RegisterPlan(view, q, c, version, id)
  {
    hide Purge, PurgeEvents, AddEdges, Replaced, Stale;
    var replaced := Replaced(view, q, version);
    var writes, events := PurgeWrites(view, replaced, {});
    var stale := Stale(view, q, version, id);
    var ws, evs := PurgeWrites(view, stale, Slots(stale));
    var puts := [PutSchema(q.ctx, id, RecordFor(view, q, id, c), true)];
    if id >= NextId(view.snap, q.ctx) {
      puts := puts + [SetNextId(q.ctx, id + 1)];
    }
    puts := puts + [PutVersion(q.ctx, Slot(q.subject, version), VersionRecord(id, false, view.now))];
    var edges := EdgeWrites(q.ctx, c.refs, id);
    plan := Plan(writes + ws + (puts + edges), events + evs +
                 [LogEvent(q.ctx, Slot(q.subject, version), id, Registered)]);
  }

  method EdgeWrites(ctx: string, refs: seq<Reference>, id: nat) returns (writes: seq<Write>)
    ensures writes == AddEdges(ctx, refs, id)
  {
    writes := [];
    var i := 0;
    while i < |refs|
      invariant 0 <= i <= |refs| && writes + AddEdges(ctx, refs[i..], id) == AddEdges(ctx, refs, id)
    {
      assert refs[i..][0] == refs[i] && refs[i..][1..] == refs[i + 1..];
      var t := RefTarget(ctx, refs[i]);
      writes := writes + [PutRefby(t.ctx, Slot(t.subject, AtLeastOne(refs[i].version)), id)];
      i := i + 1;
    }
  }

  /** The first live version, newest first, that already answers for this content. */
  method FindExisting(env: Env, view: View, q: Qualified, c: Content, schemaId: int, live: seq<Entry>)
    returns (out: Result<Option<Entry>, Error>)
    ensures out == FindEqual(env, view, q, c, schemaId, live)
  {
    hide Body;
    var i := 0;
    while i < |live|
      invariant 0 <= i <= |live| && FindEqual(env, view, q, c, schemaId, live) ==
                FindEqual(env, view, q, c, schemaId, live[i..])
    {
      assert live[i..][0] == live[i] && live[i..][1..] == live[i + 1..];
      if !(schemaId >= 0 && schemaId != live[i].rec.id) {
        var rec := Body(view, q.ctx, live[i].rec.id);
        if rec.None? {
          return Failure(SchemaNotFound);
        }
        if env.canLookup(c, rec.value.content, live[i].version) {
          return Success(Some(live[i]));
        }
      }
      i := i + 1;
    }
    out := Success(None);
  }

  // ---------------- registration ----------------

  /** `populate_from_previous`, on a draft of its own. */
  method PopulateDraft(env: Env, view: View, q: Qualified, d: Draft) returns (out: Result<Draft, Error>)
    ensures out == Populate(env, view, q, d)
  {
    hide Body, ConfigInScope, NewVersion;
    var live := NewestFirst(LiveOnes(ListVersions(view.snap, q)));
    var full, previous: Option<Content> := d, None;
    if live != [] {
      var rec := Body(view, q.ctx, live[0].rec.id);
      if rec.None? {
        return Failure(SchemaNotFound);
      }
      previous := Some(rec.value.content);
      if d.text.None? {
        var p := rec.value.content;
        full := full.(text := Some(p.text), kind := Some(p.kind), refs := AllAsSent(p.refs));
      }
    } else if d.text.None? {
      return Failure(EmptySchema);
    }
    var m := env.merge(previous, ConfigInScope(env, view.snap, q), full, NewVersion(ListVersions(view.snap, q)));
    out := Success(full.(metadata := m.0, rules := m.1));
  }

  method CanonicalizeDraft(env: Env, view: View, q: Qualified, d: Draft, isNew: bool, normalize: bool)
    returns (out: Result<Option<Canon>, Error>)
    ensures out == Canonicalize(env, view, q, d, isNew, normalize)
  {
    if d.text.None? {
      return Success(None);
    }
    if d.kind.None? {
      return Failure(InvalidSchema);
    }
    var resolved := ResolveReferences(view, q.ctx, d.refs);
    if resolved.Failure? {
      return Failure(resolved.error);
    }
    var texts := resolved.value.closure.texts;
    var text := env.canonText(Readable(d.kind.value, d.text.value, texts), normalize, normalize && isNew);
    if text.None? {
      return Failure(InvalidSchema);
    }
    out := Success(Some(Canon(Content(d.kind.value, text.value, resolved.value.refs, d.metadata, d.rules), texts)));
  }

  /** The draft as it will be registered, and its canonical form. */
  method PrepareDraft(env: Env, view: View, q: Qualified, d: Draft, normalize: bool)
    returns (out: Result<Prepared, Error>)
    ensures out == Prepare(env, view, q, d, normalize)
  {
    hide Populate, Canonicalize, ConfigInScope, ModeInScope;
    var normalizing := normalize || ConfigInScope(env, view.snap, q).normalize == Some(true);
    var full := d;
    if ModeInScope(view.snap, q) != Mode.Import {
      var populated := PopulateDraft(env, view, q, d);
      if populated.Failure? {
        return Failure(populated.error);
      }
      full := populated.value;
    }
    var canon := CanonicalizeDraft(env, view, q, full, full.id < 0, normalizing);
    if canon.Failure? {
      return Failure(canon.error);
    }
    out := Success(Prepared(full, canon.value));
  }

  /** Whether the live versions allow the schema, at the level in force. */
  method CheckAgainstLive(env: Env, view: View, q: Qualified, cfg: Config, c: Canon, live: seq<Entry>)
    returns (out: Result<bool, Error>)
    ensures out == CheckCandidates(env, view, q, cfg, c, live)
  {
    hide CheckAll, Candidates;
    var olds := CompatCandidates(view, q, cfg, c.content, live);
    if olds.Failure? {
      return Failure(olds.error);
    }
    var level := OrElse(cfg.level, env.defaultLevel);
    if level == NoCheck || olds.value == [] {
      return Success(true);
    }
    var chosen := if Transitive(level) then olds.value else olds.value[..1];
    out := CheckLevel(env, view, q.ctx, level, Readable(c.content.kind, c.content.text, c.deps), chosen);
  }

  /** What there is already, or the version and the id to store under. */
  method SettleDraft(env: Env, view: View, q: Qualified, p: Prepared) returns (out: Result<Outcome, Error>)
    ensures out == Settle(env, view, q, p)
  {
    hide HashLookup, ConfigInScope, ModeInScope, FindEqual, CheckCandidates, PickId, PickVersion, NewestFirst, LiveOnes,
      ListVersions, AsI32;
    var imports := ModeInScope(view.snap, q) == Mode.Import;
    var live := NewestFirst(LiveOnes(ListVersions(view.snap, q)));
    var schemaId := p.draft.id;
    if p.canon.Some? {
      var hit := HashLookup(view.snap, q, p.canon.value.content);
      if hit.Some? && (schemaId < 0 || schemaId == hit.value.0) {
        if p.draft.version == 0 && hit.value.1.Some? && Live(hit.value.1.value) {
          return Success(Already(hit.value.0, hit.value.1.value.version));
        }
        schemaId := AsI32(hit.value.0);
      }
      if p.draft.version == 0 {
        var same := FindExisting(env, view, q, p.canon.value.content, schemaId, live);
        if same.Failure? {
          return Failure(same.error);
        }
        if same.value.Some? {
          return Success(Already(same.value.value.rec.id, same.value.value.version));
        }
      }
    } else {
      return Failure(EmptySchema);
    }
    var c := p.canon.value;
    if !imports {
      var fits := CheckAgainstLive(env, view, q, ConfigInScope(env, view.snap, q), c, live);
      if fits.Failure? {
        return Failure(fits.error);
      }
      if !fits.value {
        return Failure(Incompatible);
      }
    }
    var version := PickVersion(view, q, p.draft.version, imports);
    if version.Failure? {
      return Failure(version.error);
    }
    var id := PickId(view, q, schemaId, c.content);
    if id.Failure? {
      return Failure(id.error);
    }
    out := Success(Fresh(c, version.value, id.value));
  }

  method RegisterDraft(env: Env, view: View, q: Qualified, d: Draft, normalize: bool)
    returns (plan: Result<Plan, Error>)
    ensures plan == PlanRegister(env, view, q, d, normalize)
  {
    hide Prepare, Settle, RegisterPlan;
    var p := PrepareDraft(env, view, q, d, normalize);
    if p.Failure? {
      return Failure(p.error);
    }
    var o := SettleDraft(env, view, q, p.value);
    if o.Failure? {
      return Failure(o.error);
    }
    if o.value.Already? {
      return Success(Plan([], []));
    }
    var registered := RegisterWrites(view, q, o.value.canon.content, o.value.version, o.value.id);
    plan := Success(registered);
  }

  method DropVersionPlan(view: View, q: Qualified, spec: VersionSpec, permanent: bool)
    returns (plan: Result<Plan, Error>)
    ensures plan == PlanDropVersion(view, q, spec, permanent)
  {
    hide HasSubjects, ReferencedLive, Purge, PurgeEvents, GetExact;
    var any := GetExact(view.snap, q, spec, true);
    if any.Some? && !permanent && GetExact(view.snap, q, spec, false).None? {
      return Failure(VersionSoftDeleted);
    }
    if any.None? {
      return Failure(if HasSubjects(view.snap, q, true) then VersionNotFound else SubjectNotFound);
    }
    var e := any.value;
    var referenced := HasLiveReferrer(view.snap, q.ctx, Slot(q.subject, e.version));
    if referenced {
      return Failure(ReferenceExists);
    }
    if permanent && Live(e) {
      return Failure(VersionNotSoftDeleted);
    }
    if permanent {
      var writes, events := PurgeWrites(view, [Doomed(q, e.version, e.rec)], {});
      return Success(Plan(writes, events));
    }
    var hides, hidden := HideWrites(q, [e]);
    var left := LiveLeft(ListVersions(view.snap, q), e.version);
    plan := Success(Plan(hides + if left then [] else DropSettings(q), hidden));
  }

  /** Whether a live version remains next to this one. */
  method LiveLeft(vs: seq<Entry>, version: nat) returns (left: bool)
    ensures left <==> exists x | x in vs :: x.version != version && Live(x)
  {
    var i := 0;
    while i < |vs|
      invariant 0 <= i <= |vs| && forall j | 0 <= j < i :: vs[j].version == version || !Live(vs[j])
    {
      if vs[i].version != version && Live(vs[i]) {
        assert vs[i] in vs;
        return true;
      }
      i := i + 1;
    }
    left := false;
  }

  /** `plan`, for any verb; the last four write one row at most. */
  method PlanVerb(env: Env, view: View, verb: Verb) returns (plan: Result<Plan, Error>)
    ensures plan == PlanOf(env, view, verb)
  {
    hide PlanRegister, PlanDropSubject, PlanChangeMode, PlanDropVersion;
    match verb
    case Register(q, d, normalize) => plan := RegisterDraft(env, view, q, d, normalize);
    case DropSubject(q, permanent) => plan := DropSubjectPlan(view, q, permanent);
    case DropVersion(q, spec, permanent) => plan := DropVersionPlan(view, q, spec, permanent);
    case ChangeMode(t, mode, force) => plan := ChangeModePlan(view, t, mode, force);
    case ClearMode(q) => plan := PlanClearMode(view, q);
    case UpdateConfig(t, update) => plan := PlanUpdateConfig(view, t, update);
    case ClearConfig(t) => plan := PlanClearConfig(view, t);
    case DropContext(name) => plan := PlanDropContext(view, name);
  }
}
