/**
 The verbs of the registry (src/mutations/): a verb turns a view
 of the registry into a plan - rows to write and events to log - or refuses.
 What the model does not look into is a parameter of `Env`.
 */
module Verbs {
  import opened Wrappers
  import opened RegistryTypes
  import opened Snapshot
  import N = Names

  /** A reference as a client sent it; any part of it may be missing. */
  datatype RefIn = Incomplete | RefIn(name: string, ctx: Option<string>, subject: string, version: int)

  /** A registration as sent: no text is an empty or blank one, no kind an unknown one. */
  datatype Draft = Draft(
    kind: Option<SchemaType>,
    text: Option<string>,
    refs: seq<RefIn>,
    metadata: Option<Metadata>,
    rules: Option<string>,
    version: int,
    id: int)

  /** What compatibility is decided on: a schema's text and everything it references. */
  datatype Readable = Readable(kind: SchemaType, text: string, deps: seq<string>)

  /** Parsing, rendering and merging, as functions of what they are given. */
  datatype Env = Env(
    defaultLevel: Level,
    normalizeDefault: bool,
    merge: (Option<Content>, Config, Draft, nat) -> (Option<Metadata>, Option<string>),
    canonText: (Readable, bool, bool) -> Option<string>,
    canLookup: (Content, Content, nat) -> bool,
    canRead: (Readable, Readable) -> bool)

  /** One snapshot, the stored bodies, and the instant and guid of the mutation. */
  datatype View = View(snap: Snap, bodies: map<string, map<nat, SchemaRecord>>, now: int, guid: string)

  function Body(view: View, ctx: string, id: nat): Option<SchemaRecord> {
    if ctx in view.bodies then Lookup(view.bodies[ctx], id) else None
  }

  datatype VersionSpec = Latest | Exact(n: nat)

  datatype Verb =
    | Register(q: Qualified, draft: Draft, normalize: bool)
    | DropSubject(q: Qualified, permanent: bool)
    | DropVersion(q: Qualified, spec: VersionSpec, permanent: bool)
    | ChangeMode(target: Option<Qualified>, mode: Mode, force: bool)
    | ClearMode(q: Qualified)
    | DropContext(name: string)
    | UpdateConfig(target: Option<Qualified>, update: Config)
    | ClearConfig(target: Option<Qualified>)

  // ---------------- which settings apply ----------------

  function GlobalMode(snap: Snap): Mode {
    OrElse(GetMode(snap, Global), Readwrite)
  }

  /** The nearest mode that is set, unless everything is overridden. */
  function ModeInScope(snap: Snap, q: Qualified): Mode {
    if GlobalMode(snap) == ReadonlyOverride then ReadonlyOverride
    else if GetMode(snap, ScopeOf(q)).Some? then GetMode(snap, ScopeOf(q)).value
    else if q.ctx != DEFAULT_CONTEXT then OrElse(GetMode(snap, Context(q.ctx)), Readwrite)
    else GlobalMode(snap)
  }

  function Filled(env: Env, c: Config): Config {
    c.(level := Some(OrElse(c.level, env.defaultLevel)),
       normalize := if env.normalizeDefault then Some(OrElse(c.normalize, true)) else c.normalize)
  }

  function ConfigInScope(env: Env, snap: Snap, q: Qualified): Config {
    var own := GetConfig(snap, ScopeOf(q));
    if own.Some? then Filled(env, own.value)
    else Filled(env, OrElse(GetConfig(snap, if q.ctx != DEFAULT_CONTEXT then Context(q.ctx) else Global), NO_CONFIG))
  }

  // ---------------- the mode table ----------------

  datatype Intent = Registers | Imports | Modifies | ChangesMode | NotSchemaState

  predicate Allowed(intent: Intent, mode: Mode) {
    match intent
    case ChangesMode | NotSchemaState => true
    case Registers => mode == Readwrite
    case Imports => mode == Mode.Import
    case Modifies => mode == Readwrite || mode == Mode.Import
  }

  function IntentOf(verb: Verb): Intent {
    match verb
    case Register(_, d, _) => if d.id >= 0 then Imports else Registers
    case DropSubject(_, _) | DropVersion(_, _, _) | UpdateConfig(_, _) | ClearConfig(_) => Modifies
    case ChangeMode(_, _, _) | ClearMode(_) => ChangesMode
    case DropContext(_) => NotSchemaState
  }

  /** The name a verb is about; none for the whole registry. */
  function TargetOf(verb: Verb): Option<Qualified> {
    match verb
    case Register(q, _, _) => Some(q)
    case DropSubject(q, _) => Some(q)
    case DropVersion(q, _, _) => Some(q)
    case ClearMode(q) => Some(q)
    case DropContext(name) => Some(Qualified(name, ""))
    case ChangeMode(t, _, _) => t
    case UpdateConfig(t, _) => t
    case ClearConfig(t) => t
  }

  function ModeFor(snap: Snap, target: Option<Qualified>): Mode {
    if target.Some? then ModeInScope(snap, target.value) else GlobalMode(snap)
  }

  /** Some verbs answer from state before the mode has a say. */
  predicate GatedFirst(verb: Verb) {
    verb.Register? || verb.ChangeMode? || verb.UpdateConfig? || verb.DropContext?
  }

  // ---------------- reading versions ----------------

  predicate Live(e: Entry) {
    !e.rec.deleted
  }

  function LiveOnes(vs: seq<Entry>): seq<Entry> {
    if vs == [] then [] else (if Live(vs[0]) then [vs[0]] else []) + LiveOnes(vs[1..])
  }

  function NewestFirst(vs: seq<Entry>): seq<Entry> {
    if vs == [] then [] else NewestFirst(vs[1..]) + [vs[0]]
  }

  function MaxVersion(vs: seq<Entry>): (m: nat)
    ensures forall i | 0 <= i < |vs| :: vs[i].version <= m
  {
    if vs == [] then 0
    else
      var m := MaxVersion(vs[1..]);
      assert forall i | 1 <= i < |vs| :: vs[i] == vs[1..][i - 1];
      if vs[0].version > m then vs[0].version else m
  }

  function NewVersion(vs: seq<Entry>): nat {
    MaxVersion(vs) + 1
  }

  /** `get_exact`: by number, hidden ones only if asked for; or the last one that is live. */
  function GetExact(snap: Snap, q: Qualified, spec: VersionSpec, deleted: bool): Option<Entry> {
    var vs := ListVersions(snap, q);
    match spec
    case Latest => var live := NewestFirst(LiveOnes(vs)); if live == [] then None else Some(live[0])
    case Exact(n) =>
      var rec := Find(vs, n);
      if rec.Some? && (deleted || !rec.value.deleted) then Some(Entry(n, rec.value)) else None
  }

  predicate AnyVersion(snap: Snap, q: Qualified, deleted: bool) {
    exists e | e in ListVersions(snap, q) :: deleted || Live(e)
  }

  predicate HasSubjects(snap: Snap, q: Qualified, deleted: bool) {
    || AnyVersion(snap, q, deleted)
    || (ContextOnly(q) && exists name | name in SubjectNames(snap, q.ctx) ::
        AnyVersion(snap, Qualified(q.ctx, name), deleted))
  }

  predicate HasAnySubject(snap: Snap, deleted: bool) {
    exists ctx | ctx in Contexts(snap) ::
      exists name | name in SubjectNames(snap, ctx) :: AnyVersion(snap, Qualified(ctx, name), deleted)
  }

  // ---------------- references ----------------

  function RefTarget(ctx: string, r: Reference): Qualified {
    Qualified(OrElse(r.ctx, ctx), r.subject)
  }

  function AtLeastOne(v: int): nat {
    if v < 1 then 1 else v
  }

  /** Ids of live schemas that refer to the version. */
  predicate LiveIn(snap: Snap, ctx: string, id: nat) {
    exists u | u in IdUsages(snap, ctx, id) ::
      var vr := GetVersion(snap, ctx, u); vr.Some? && !vr.value.deleted
  }

  predicate ReferencedLive(snap: Snap, ctx: string, slot: Slot) {
    exists id | id in ReferencedBy(snap, ctx, slot) :: LiveIn(snap, ctx, id)
  }

  datatype Closure = Closure(visited: set<(Qualified, nat)>, texts: seq<string>)

  /** `collect_ref`: everything reachable, dependencies first. */
  function CollectRef(view: View, q: Qualified, version: nat, acc: Closure, depth: nat): Result<Closure, Error>
    decreases if depth > 64 then 0 else 65 - depth, 1, 0
  {
    if depth > 64 then Failure(InvalidSchema)
    else if (q, version) in acc.visited then Success(acc)
    else
      var vr := GetVersion(view.snap, q.ctx, Slot(q.subject, version));
      if vr.None? then Failure(InvalidSchema)
      else
        var rec := Body(view, q.ctx, vr.value.id);
        if rec.None? then Failure(SchemaNotFound)
        else
          var inner :- CollectAll(view, q.ctx, rec.value.content.refs, acc.(visited := acc.visited + {(q, version)}),
                                  depth + 1);
          Success(inner.(texts := inner.texts + [rec.value.content.text]))
  }

  function CollectAll(view: View, ctx: string, refs: seq<Reference>, acc: Closure, depth: nat): Result<Closure, Error>
    decreases if depth > 64 then 0 else 65 - depth, 2, |refs|
  {
    if refs == [] then Success(acc)
    else
      var next :- CollectRef(view, RefTarget(ctx, refs[0]), AtLeastOne(refs[0].version), acc, depth);
      CollectAll(view, ctx, refs[1..], next, depth)
  }

  /** The concrete references with their targets, and the texts they stand for. */
  datatype Resolved = Resolved(refs: seq<Reference>, closure: Closure)

  function ResolveRefs(view: View, ctx: string, refs: seq<RefIn>, acc: Resolved): Result<Resolved, Error>
    decreases |refs|
  {
    if refs == [] then Success(acc)
    else if refs[0].Incomplete? || (refs[0].version != -1 && refs[0].version <= 0) then Failure(InvalidSchema)
    else
      var r := refs[0];
      var target := Qualified(OrElse(r.ctx, ctx), r.subject);
      var found := GetExact(view.snap, target, if r.version == -1 then Latest else Exact(r.version), true);
      if found.None? then Failure(InvalidSchema)
      else
        var closure :- CollectRef(view, target, found.value.version, acc.closure, 0);
        var concrete := Reference(r.name, r.ctx, r.subject, found.value.version);
        ResolveRefs(view, ctx, refs[1..], Resolved(acc.refs + [concrete], closure))
  }

  const NOTHING := Resolved([], Closure({}, []))

  function AsSent(r: Reference): RefIn {
    RefIn(r.name, r.ctx, r.subject, r.version)
  }

  function AllAsSent(refs: seq<Reference>): seq<RefIn> {
    seq(|refs|, i requires 0 <= i < |refs| => AsSent(refs[i]))
  }

  /** What a stored schema is compared as. */
  function ReadableOf(view: View, ctx: string, c: Content): Result<Readable, Error> {
    var resolved :- ResolveRefs(view, ctx, AllAsSent(c.refs), NOTHING);
    Success(Readable(c.kind, c.text, resolved.closure.texts))
  }

  // ---------------- hard deletes ----------------

  /** A version row that is about to go for good. */
  datatype Doomed = Doomed(q: Qualified, version: nat, rec: VersionRecord)

  function SlotOf(d: Doomed): Slot {
    Slot(d.q.subject, d.version)
  }

  predicate StillUsed(view: View, d: Doomed, also: set<Slot>) {
    exists u | u in IdUsages(view.snap, d.q.ctx, d.rec.id) ::
      !(u.subject == d.q.subject && (u.version == d.version || u in also))
  }

  /** The content goes with the last version that holds it. */
  predicate Frees(view: View, d: Doomed, also: set<Slot>) {
    !StillUsed(view, d, also) && Body(view, d.q.ctx, d.rec.id).Some?
  }

  function CutEdges(ctx: string, refs: seq<Reference>, id: nat): seq<Write> {
    if refs == [] then []
    else
      var t := RefTarget(ctx, refs[0]);
      [DeleteRefby(t.ctx, Slot(t.subject, AtLeastOne(refs[0].version)), id)] + CutEdges(ctx, refs[1..], id)
  }

  function HardDelete(view: View, d: Doomed, also: set<Slot>): seq<Write> {
    [DeleteVersion(d.q.ctx, SlotOf(d), d.rec.id)] +
    if Frees(view, d, also) then
      CutEdges(d.q.ctx, Body(view, d.q.ctx, d.rec.id).value.content.refs, d.rec.id) + [DeleteSchema(d.q.ctx, d.rec.id)]
    else []
  }

  function Purge(view: View, doomed: seq<Doomed>, also: set<Slot>): seq<Write> {
    if doomed == [] then [] else HardDelete(view, doomed[0], also) + Purge(view, doomed[1..], also)
  }

  function PurgeEvents(doomed: seq<Doomed>): seq<LogEvent> {
    if doomed == [] then []
    else [LogEvent(doomed[0].q.ctx, SlotOf(doomed[0]), doomed[0].rec.id, HardDeleted)] + PurgeEvents(doomed[1..])
  }

  function DoomAll(q: Qualified, vs: seq<Entry>): (ds: seq<Doomed>)
    ensures |ds| == |vs| && forall i | 0 <= i < |vs| :: ds[i] == Doomed(q, vs[i].version, vs[i].rec)
  {
    if vs == [] then [] else [Doomed(q, vs[0].version, vs[0].rec)] + DoomAll(q, vs[1..])
  }

  function Slots(doomed: seq<Doomed>): set<Slot> {
    set d | d in doomed :: SlotOf(d)
  }

  // ---------------- registration ----------------

  /** A request schema once it has been canonicalised; its targets are those of its references. */
  datatype Canon = Canon(content: Content, deps: seq<string>)

  function Canonicalize(env: Env, view: View, q: Qualified, d: Draft, isNew: bool,
                        normalize: bool): Result<Option<Canon>, Error> {
    if d.text.None? then Success(None)
    else if d.kind.None? then Failure(InvalidSchema)
    else
      var resolved :- ResolveRefs(view, q.ctx, d.refs, NOTHING);
      var text := env.canonText(Readable(d.kind.value, d.text.value, resolved.closure.texts), normalize, normalize
                                && isNew);
      if text.None? then Failure(InvalidSchema)
      else Success(Some(Canon(Content(d.kind.value, text.value, resolved.refs, d.metadata, d.rules),
                              resolved.closure.texts)))
  }

  /** The highest version of the subject among the uses of an id. */
  function HighestUse(uses: set<Slot>, subject: string): (v: Option<nat>)
    ensures v.Some? ==> Slot(subject,
                             v.value) in uses && forall u | u in uses && u.subject == subject :: u.version <= v.value
    ensures v.None? ==> forall u | u in uses :: u.subject != subject
  {
    var mine := set u | u in uses && u.subject == subject :: u.version;
    if mine == {} then
      assert forall u | u in uses && u.subject == subject :: u.version in mine;
      None
    else
      MaxExists(mine);
      assert forall u | u in uses && u.subject == subject :: u.version in mine;
      var m :| IsMax(mine, m);
      Some(m)
  }

  predicate IsMax(s: set<nat>, m: nat) {
    m in s && forall n | n in s :: n <= m
  }

  lemma {:induction false} MaxExists(s: set<nat>)
    requires s != {}
    ensures exists m :: IsMax(s, m)
  {
    var x :| x in s;
    var rest := s - {x};
    if rest == {} {
      assert s == {x};
      assert IsMax(s, x);
    } else {
      MaxExists(rest);
      var m :| IsMax(rest, m);
      assert forall n | n in s :: n == x || n in rest;
      assert IsMax(s, if m > x then m else x);
    }
  }

  /**
   `hash_lookup`: the indexed id of a content, unless nothing uses it, with the
   subject's highest version under it.
   */
  function HashLookup(snap: Snap, q: Qualified, content: Content): Option<(nat, Option<Entry>)> {
    var id := IdForContent(snap, q.ctx, content);
    if id.None? || IdUsages(snap, q.ctx, id.value) == {} then None
    else
      var v := HighestUse(IdUsages(snap, q.ctx, id.value), q.subject);
      if v.None? then Some((id.value, None))
      else
        var rec := GetVersion(snap, q.ctx, Slot(q.subject, v.value));
        Some((id.value, if rec.Some? then Some(Entry(v.value, rec.value)) else None))
  }

  const I32_LIMIT := 0x8000_0000

  /** `id as i32`. */
  function AsI32(id: nat): int {
    var low := id % 0x1_0000_0000;
    if low < I32_LIMIT then low else low - 0x1_0000_0000
  }

  /** The first live version, newest first, that already answers for this content. */
  function FindEqual(env: Env, view: View, q: Qualified, c: Content, schemaId: int,
                     live: seq<Entry>): Result<Option<Entry>, Error> {
    if live == [] then Success(None)
    else if schemaId >= 0 && schemaId != live[0].rec.id then FindEqual(env, view, q, c, schemaId, live[1..])
    else
      var rec := Body(view, q.ctx, live[0].rec.id);
      if rec.None? then Failure(SchemaNotFound)
      else if env.canLookup(c, rec.value.content, live[0].version) then Success(Some(live[0]))
      else FindEqual(env, view, q, c, schemaId, live[1..])
  }

  /** What a registration is checked against, in the order given: the live versions of its group. */
  function Candidates(view: View, q: Qualified, cfg: Config, c: Content,
                      live: seq<Entry>): Result<seq<Content>, Error> {
    if live == [] then Success([])
    else
      var rec := Body(view, q.ctx, live[0].rec.id);
      if rec.None? then Failure(SchemaNotFound)
      else
        var rest :- Candidates(view, q, cfg, c, live[1..]);
        Success((if InGroup(cfg, c, rec.value.content) then [rec.value.content] else []) + rest)
  }

  predicate InGroup(cfg: Config, a: Content, b: Content) {
    cfg.group.None? || Property(a, cfg.group.value) == Property(b, cfg.group.value)
  }

  function Property(c: Content, key: string): Option<string> {
    if c.metadata.Some? then Lookup(c.metadata.value.properties, key) else None
  }

  /** `check_level` against one earlier version. */
  predicate Compatible(env: Env, level: Level, newer: Readable, earlier: Readable) {
    && newer.kind == earlier.kind
    && (ReadsBack(level) ==> env.canRead(newer, earlier))
    && (ReadsAhead(level) ==> env.canRead(earlier, newer))
  }

  function CheckAll(env: Env, view: View, ctx: string, level: Level, newer: Readable,
                    olds: seq<Content>): Result<bool, Error> {
    if olds == [] then Success(true)
    else
      var readable :- ReadableOf(view, ctx, olds[0]);
      var rest :- CheckAll(env, view, ctx, level, newer, olds[1..]);
      Success(Compatible(env, level, newer, readable) && rest)
  }

  function CheckCompatibility(env: Env, view: View, ctx: string, level: Level, c: Canon,
                              olds: seq<Content>): Result<bool, Error> {
    if level == NoCheck || olds == [] then Success(true)
    else
      CheckAll(env, view, ctx, level, Readable(c.content.kind, c.content.text, c.deps),
               if Transitive(level) then olds else olds[..1])
  }

  datatype Prepared = Prepared(draft: Draft, canon: Option<Canon>)

  function Inheriting(env: Env, previous: Option<Content>, cfg: Config, d: Draft, newer: nat): Draft {
    var m := env.merge(previous, cfg, d, newer);
    d.(metadata := m.0, rules := m.1)
  }

  /**
   `populate_from_previous`: a draft without text is filled from the last live
   version, and every draft is merged with it.
   */
  function Populate(env: Env, view: View, q: Qualified, d: Draft): Result<Draft, Error> {
    var live := NewestFirst(LiveOnes(ListVersions(view.snap, q)));
    var cfg := ConfigInScope(env, view.snap, q);
    var newer := NewVersion(ListVersions(view.snap, q));
    if live == [] then
      if d.text.None? then Failure(EmptySchema) else Success(Inheriting(env, None, cfg, d, newer))
    else
      var rec := Body(view, q.ctx, live[0].rec.id);
      if rec.None? then Failure(SchemaNotFound)
      else
        var p := rec.value.content;
        var base := if d.text.None? then d.(text := Some(p.text), kind := Some(p.kind), refs := AllAsSent(p.refs))
          else d;
        Success(Inheriting(env, Some(p), cfg, base, newer))
  }

  /** The draft in full, unless the subject is being imported into, and its canonical form. */
  function Prepare(env: Env, view: View, q: Qualified, d: Draft, normalize: bool): Result<Prepared, Error> {
    var normalizing := normalize || ConfigInScope(env, view.snap, q).normalize == Some(true);
    var full :- if ModeInScope(view.snap, q) == Mode.Import then Success(d) else Populate(env, view, q, d);
    var canon :- Canonicalize(env, view, q, full, full.id < 0, normalizing);
    Success(Prepared(full, canon))
  }

  /** Either the schema is there already, or it is to be stored under this version and id. */
  datatype Outcome = Already(id: nat, version: nat) | Fresh(canon: Canon, version: nat, id: nat)

  function PickId(view: View, q: Qualified, schemaId: int, c: Content): Result<nat, Error> {
    if schemaId < 0 then Success(NextId(view.snap, q.ctx))
    else
      var existing := Body(view, q.ctx, schemaId);
      if IdUsages(view.snap, q.ctx, schemaId) != {} && existing.Some? && existing.value.content != c
      then Failure(NotPermitted) else Success(schemaId)
  }

  function PickVersion(view: View, q: Qualified, version: int, imports: bool): Result<nat, Error> {
    var newer := NewVersion(ListVersions(view.snap, q));
    if version <= 0 then Success(newer)
    else if newer != version && !imports then Failure(NotNextVersion)
    else Success(version)
  }

  /** The id to store under, once the content hash has had its say. */
  function SchemaIdOf(snap: Snap, q: Qualified, p: Prepared): int {
    var hit := if p.canon.Some? then HashLookup(snap, q, p.canon.value.content) else None;
    if hit.Some? && (p.draft.id < 0 || p.draft.id == hit.value.0) then AsI32(hit.value.0) else p.draft.id
  }

  /** A version without a number of its own that the subject already has live, by content hash. */
  function HitVersion(snap: Snap, q: Qualified, p: Prepared): Option<(nat, nat)> {
    var hit := if p.canon.Some? then HashLookup(snap, q, p.canon.value.content) else None;
    if && hit.Some? && (p.draft.id < 0 || p.draft.id == hit.value.0)
       && p.draft.version == 0 && hit.value.1.Some? && Live(hit.value.1.value)
    then Some((hit.value.0, hit.value.1.value.version)) else None
  }

  function Settle(env: Env, view: View, q: Qualified, p: Prepared): Result<Outcome, Error> {
    var imports := ModeInScope(view.snap, q) == Mode.Import;
    var live := NewestFirst(LiveOnes(ListVersions(view.snap, q)));
    var hit := HitVersion(view.snap, q, p);
    if hit.Some? then Success(Already(hit.value.0, hit.value.1))
    else
      var schemaId := SchemaIdOf(view.snap, q, p);
      var same :- if p.draft.version == 0 && p.canon.Some?
                  then FindEqual(env, view, q, p.canon.value.content, schemaId, live) else Success(None);
      if same.Some? then Success(Already(same.value.rec.id, same.value.version))
      else if p.canon.None? then Failure(EmptySchema)
      else
        var c := p.canon.value;
        var cfg := ConfigInScope(env, view.snap, q);
        var fits :- if imports then Success(true)
                    else CheckCandidates(env, view, q, cfg, c, live);
        if !fits then Failure(Incompatible)
        else
          var version :- PickVersion(view, q, p.draft.version, imports);
          var id :- PickId(view, q, schemaId, c.content);
          Success(Fresh(c, version, id))
  }

  function CheckCandidates(env: Env, view: View, q: Qualified, cfg: Config, c: Canon,
                           live: seq<Entry>): Result<bool, Error> {
    var olds :- Candidates(view, q, cfg, c.content, live);
    CheckCompatibility(env, view, q.ctx, OrElse(cfg.level, env.defaultLevel), c, olds)
  }

  function StaleOnes(vs: seq<Entry>, id: nat, version: nat): (stale: seq<Entry>)
    ensures forall e :: e in stale <==> e in vs && e.rec.deleted && e.rec.id == id && e.version < version
  {
    if vs == [] then []
    else (if vs[0].rec.deleted && vs[0].rec.id == id && vs[0].version < version then [vs[0]]
          else []) + StaleOnes(vs[1..], id, version)
  }

  function AddEdges(ctx: string, refs: seq<Reference>, id: nat): seq<Write> {
    if refs == [] then []
    else
      var t := RefTarget(ctx, refs[0]);
      [PutRefby(t.ctx, Slot(t.subject, AtLeastOne(refs[0].version)), id)] + AddEdges(ctx, refs[1..], id)
  }

  /** The row that occupied the version number, if any. */
  function Replaced(view: View, q: Qualified, version: nat): seq<Doomed> {
    var rec := Find(ListVersions(view.snap, q), version);
    if rec.Some? then [Doomed(q, version, rec.value)] else []
  }

  /** Hidden rows of the subject below the version, under the id about to be recorded. */
  function Stale(view: View, q: Qualified, version: nat, id: nat): seq<Doomed> {
    DoomAll(q, StaleOnes(ListVersions(view.snap, q), id, version))
  }

  /** Content that is already stored under the id is kept as it is. */
  function RecordFor(view: View, q: Qualified, id: nat, c: Content): SchemaRecord {
    var existing := Body(view, q.ctx, id);
    if existing.Some? && existing.value.content == c then existing.value else SchemaRecord(c, view.guid)
  }

  function PutWrites(view: View, q: Qualified, c: Content, version: nat, id: nat): seq<Write> {
    [PutSchema(q.ctx, id, RecordFor(view, q, id, c), true)] +
    (if id >= NextId(view.snap, q.ctx) then [SetNextId(q.ctx, id + 1)] else []) +
    [PutVersion(q.ctx, Slot(q.subject, version), VersionRecord(id, false, view.now))] +
    AddEdges(q.ctx, c.refs, id)
  }

  function RegisterPlan(view: View, q: Qualified, c: Content, version: nat, id: nat): Plan {
    var replaced, stale := Replaced(view, q, version), Stale(view, q, version, id);
    Plan(Purge(view, replaced, {}) + Purge(view, stale, Slots(stale)) + PutWrites(view, q, c, version, id),
         PurgeEvents(replaced) + PurgeEvents(stale) + [LogEvent(q.ctx, Slot(q.subject, version), id, Registered)])
  }

  function PlanRegister(env: Env, view: View, q: Qualified, d: Draft, normalize: bool): Result<Plan, Error> {
    var p :- Prepare(env, view, q, d, normalize);
    var o :- Settle(env, view, q, p);
    match o
    case Already(_, _) => Success(Plan([], []))
    case Fresh(c, version, id) => Success(RegisterPlan(view, q, c.content, version, id))
  }

  // ---------------- deletes ----------------

  function HideAll(q: Qualified, vs: seq<Entry>): seq<Write> {
    if vs == [] then []
    else [PutVersion(q.ctx, Slot(q.subject, vs[0].version), vs[0].rec.(deleted := true))] + HideAll(q, vs[1..])
  }

  function HideEvents(q: Qualified, vs: seq<Entry>): seq<LogEvent> {
    if vs == [] then []
    else [LogEvent(q.ctx, Slot(q.subject, vs[0].version), vs[0].rec.id, SoftDeleted)] + HideEvents(q, vs[1..])
  }

  /** Deletes the subject's own mode and configuration. */
  function DropSettings(q: Qualified): seq<Write> {
    [DeleteMode(Subject(q.ctx, q.subject)), DeleteConfig(Subject(q.ctx, q.subject))]
  }

  /** The first complaint, in version order: a live referrer, or a row that was not soft-deleted first. */
  function Objection(snap: Snap, q: Qualified, vs: seq<Entry>, permanent: bool): Option<Error> {
    if vs == [] then None
    else if ReferencedLive(snap, q.ctx, Slot(q.subject, vs[0].version)) then Some(ReferenceExists)
    else if permanent && Live(vs[0]) then Some(SubjectNotSoftDeleted)
    else Objection(snap, q, vs[1..], permanent)
  }

  function PlanDropSubject(view: View, q: Qualified, permanent: bool): Result<Plan, Error> {
    if !HasSubjects(view.snap, q, true) then Failure(SubjectNotFound)
    else if !permanent && !HasSubjects(view.snap, q, false) then Failure(SubjectSoftDeleted)
    else
      var all := ListVersions(view.snap, q);
      var vs := if permanent then all else LiveOnes(all);
      var objection := Objection(view.snap, q, vs, permanent);
      if objection.Some? then Failure(objection.value)
      else if permanent then
        var doomed := DoomAll(q, vs);
        Success(Plan(Purge(view, doomed, Slots(doomed)), PurgeEvents(doomed)))
      else
        Success(Plan(HideAll(q, vs) + DropSettings(q), HideEvents(q, vs)))
  }

  function PlanDropVersion(view: View, q: Qualified, spec: VersionSpec, permanent: bool): Result<Plan, Error> {
    var any := GetExact(view.snap, q, spec, true);
    if any.Some? && !permanent && GetExact(view.snap, q, spec, false).None? then Failure(VersionSoftDeleted)
    else if any.None? then Failure(if HasSubjects(view.snap, q, true) then VersionNotFound else SubjectNotFound)
    else
      var e := any.value;
      if ReferencedLive(view.snap, q.ctx, Slot(q.subject, e.version)) then Failure(ReferenceExists)
      else if permanent && Live(e) then Failure(VersionNotSoftDeleted)
      else if permanent then
        var doomed := [Doomed(q, e.version, e.rec)];
        Success(Plan(Purge(view, doomed, {}), PurgeEvents(doomed)))
      else
        var others := exists x | x in ListVersions(view.snap, q) :: x.version != e.version && Live(x);
        Success(Plan(HideAll(q, [e]) + if others then [] else DropSettings(q), HideEvents(q, [e])))
  }

  // ---------------- settings ----------------

  function ScopeFor(target: Option<Qualified>): Scope {
    if target.Some? then ScopeOf(target.value) else Global
  }

  function AllOf(snap: Snap, ctx: string, names: seq<string>): seq<Doomed> {
    if names == [] then []
    else DoomAll(Qualified(ctx, names[0]), ListVersions(snap, Qualified(ctx, names[0]))) + AllOf(snap, ctx, names[1..])
  }

  function AllIn(snap: Snap, ctxs: seq<string>): seq<Doomed> {
    if ctxs == [] then []
    else AllOf(snap, ctxs[0], N.InOrder(SubjectNames(snap, ctxs[0]))) + AllIn(snap, ctxs[1..])
  }

  /** The rows of all the subjects a mode change is about. */
  function InScope(snap: Snap, target: Option<Qualified>): seq<Doomed> {
    if target.None? then AllIn(snap, N.InOrder(Contexts(snap)))
    else if ContextOnly(target.value) then
      AllOf(snap, target.value.ctx, N.InOrder(SubjectNames(snap, target.value.ctx)))
    else DoomAll(target.value, ListVersions(snap, target.value))
  }

  function PlanChangeMode(view: View, target: Option<Qualified>, mode: Mode, force: bool): Result<Plan, Error> {
    var put := [PutMode(ScopeFor(target), mode)];
    if mode == Mode.Import && ModeFor(view.snap, target) != Mode.Import && !force then
      var live := if target.Some? then HasSubjects(view.snap, target.value, false) else HasAnySubject(view.snap, false);
      if live then Failure(NotPermitted)
      else
        var doomed := InScope(view.snap, target);
        if exists d | d in doomed :: ReferencedLive(view.snap, d.q.ctx, SlotOf(d)) then Failure(ReferenceExists)
        else Success(Plan(Purge(view, doomed, Slots(doomed)) + put, PurgeEvents(doomed)))
    else Success(Plan(put, []))
  }

  function PlanClearMode(view: View, q: Qualified): Result<Plan, Error> {
    if GlobalMode(view.snap) != ReadonlyOverride && GetMode(view.snap, ScopeOf(q)).None? then Failure(SubjectNotFound)
    else Success(Plan([DeleteMode(ScopeOf(q))], []))
  }

  function PlanDropContext(view: View, name: string): Result<Plan, Error> {
    if name == DEFAULT_CONTEXT || name == "*" then Failure(NotPermitted)
    else if SubjectNames(view.snap, name) != {} then Failure(ContextNotEmpty)
    else Success(Plan([DeleteContext(name), DeleteConfig(Context(name)), DeleteMode(Context(name))], []))
  }

  function First<T>(a: Option<T>, b: Option<T>): Option<T> {
    if a.Some? then a else b
  }

  /** Field by field: the update's if it has one, else the stored one. */
  function Merged(stored: Config, update: Config): Config {
    Config(First(update.level, stored.level), First(update.alias, stored.alias),
           First(update.normalize, stored.normalize),
           First(update.group, stored.group), First(update.defaults, stored.defaults),
           First(update.overrides, stored.overrides))
  }

  function PlanUpdateConfig(view: View, target: Option<Qualified>, update: Config): Result<Plan, Error> {
    var scope := ScopeFor(target);
    Success(Plan([PutConfig(scope, Merged(OrElse(GetConfig(view.snap, scope), NO_CONFIG), update))], []))
  }

  function PlanClearConfig(view: View, target: Option<Qualified>): Result<Plan, Error> {
    if target.Some? && GetConfig(view.snap, ScopeFor(target)).None? then Failure(SubjectNotFound)
    else Success(Plan([DeleteConfig(ScopeFor(target))], []))
  }

  // ---------------- every verb ----------------

  function PlanOf(env: Env, view: View, verb: Verb): Result<Plan, Error> {
    match verb
    case Register(q, d, normalize) => PlanRegister(env, view, q, d, normalize)
    case DropSubject(q, permanent) => PlanDropSubject(view, q, permanent)
    case DropVersion(q, spec, permanent) => PlanDropVersion(view, q, spec, permanent)
    case ChangeMode(t, mode, force) => PlanChangeMode(view, t, mode, force)
    case ClearMode(q) => PlanClearMode(view, q)
    case DropContext(name) => PlanDropContext(view, name)
    case UpdateConfig(t, update) => PlanUpdateConfig(view, t, update)
    case ClearConfig(t) => PlanClearConfig(view, t)
  }

  /** The plan, and the mode table before or after it as the verb asks. */
  function Decide(env: Env, view: View, verb: Verb): Result<Plan, Error> {
    var allowed := Allowed(IntentOf(verb), ModeFor(view.snap, TargetOf(verb)));
    if GatedFirst(verb) && !allowed then Failure(ModeRefuses)
    else
      var plan :- PlanOf(env, view, verb);
      if !allowed then Failure(ModeRefuses) else Success(plan)
  }
}
