/**
 The records a schema registry keeps (src/model.rs, src/store.rs) and the rows
 a mutation can write (src/mutations/mod.rs).

 A content hash is collision-free on what it hashes, so a fingerprint is
 modelled by the content itself.
 */
module RegistryTypes {
  import opened Wrappers

  datatype SchemaType = Avro | Json | Protobuf

  /** A stored reference: `ctx` is given when the subject was written with one. */
  datatype Reference = Reference(name: string, ctx: Option<string>, subject: string, version: int)

  datatype Metadata = Metadata(properties: map<string, string>, other: string)

  datatype Content = Content(
    kind: SchemaType,
    text: string,
    refs: seq<Reference>,
    metadata: Option<Metadata>,
    rules: Option<string>)

  datatype SchemaRecord = SchemaRecord(content: Content, guid: string)

  datatype VersionRecord = VersionRecord(id: nat, deleted: bool, ts: int)

  datatype Level = NoCheck | Backward | BackwardTransitive | Forward | ForwardTransitive | Full | FullTransitive

  predicate Transitive(l: Level) {
    l in {BackwardTransitive, ForwardTransitive, FullTransitive}
  }

  /** BACKWARD and FULL: the newer side is the reader. */
  predicate ReadsBack(l: Level) {
    l in {Backward, BackwardTransitive, Full, FullTransitive}
  }

  /** FORWARD and FULL: the older side is the reader. */
  predicate ReadsAhead(l: Level) {
    l in {Forward, ForwardTransitive, Full, FullTransitive}
  }

  datatype Mode = Readwrite | Readonly | ReadonlyOverride | Import

  datatype Config = Config(
    level: Option<Level>,
    alias: Option<string>,
    normalize: Option<bool>,
    group: Option<string>,
    defaults: Option<string>,
    overrides: Option<string>)

  const NO_CONFIG := Config(None, None, None, None, None, None)

  const DEFAULT_CONTEXT := "."

  datatype Qualified = Qualified(ctx: string, subject: string)

  /** `:.ctx:` names a context and no subject. */
  predicate ContextOnly(q: Qualified) {
    q.subject == ""
  }

  datatype Scope = Global | Context(ctx: string) | Subject(ctx: string, subject: string)

  function ScopeOf(q: Qualified): Scope {
    if ContextOnly(q) then Context(q.ctx) else Subject(q.ctx, q.subject)
  }

  predicate Within(s: Scope, ctx: string) {
    !s.Global? && s.ctx == ctx
  }

  /** A version of a subject, inside one context. */
  datatype Slot = Slot(subject: string, version: nat)

  /** An entry of the reference index: schema `id` refers to the slot. */
  datatype Edge = Edge(slot: Slot, id: nat)

  datatype EventKind = Registered | SoftDeleted | HardDeleted

  datatype LogEvent = LogEvent(ctx: string, slot: Slot, id: nat, kind: EventKind)

  /** A change to one row of one table. */
  datatype Write =
    | PutSchema(ctx: string, id: nat, rec: SchemaRecord, index: bool)
    | PutVersion(ctx: string, slot: Slot, version: VersionRecord)
    | DeleteVersion(ctx: string, slot: Slot, id: nat)
    | DeleteSchema(ctx: string, id: nat)
    | PutRefby(ctx: string, slot: Slot, id: nat)
    | DeleteRefby(ctx: string, slot: Slot, id: nat)
    | SetNextId(ctx: string, next: nat)
    | DeleteContext(ctx: string)
    | PutConfig(scope: Scope, config: Config)
    | DeleteConfig(scope: Scope)
    | PutMode(scope: Scope, mode: Mode)
    | DeleteMode(scope: Scope)

  datatype Plan = Plan(writes: seq<Write>, events: seq<LogEvent>)

  datatype Error =
    | SubjectNotFound
    | VersionNotFound
    | SubjectSoftDeleted
    | SubjectNotSoftDeleted
    | VersionSoftDeleted
    | VersionNotSoftDeleted
    | ReferenceExists
    | SchemaNotFound
    | InvalidSchema
    | EmptySchema
    | Incompatible
    | NotNextVersion
    | NotPermitted
    | ContextNotEmpty
    | ModeRefuses

  function Lookup<K, V>(m: map<K, V>, k: K): Option<V> {
    if k in m then Some(m[k]) else None
  }

  function OrElse<T>(o: Option<T>, t: T): T {
    if o.Some? then o.value else t
  }
}
