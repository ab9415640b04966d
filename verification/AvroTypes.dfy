/**
 Avro schemas as the compatibility checker sees them: a syntax tree whose
 recursion goes through named references, and a table of named types built
 from the schema and everything it references (src/schema/avro.rs).
 */
module AvroTypes {
  import opened Wrappers

  datatype Prim = Null | Boolean | Int | Long | Float | Double | Bytes | Str

  /** A full name; two names are equal exactly when their dotted spellings are. */
  datatype Name = Name(space: string, simple: string)

  /** An alias may leave its namespace to be filled in by the type that carries it. */
  datatype Alias = Alias(space: Option<string>, simple: string)

  function AliasName(a: Alias, enclosing: string): Name {
    match a.space
    case Some(s) => Name(s, a.simple)
    case None => Name(enclosing, a.simple)
  }

  /** Values of Avro types; record values list their fields in schema order. */
  datatype Value =
    | NullV
    | BoolV(b: bool)
    | IntV(n: int)
    | LongV(n: int)
    | FloatV(x: real)
    | DoubleV(x: real)
    | BytesV(bytes: seq<int>)
    | StringV(bytes: seq<int>)
    | FixedV(bytes: seq<int>)
    | EnumV(symbol: string)
    | ArrayV(items: seq<Value>)
    | MapV(entries: seq<Entry>)
    | UnionV(branch: nat, value: Value)
    | RecordV(fields: seq<Value>)

  datatype Entry = Entry(key: string, value: Value)

  datatype FixedDef = FixedDef(name: Name, aliases: seq<Alias>, size: nat)
  datatype EnumDef = EnumDef(name: Name, aliases: seq<Alias>, symbols: seq<string>, default: Option<string>)
  datatype RecordDef = RecordDef(name: Name, aliases: seq<Alias>, fields: seq<Field>)
  datatype Field = Field(name: string, aliases: seq<string>, schema: Schema, default: Option<Value>)

  datatype LogicalType =
    | Date | TimeMillis | TimeMicros
    | TimestampMillis | TimestampMicros | TimestampNanos
    | LocalTimestampMillis | LocalTimestampMicros | LocalTimestampNanos
    | BigDecimal | DecimalBytes | UuidString | UuidBytes

  datatype Schema =
    | Plain(p: Prim)
    | Logical(l: LogicalType)
    | Fixed(f: FixedDef)
    | Duration(f: FixedDef)
    | DecimalFixed(f: FixedDef)
    | UuidFixed(f: FixedDef)
    | Array(items: Schema)
    | Map(values: Schema)
    | Union(variants: seq<Schema>)
    | Record(r: RecordDef)
    | Enum(e: EnumDef)
    | Ref(name: Name)

  /** What a name table can hold: `collect_names` only ever enters named types. */
  datatype Named = NRecord(r: RecordDef) | NEnum(e: EnumDef) | NFixed(f: FixedDef)

  type Names = map<Name, Named>

  function NameOf(d: Named): Name {
    match d
    case NRecord(r) => r.name
    case NEnum(e) => e.name
    case NFixed(f) => f.name
  }

  /** What a schema stands for at the top: logical types are their base types, a name is its definition. */
  datatype Lowered =
    | LPrim(p: Prim)
    | LArray(items: Schema)
    | LMap(values: Schema)
    | LUnion(variants: seq<Schema>)
    | LNamed(d: Named)
    | Unresolved(name: Name)

  function BaseOf(l: LogicalType): Prim {
    match l
    case Date | TimeMillis => Int
    case TimeMicros | TimestampMillis | TimestampMicros | TimestampNanos => Long
    case LocalTimestampMillis | LocalTimestampMicros | LocalTimestampNanos => Long
    case BigDecimal | DecimalBytes | UuidBytes => Bytes
    case UuidString => Str
  }

  function Lower(s: Schema, names: Names): Lowered {
    match s
    case Plain(p) => LPrim(p)
    case Logical(l) => LPrim(BaseOf(l))
    case Fixed(f) => LNamed(NFixed(f))
    case Duration(f) => LNamed(NFixed(f))
    case DecimalFixed(f) => LNamed(NFixed(f))
    case UuidFixed(f) => LNamed(NFixed(f))
    case Array(i) => LArray(i)
    case Map(v) => LMap(v)
    case Union(vs) => LUnion(vs)
    case Record(r) => LNamed(NRecord(r))
    case Enum(e) => LNamed(NEnum(e))
    case Ref(n) => if n in names then LNamed(names[n]) else Unresolved(n)
  }

  /** Data of the first can be taken for the second. */
  predicate Promotable(writer: Prim, reader: Prim) {
    || writer == reader
    || (writer == Int && reader in {Long, Float, Double})
    || (writer == Long && reader in {Float, Double})
    || (writer == Float && reader == Double)
    || (writer == Str && reader == Bytes)
    || (writer == Bytes && reader == Str)
  }

  predicate NamesMatch(reader: Name, aliases: seq<Alias>, writer: Name) {
    || reader.simple == writer.simple
    || exists a | a in aliases :: AliasName(a, "") == writer || AliasName(a, reader.space) == writer
  }

  /** The writer field a reader field takes its data from: by name, else by reader alias. */
  function FirstNamed(fields: seq<Field>, name: string): (i: Option<nat>)
    ensures i.Some? ==> i.value < |fields| && fields[i.value].name == name
    ensures i.None? ==> forall k | 0 <= k < |fields| :: fields[k].name != name
    ensures i.Some? ==> forall k | 0 <= k < i.value :: fields[k].name != name
  {
    if fields == [] then None
    else if fields[0].name == name then Some(0)
    else match FirstNamed(fields[1..], name)
      case None => None
      case Some(k) => Some(k + 1)
  }

  function FirstAliased(fields: seq<Field>, aliases: seq<string>): (i: Option<nat>)
    ensures i.Some? ==> i.value < |fields| && fields[i.value].name in aliases
    ensures i.None? ==> forall k | 0 <= k < |fields| :: fields[k].name !in aliases
  {
    if fields == [] then None
    else if fields[0].name in aliases then Some(0)
    else match FirstAliased(fields[1..], aliases)
      case None => None
      case Some(k) => Some(k + 1)
  }

  function FindField(rf: Field, fields: seq<Field>): (i: Option<nat>)
    ensures i.Some? ==> i.value < |fields|
  {
    match FirstNamed(fields, rf.name)
    case Some(k) => Some(k)
    case None => FirstAliased(fields, rf.aliases)
  }

  // ---------------- size ----------------

  function Size(s: Schema): (n: nat)
    ensures n >= 1
    decreases s
  {
    match s
    case Array(i) => 1 + Size(i)
    case Map(v) => 1 + Size(v)
    case Union(vs) => 1 + SizeAll(vs)
    case Record(r) => 1 + SizeFields(r.fields)
    case _ => 1
  }

  function SizeAll(vs: seq<Schema>): nat
    decreases vs
  {
    if vs == [] then 0 else Size(vs[0]) + SizeAll(vs[1..])
  }

  function SizeFields(fs: seq<Field>): nat
    decreases fs
  {
    if fs == [] then 0 else Size(fs[0].schema) + SizeFields(fs[1..])
  }

  function NamedSize(d: Named): nat {
    match d
    case NRecord(r) => 1 + SizeFields(r.fields)
    case _ => 1
  }

  lemma {:induction false} VariantIsSmaller(vs: seq<Schema>, i: nat)
    requires i < |vs|
    ensures Size(vs[i]) <= SizeAll(vs)
  {
    if i > 0 {
      VariantIsSmaller(vs[1..], i - 1);
    }
  }

  lemma {:induction false} FieldIsSmaller(fs: seq<Field>, i: nat)
    requires i < |fs|
    ensures Size(fs[i].schema) <= SizeFields(fs)
  {
    if i > 0 {
      FieldIsSmaller(fs[1..], i - 1);
    }
  }

  // ---------------- name tables ----------------

  /** Every named type written inline is the one the table holds under its name. */
  predicate Fits(s: Schema, names: Names)
    decreases s
  {
    match s
    case Array(i) => Fits(i, names)
    case Map(v) => Fits(v, names)
    case Union(vs) => forall v | v in vs :: Fits(v, names)
    case Record(r) => Holds(names, NRecord(r)) && forall f | f in r.fields :: Fits(f.schema, names)
    case Enum(e) => Holds(names, NEnum(e))
    case Fixed(f) => Holds(names, NFixed(f))
    case Duration(f) => Holds(names, NFixed(f))
    case DecimalFixed(f) => Holds(names, NFixed(f))
    case UuidFixed(f) => Holds(names, NFixed(f))
    case _ => true
  }

  predicate Holds(names: Names, d: Named) {
    NameOf(d) in names && names[NameOf(d)] == d
  }

  predicate FitsNamed(d: Named, names: Names) {
    d.NRecord? ==> forall f | f in d.r.fields :: Fits(f.schema, names)
  }

  predicate TableOk(names: Names) {
    forall n | n in names :: NameOf(names[n]) == n && FitsNamed(names[n], names)
  }

  lemma LoweredNamedIsInTable(s: Schema, names: Names)
    requires TableOk(names) && Fits(s, names)
    ensures var l := Lower(s, names); l.LNamed? ==> Holds(names, l.d) && FitsNamed(l.d, names)
  {
  }
}
