/**
 Row keys (src/store.rs): names end at a zero byte and numbers are four bytes,
 most significant first. A key gives back what it was made from exactly when
 the names before a zero byte hold none themselves, and the versions of a
 subject sort as their numbers do.
 */
module Keys {
  import opened Wrappers

  type Bytes = seq<nat>

  const ZERO: nat := 0

  // ---------------- numbers ----------------

  function Big(n: nat): (b: Bytes)
    requires n < 0x1_0000_0000
    ensures |b| == 4
  {
    [n / 0x100_0000, n / 0x1_0000 % 0x100, n / 0x100 % 0x100, n % 0x100]
  }

  function FromBig(b: Bytes): nat
    requires |b| == 4
  {
    b[0] * 0x100_0000 + b[1] * 0x1_0000 + b[2] * 0x100 + b[3]
  }

  lemma BigRoundTrip(n: nat)
    requires n < 0x1_0000_0000
    ensures FromBig(Big(n)) == n && forall x | x in Big(n) :: x < 0x100
  {
    assert n / 0x100 == n / 0x1_0000 * 0x100 + n / 0x100 % 0x100;
    assert n / 0x1_0000 == n / 0x100_0000 * 0x100 + n / 0x1_0000 % 0x100;
  }

  /** Byte order. */
  predicate Before(a: Bytes, b: Bytes) {
    b != [] && (a == [] || a[0] < b[0] || (a[0] == b[0] && Before(a[1..], b[1..])))
  }

  lemma BigKeepsOrder(m: nat, n: nat)
    requires m < n < 0x1_0000_0000
    ensures Before(Big(m), Big(n))
  {
    var a, b := Big(m), Big(n);
    BigRoundTrip(m);
    BigRoundTrip(n);
    assert a[1..][1..] == a[2..] && a[2..][1..] == a[3..] && b[1..][1..] == b[2..] && b[2..][1..] == b[3..];
    assert a[0] <= b[0];
    assert a[0] == b[0] ==> a[1] <= b[1];
    assert a[0] == b[0] && a[1] == b[1] ==> a[2] <= b[2];
    assert a[0] == b[0] && a[1] == b[1] && a[2] == b[2] ==> Before(a[3..], b[3..]);
    assert a[0] == b[0] && a[1] == b[1] ==> Before(a[2..], b[2..]);
    assert a[0] == b[0] ==> Before(a[1..], b[1..]);
  }

  // ---------------- names ----------------

  /** The first zero byte. */
  function Stop(k: Bytes): (i: Option<nat>)
    ensures i.Some? ==> i.value < |k| && k[i.value] == ZERO && ZERO !in k[..i.value]
    ensures i.None? ==> ZERO !in k
  {
    if k == [] then None
    else if k[0] == ZERO then Some(0)
    else
      var rest := Stop(k[1..]);
      assert rest.Some? ==> k[..rest.value + 1] == [k[0]] + k[1..][..rest.value];
      if rest.Some? then Some(rest.value + 1) else None
  }

  lemma {:induction false} StopAt(name: Bytes, rest: Bytes)
    ensures var i := Stop(name + [ZERO] + rest); i.Some? && i.value <= |name| && (i.value == |name| <==> ZERO !in name)
  {
    var k := name + [ZERO] + rest;
    if name != [] && name[0] != ZERO {
      StopAt(name[1..], rest);
      assert k[1..] == name[1..] + [ZERO] + rest;
    }
  }

  function VersionKey(ctx: Bytes, subject: Bytes, version: nat): Bytes
    requires version < 0x1_0000_0000
  {
    ctx + [ZERO] + (subject + [ZERO] + Big(version))
  }

  function RefbyKey(ctx: Bytes, subject: Bytes, version: nat, id: nat): Bytes
    requires version < 0x1_0000_0000 && id < 0x1_0000_0000
  {
    ctx + [ZERO] + (subject + [ZERO] + (Big(version) + Big(id)))
  }

  /** `split_ctx`. */
  function SplitContext(k: Bytes): Option<(Bytes, Bytes)> {
    var i := Stop(k);
    if i.None? then None else Some((k[..i.value], k[i.value + 1..]))
  }

  /** `split_subject_version`: a short tail is a malformed key. */
  function SplitVersion(k: Bytes): Option<(Bytes, nat, Bytes)> {
    var i := Stop(k);
    if i.None? || |k| < i.value + 5 then None
    else Some((k[..i.value], FromBig(k[i.value + 1..i.value + 5]), k[i.value + 5..]))
  }

  function DecodeVersion(k: Bytes): Option<(Bytes, Bytes, nat, Bytes)> {
    var outer := SplitContext(k);
    if outer.None? then None
    else
      var inner := SplitVersion(outer.value.1);
      if inner.None? then None else Some((outer.value.0, inner.value.0, inner.value.1, inner.value.2))
  }

  lemma SplitContextIff(name: Bytes, rest: Bytes)
    ensures SplitContext(name + [ZERO] + rest) == Some((name, rest)) <==> ZERO !in name
  {
    StopAt(name, rest);
    var k, i := name + [ZERO] + rest, Stop(name + [ZERO] + rest).value;
    assert |k[..i]| == i;
    if ZERO !in name {
      assert k[..i] == name && k[i + 1..] == rest;
    }
  }

  lemma SplitVersionIff(name: Bytes, version: nat, tail: Bytes)
    requires version < 0x1_0000_0000
    ensures SplitVersion(name + [ZERO] + (Big(version) + tail)) == Some((name, version, tail)) <==> ZERO !in name
  {
    StopAt(name, Big(version) + tail);
    var k := name + [ZERO] + (Big(version) + tail);
    var i := Stop(k).value;
    assert |k[..i]| == i;
    if ZERO !in name {
      BigRoundTrip(version);
      assert k[..i] == name && k[i + 1..i + 5] == Big(version) && k[i + 5..] == tail;
    }
  }

  /** A version's key decodes to it exactly when neither name holds a zero byte. */
  lemma VersionKeyRoundTripIff(ctx: Bytes, subject: Bytes, version: nat)
    requires version < 0x1_0000_0000
    ensures DecodeVersion(VersionKey(ctx, subject, version)) == Some((ctx, subject, version, [])) <==>
              ZERO !in ctx && ZERO !in subject
  {
    var rest := subject + [ZERO] + Big(version);
    assert Big(version) + [] == Big(version);
    SplitContextIff(ctx, rest);
    SplitVersionIff(subject, version, []);
    if ZERO in ctx {
      WrongContext(ctx, rest);
    }
  }

  lemma WrongContext(ctx: Bytes, rest: Bytes)
    requires ZERO in ctx
    ensures var d := DecodeVersion(ctx + [ZERO] + rest); d.Some? ==> d.value.0 != ctx
  {
    StopAt(ctx, rest);
    var k := ctx + [ZERO] + rest;
    assert |k[..Stop(k).value]| < |ctx|;
  }

  lemma RefbyKeyRoundTripIff(ctx: Bytes, subject: Bytes, version: nat, id: nat)
    requires version < 0x1_0000_0000 && id < 0x1_0000_0000
    ensures var d := DecodeVersion(RefbyKey(ctx, subject, version, id));
            (d == Some((ctx, subject, version, Big(id))) <==> ZERO !in ctx && ZERO !in subject)
              && FromBig(Big(id)) == id
  {
    var rest := subject + [ZERO] + (Big(version) + Big(id));
    SplitContextIff(ctx, rest);
    SplitVersionIff(subject, version, Big(id));
    BigRoundTrip(id);
    if ZERO in ctx {
      WrongContext(ctx, rest);
    }
  }

  lemma {:induction false} BeforeBehind(prefix: Bytes, a: Bytes, b: Bytes)
    requires Before(a, b)
    ensures Before(prefix + a, prefix + b)
    decreases prefix
  {
    if prefix == [] {
      assert prefix + a == a && prefix + b == b;
    } else {
      assert (prefix + a)[1..] == prefix[1..] + a && (prefix + b)[1..] == prefix[1..] + b;
      BeforeBehind(prefix[1..], a, b);
    }
  }

  /** The versions of a subject are scanned oldest first. */
  lemma VersionsScanInOrder(ctx: Bytes, subject: Bytes, older: nat, newer: nat)
    requires older < newer < 0x1_0000_0000
    ensures Before(VersionKey(ctx, subject, older), VersionKey(ctx, subject, newer))
  {
    BigKeepsOrder(older, newer);
    var prefix := ctx + [ZERO] + (subject + [ZERO]);
    BeforeBehind(prefix, Big(older), Big(newer));
    assert VersionKey(ctx, subject, older) == prefix + Big(older);
    assert VersionKey(ctx, subject, newer) == prefix + Big(newer);
  }

  // ---------------- scopes ----------------

  datatype Scope = Global | Context(ctx: Bytes) | Subject(ctx: Bytes, subject: Bytes)

  const LETTER_G: nat := 71
  const LETTER_C: nat := 67
  const LETTER_S: nat := 83

  function ScopeKey(s: Scope): Bytes {
    match s
    case Global => [LETTER_G]
    case Context(ctx) => [LETTER_C] + ctx
    case Subject(ctx, subject) => [LETTER_S] + (ctx + [ZERO] + subject)
  }

  function FromScopeKey(k: Bytes): Option<Scope> {
    if k == [] then None
    else if k[0] == LETTER_G then Some(Global)
    else if k[0] == LETTER_C then Some(Context(k[1..]))
    else if k[0] == LETTER_S then
      var split := SplitContext(k[1..]);
      if split.None? then None else Some(Subject(split.value.0, split.value.1))
    else None
  }

  /**
   A scope's key decodes to it exactly when a subject's context holds no zero
   byte. Requests with a control character anywhere in the name are refused
   before they get here; the names in a dump are not looked at.
   */
  lemma ScopeKeyRoundTripIff(s: Scope)
    ensures FromScopeKey(ScopeKey(s)) == Some(s) <==> (s.Subject? ==> ZERO !in s.ctx)
  {
    if s.Subject? {
      SplitContextIff(s.ctx, s.subject);
      assert ScopeKey(s)[1..] == s.ctx + [ZERO] + s.subject;
    }
  }
}
