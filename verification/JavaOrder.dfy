/**
 The iteration order of Java's HashSet (src/schema/java_order.rs): keeping the
 keys in insertion order, counting how often the table would have doubled and
 sorting by bucket gives what a chained hash table gives, which appends to the
 tail of a bucket and splits every bucket in two, in order, on each doubling.

 `hash` stands for a key's spread hash. Treeified buckets are not modelled, as
 the source says of itself.
 */
module JavaOrder {

  // ---------------- bits ----------------

  function Pow2(n: nat): (p: nat)
    ensures p >= 1
  {
    if n == 0 then 1 else 2 * Pow2(n - 1)
  }

  /** Bitwise and. */
  function And(x: nat, y: nat): nat {
    if x == 0 || y == 0 then 0 else (if x % 2 == 1 && y % 2 == 1 then 1 else 0) + 2 * And(x / 2, y / 2)
  }

  lemma {:induction false} AtLeastOnce(m: int, d: int)
    requires m > 0 && d >= 1
    ensures m * d >= m
    decreases d
  {
    if d > 1 {
      AtLeastOnce(m, d - 1);
      assert m * d == m * (d - 1) + m;
    }
  }

  lemma MultipleIsFar(m: int, d: int)
    requires m > 0 && d != 0
    ensures m * d >= m || m * d <= -m
  {
    if d > 0 {
      AtLeastOnce(m, d);
    } else {
      AtLeastOnce(m, -d);
      assert m * -d == -(m * d);
    }
  }

  lemma Remainder(x: nat, m: nat, a: nat, b: nat)
    requires m > 0 && x == m * a + b && b < m
    ensures x % m == b
  {
    assert x == m * (x / m) + x % m;
    assert m * (x / m - a) == m * (x / m) - m * a == b - x % m;
    if x / m != a {
      MultipleIsFar(m, x / m - a);
    }
  }

  lemma HalfRemainder(x: nat, m: nat)
    requires m > 0
    ensures x % (2 * m) == 2 * ((x / 2) % m) + x % 2
  {
    var q, b := (x / 2) / m, (x / 2) % m;
    assert x / 2 == m * q + b;
    assert x == 2 * (m * q + b) + x % 2 == (2 * m) * q + (2 * b + x % 2);
    Remainder(x, 2 * m, q, 2 * b + x % 2);
  }

  lemma AndOdd(x: nat, m: nat)
    requires m >= 1
    ensures And(x, 2 * m - 1) == x % 2 + 2 * And(x / 2, m - 1)
  {
    assert (2 * m - 1) / 2 == m - 1 && (2 * m - 1) % 2 == 1;
  }

  /** Masking with a power of two less one is the remainder: the bucket of a hash. */
  lemma {:induction false} MaskIsRemainder(x: nat, n: nat)
    ensures And(x, Pow2(n) - 1) == x % Pow2(n)
  {
    hide And;
    if n == 0 {
      AndZero(x);
    } else {
      HalfRemainder(x, Pow2(n - 1));
      MaskIsRemainder(x / 2, n - 1);
      AndOdd(x, Pow2(n - 1));
    }
  }

  lemma {:induction false} AndBelow(x: nat, y: nat)
    ensures And(x, y) <= y
  {
    if x != 0 && y != 0 {
      AndBelow(x / 2, y / 2);
    }
  }

  lemma AndZero(x: nat)
    ensures And(x, 0) == 0
  {
  }

  /** The bit that a doubling adds decides between a bucket and its twin. */
  lemma {:induction false} BitSplits(x: nat, n: nat)
    ensures x % Pow2(n + 1) == x % Pow2(n) + if And(x, Pow2(n)) == 0 then 0 else Pow2(n)
  {
    if n == 0 {
      assert Pow2(1) == 2 * Pow2(0);
      assert x % 1 == 0;
    } else {
      var m := Pow2(n - 1);
      assert Pow2(n) == 2 * m && Pow2(n + 1) == 2 * (2 * m);
      HalfRemainder(x, 2 * m);
      HalfRemainder(x, m);
      BitSplits(x / 2, n - 1);
      assert (2 * m) / 2 == m && (2 * m) % 2 == 0;
    }
  }

  // ---------------- what the source keeps ----------------

  /**
   The keys in insertion order, and the capacity the table would have. It
   doubles when over three quarters full; a table that is `early` by one
   doubles when it gets there.
   */
  datatype Keys<K> = Keys(keys: seq<K>, cap: nat)

  function Insert<K(==)>(s: Keys<K>, k: K, early: nat): Keys<K> {
    if k in s.keys then s
    else Keys(s.keys + [k], if |s.keys| + 1 + early > s.cap * 3 / 4 then s.cap * 2 else s.cap)
  }

  function Extend<K(==)>(s: Keys<K>, items: seq<K>, early: nat): Keys<K>
    decreases items
  {
    if items == [] then s else Extend(Insert(s, items[0], early), items[1..], early)
  }

  predicate In<K(!new)>(hash: K -> nat, cap: nat, k: K, b: nat)
    requires cap > 0
  {
    And(hash(k), cap - 1) == b
  }

  /** The keys of a bucket, in the order given. */
  function Bucket<K(!new)>(hash: K -> nat, cap: nat, keys: seq<K>, b: nat): seq<K>
    requires cap > 0
  {
    if keys == [] then []
    else Bucket(hash, cap, keys[..|keys| - 1], b) + if In(hash, cap, keys[|keys| - 1], b) then [keys[|keys| - 1]]
      else []
  }

  /** Buckets `from` to the last, one after the other. */
  function Chained<K(!new)>(hash: K -> nat, cap: nat, keys: seq<K>, from: nat): seq<K>
    requires cap > 0 && from <= cap
    decreases cap - from
  {
    if from == cap then [] else Bucket(hash, cap, keys, from) + Chained(hash, cap, keys, from + 1)
  }

  function Ordered<K(!new)>(hash: K -> nat, s: Keys<K>): seq<K>
    requires s.cap > 0
  {
    Chained(hash, s.cap, s.keys, 0)
  }

  // ---------------- Java's table ----------------

  datatype Table<K> = Table(buckets: seq<seq<K>>, size: nat)

  /** Put at the tail of the key's bucket, unless it is there, and double when it is time. */
  function Put<K(==, !new)>(hash: K -> nat, t: Table<K>, k: K, early: nat): Table<K>
    requires |t.buckets| > 0
  {
    var b := hash(k) % |t.buckets|;
    if k in t.buckets[b] then t
    else
      var after := Table(t.buckets[b := t.buckets[b] + [k]], t.size + 1);
      if after.size + early > |t.buckets| * 3 / 4 then Doubled(hash, after) else after
  }

  /** The keys of a bucket whose hash has, or has not, the bit of the old capacity. */
  function Half<K(!new)>(hash: K -> nat, bit: nat, keys: seq<K>, high: bool): seq<K> {
    if keys == [] then []
    else
      Half(hash, bit, keys[..|keys| - 1], high) +
      if (And(hash(keys[|keys| - 1]), bit) != 0) == high then [keys[|keys| - 1]] else []
  }

  function Doubled<K(!new)>(hash: K -> nat, t: Table<K>): Table<K> {
    var cap := |t.buckets|;
    Table(seq(2 * cap, j requires 0 <= j < 2 * cap =>
            if j < cap then Half(hash, cap, t.buckets[j], false) else Half(hash, cap, t.buckets[j - cap], true)),
          t.size)
  }

  function PutAll<K(==, !new)>(hash: K -> nat, t: Table<K>, items: seq<K>, early: nat): (r: Table<K>)
    requires |t.buckets| > 0
    ensures |r.buckets| > 0
    decreases items
  {
    if items == [] then t else PutAll(hash, Put(hash, t, items[0], early), items[1..], early)
  }

  function Flatten<K>(buckets: seq<seq<K>>): seq<K> {
    if buckets == [] then [] else buckets[0] + Flatten(buckets[1..])
  }

  function Fresh<K>(cap: nat): Table<K> {
    Table(seq(cap, i => []), 0)
  }

  // ---------------- they agree ----------------

  /** The table holds, bucket by bucket, what the keys put there. */
  ghost predicate Matches<K(!new)>(hash: K -> nat, s: Keys<K>, t: Table<K>, n: nat) {
    && s.cap == Pow2(n) == |t.buckets| && t.size == |s.keys|
    && forall b | 0 <= b < s.cap :: t.buckets[b] == Bucket(hash, s.cap, s.keys, b)
  }

  lemma {:induction false} InItsBucket<K(!new)>(hash: K -> nat, cap: nat, keys: seq<K>, b: nat, k: K)
    requires cap > 0
    ensures k in Bucket(hash, cap, keys, b) <==> k in keys && In(hash, cap, k, b)
    decreases keys
  {
    if keys != [] {
      var most, last := keys[..|keys| - 1], keys[|keys| - 1];
      InItsBucket(hash, cap, most, b, k);
      assert k in keys <==> k in most || k == last;
    }
  }

  lemma TwinBuckets(h: nat, n: nat, b: nat, high: bool)
    requires b < Pow2(n)
    ensures And(h, Pow2(n + 1) - 1) == (if high then b + Pow2(n) else b) <==>
            And(h, Pow2(n) - 1) == b && (And(h, Pow2(n)) != 0) == high
  {
    hide And;
    BitSplits(h, n);
    MaskIsRemainder(h, n);
    MaskIsRemainder(h, n + 1);
  }

  lemma HalfAppend<K(!new)>(hash: K -> nat, bit: nat, keys: seq<K>, k: K, high: bool)
    ensures Half(hash, bit, keys + [k], high) == Half(hash, bit, keys, high) + if (And(hash(k), bit) != 0) == high
            then [k] else []
  {
    hide And;
    assert (keys + [k])[..|keys + [k]| - 1] == keys;
  }

  /** Splitting a bucket on the new bit leaves the two buckets of the doubled table. */
  lemma {:induction false} HalvesAreBuckets<K(!new)>(hash: K -> nat, n: nat, keys: seq<K>, b: nat, high: bool)
    requires b < Pow2(n)
    ensures Half(hash, Pow2(n), Bucket(hash, Pow2(n), keys, b), high) ==
            Bucket(hash, Pow2(n + 1), keys, if high then b + Pow2(n) else b)
    decreases keys
  {
    if keys != [] {
      hide And, Pow2, Half;
      var most, last := keys[..|keys| - 1], keys[|keys| - 1];
      HalvesAreBuckets(hash, n, most, b, high);
      TwinBuckets(hash(last), n, b, high);
      var was := Bucket(hash, Pow2(n), most, b);
      HalfAppend(hash, Pow2(n), was, last, high);
      assert Bucket(hash, Pow2(n), keys, b) == if In(hash, Pow2(n), last, b) then was + [last] else was;
    }
  }

  lemma DoubledMatches<K(!new)>(hash: K -> nat, s: Keys<K>, t: Table<K>, n: nat)
    requires Matches(hash, s, t, n)
    ensures Matches(hash, s.(cap := s.cap * 2), Doubled(hash, t), n + 1)
  {
    var t' := Doubled(hash, t);
    forall b | 0 <= b < 2 * s.cap
      ensures t'.buckets[b] == Bucket(hash, 2 * s.cap, s.keys, b)
    {
      HalvesAreBuckets(hash, n, s.keys, if b < s.cap then b else b - s.cap, b >= s.cap);
    }
  }

  lemma InsertMatches<K(!new)>(hash: K -> nat, s: Keys<K>, t: Table<K>, n: nat, k: K, early: nat) returns (m: nat)
    requires Matches(hash, s, t, n)
    ensures Matches(hash, Insert(s, k, early), Put(hash, t, k, early), m)
  {
    var b := hash(k) % s.cap;
    MaskIsRemainder(hash(k), n);
    InItsBucket(hash, s.cap, s.keys, b, k);
    m := n;
    if k !in s.keys {
      var s1 := Keys(s.keys + [k], s.cap);
      var t1 := Table(t.buckets[b := t.buckets[b] + [k]], t.size + 1);
      assert s1.keys[..|s1.keys| - 1] == s.keys;
      assert Matches(hash, s1, t1, n);
      if t1.size + early > s.cap * 3 / 4 {
        DoubledMatches(hash, s1, t1, n);
        m := n + 1;
      }
    }
  }

  lemma {:induction false} ExtendMatches<K(!new)>(hash: K -> nat, s: Keys<K>, t: Table<K>, n: nat, items: seq<K>,
                                                  early: nat) returns (m: nat)
    requires Matches(hash, s, t, n)
    ensures Matches(hash, Extend(s, items, early), PutAll(hash, t, items, early), m)
    decreases items
  {
    m := n;
    if items != [] {
      var m1 := InsertMatches(hash, s, t, n, items[0], early);
      hide Matches;
      m := ExtendMatches(hash, Insert(s, items[0], early), Put(hash, t, items[0], early), m1, items[1..], early);
    }
  }

  lemma {:induction false} FlatIsChained<K(!new)>(hash: K -> nat, s: Keys<K>, t: Table<K>, n: nat, from: nat)
    requires Matches(hash, s, t, n) && from <= s.cap
    ensures Flatten(t.buckets[from..]) == Chained(hash, s.cap, s.keys, from)
    decreases s.cap - from
  {
    if from < s.cap {
      FlatIsChained(hash, s, t, n, from + 1);
      assert t.buckets[from..][1..] == t.buckets[from + 1..];
    }
  }

  lemma FreshMatches<K(!new)>(hash: K -> nat, n: nat)
    ensures Matches(hash, Keys([], Pow2(n)), Fresh(Pow2(n)), n)
  {
  }

  /**
   Sorting by bucket gives the order of a chained table with order-preserving
   splits, from any initial capacity, for any sequence of insertions and either
   moment of doubling.
   */
  lemma OrderIsJavas<K(!new)>(hash: K -> nat, n: nat, items: seq<K>, early: nat)
    ensures var s := Extend(Keys([], Pow2(n)), items, early);
            s.cap > 0 && Ordered(hash, s) == Flatten(PutAll(hash, Fresh(Pow2(n)), items, early).buckets)
  {
    FreshMatches(hash, n);
    var m := ExtendMatches(hash, Keys([], Pow2(n)), Fresh(Pow2(n)), n, items, early);
    var s, t := Extend(Keys([], Pow2(n)), items, early), PutAll(hash, Fresh(Pow2(n)), items, early);
    FlatIsChained(hash, s, t, m, 0);
    assert t.buckets[0..] == t.buckets;
  }

  // ---------------- a set made from a collection ----------------

  /** The smallest power of two that is not below `cap`. */
  function TableSizeFor(cap: nat): (p: nat)
    ensures cap <= p && exists n: nat :: p == Pow2(n)
  {
    PowersGrow(cap);
    Smallest(cap, 0)
  }

  lemma {:induction false} PowersGrow(n: nat)
    ensures n < Pow2(n)
  {
    if n > 0 {
      PowersGrow(n - 1);
    }
  }

  function Smallest(cap: nat, n: nat): (p: nat)
    requires n <= cap < Pow2(cap)
    ensures cap <= p && exists m: nat :: p == Pow2(m)
    decreases cap - n
  {
    if cap <= Pow2(n) || n == cap then Pow2(n) else Smallest(cap, n + 1)
  }

  /**
   Dividing by the load factor in single precision: whatever it rounds, it is
   monotone, and exact where the quotient is a power of two.
   */
  ghost predicate Divides(quotient: nat -> nat) {
    && (forall a: nat, b: nat | a <= b :: quotient(a) <= quotient(b))
    && (forall j: nat :: quotient(3 * Pow2(j)) == Pow2(j + 2))
  }

  function CapacityFor(quotient: nat -> nat, n: nat): (cap: nat)
    ensures cap >= 16 && cap > quotient(n) && exists m: nat :: cap == Pow2(m)
  {
    TableSizeFor(if quotient(n) + 1 < 16 then 16 else quotient(n) + 1)
  }

  lemma RoomForAll(quotient: nat -> nat, n: nat)
    requires Divides(quotient)
    ensures n <= CapacityFor(quotient, n) * 3 / 4
  {
    var cap := CapacityFor(quotient, n);
    assert exists m: nat :: cap == Pow2(m);
    var m: nat :| cap == Pow2(m);
    assert m >= 2 by {
      assert Pow2(0) == 1 && Pow2(1) == 2;
    }
    var j := m - 2;
    assert Pow2(m) == 2 * Pow2(m - 1) == 4 * Pow2(j);
    assert quotient(3 * Pow2(j)) == Pow2(j + 2) == cap;
    assert quotient(n) < quotient(3 * Pow2(j));
  }

  lemma {:induction false} NoDoubling<K(!new)>(s: Keys<K>, items: seq<K>)
    requires |s.keys| + |items| <= s.cap * 3 / 4
    ensures Extend(s, items, 0).cap == s.cap
    decreases items
  {
    if items != [] {
      NoDoubling(Insert(s, items[0], 0), items[1..]);
    }
  }

  /** A set made from a collection is sized for it: it never doubles while being filled. */
  lemma CollectionNeverResizes<K(!new)>(quotient: nat -> nat, items: seq<K>, i: nat)
    requires Divides(quotient) && i <= |items|
    ensures Extend(Keys([], CapacityFor(quotient, |items|)), items[..i], 0).cap == CapacityFor(quotient, |items|)
  {
    RoomForAll(quotient, |items|);
    NoDoubling(Keys([], CapacityFor(quotient, |items|)), items[..i]);
  }

  /** `map_order`: a map filled in the given order. */
  function MapOrder<K(==, !new)>(hash: K -> nat, items: seq<K>): seq<K> {
    OrderIsJavas(hash, 4, items, 0);
    Ordered(hash, Extend(Keys([], Pow2(4)), items, 0))
  }

  /** `union_order`: a set made from one map's keys, then given another's, iterates as Java's table does. */
  lemma UnionOrderIsJavas<K(!new)>(hash: K -> nat, quotient: nat -> nat, a: seq<K>, b: seq<K>)
    requires Divides(quotient)
    ensures var x, y := MapOrder(hash, a), MapOrder(hash, b);
            var cap := CapacityFor(quotient, |x|);
            var s := Extend(Extend(Keys([], cap), x, 0), y, 0);
            s.cap > 0 && Ordered(hash, s) == Flatten(PutAll(hash, PutAll(hash, Fresh(cap), x, 0), y, 0).buckets)
  {
    var x, y := MapOrder(hash, a), MapOrder(hash, b);
    var cap := CapacityFor(quotient, |x|);
    var n: nat :| cap == Pow2(n);
    FreshMatches(hash, n);
    var m := ExtendMatches(hash, Keys([], cap), Fresh(cap), n, x, 0);
    var s, t := Extend(Keys([], cap), x, 0), PutAll(hash, Fresh(cap), x, 0);
    var m' := ExtendMatches(hash, s, t, m, y, 0);
    FlatIsChained(hash, Extend(s, y, 0), PutAll(hash, t, y, 0), m', 0);
    assert PutAll(hash, t, y, 0).buckets[0..] == PutAll(hash, t, y, 0).buckets;
  }

  // ---------------- sorting by bucket ----------------

  /** The keys placed under a bucket, in order. */
  function Pick<K>(placed: seq<(nat, K)>, b: nat): seq<K> {
    if placed == [] then []
    else Pick(placed[..|placed| - 1], b) + if placed[|placed| - 1].0 == b then [placed[|placed| - 1].1] else []
  }

  function Values<K>(placed: seq<(nat, K)>): (vs: seq<K>)
    ensures |vs| == |placed| && forall j | 0 <= j < |placed| :: vs[j] == placed[j].1
  {
    seq(|placed|, j requires 0 <= j < |placed| => placed[j].1)
  }

  predicate Ascending<K>(placed: seq<(nat, K)>) {
    forall i, j | 0 <= i < j < |placed| :: placed[i].0 <= placed[j].0
  }

  ghost predicate ByBucket<K(!new)>(hash: K -> nat, cap: nat, keys: seq<K>, placed: seq<(nat, K)>)
    requires cap > 0
  {
    && Ascending(placed) && (forall j | 0 <= j < |placed| :: placed[j].0 < cap)
    && forall b: nat :: Pick(placed, b) == Bucket(hash, cap, keys, b)
  }

  lemma {:induction false} PickConcat<K>(x: seq<(nat, K)>, y: seq<(nat, K)>, b: nat)
    ensures Pick(x + y, b) == Pick(x, b) + Pick(y, b)
    decreases y
  {
    if y == [] {
      assert x + y == x;
    } else {
      assert (x + y)[..|x + y| - 1] == x + y[..|y| - 1];
      PickConcat(x, y[..|y| - 1], b);
    }
  }

  lemma {:induction false} PickNone<K>(x: seq<(nat, K)>, b: nat)
    requires forall j | 0 <= j < |x| :: x[j].0 != b
    ensures Pick(x, b) == []
    decreases x
  {
    if x != [] {
      PickNone(x[..|x| - 1], b);
    }
  }

  lemma {:induction false} PickAll<K>(x: seq<(nat, K)>, b: nat)
    requires forall j | 0 <= j < |x| :: x[j].0 == b
    ensures Pick(x, b) == Values(x)
    decreases x
  {
    if x != [] {
      PickAll(x[..|x| - 1], b);
      assert Values(x) == Values(x[..|x| - 1]) + [x[|x| - 1].1];
    }
  }

  lemma PickPlaced<K>(before: seq<(nat, K)>, b: nat, k: K, behind: seq<(nat, K)>, c: nat)
    requires forall j | 0 <= j < |behind| :: behind[j].0 > b
    ensures Pick(before + [(b, k)] + behind, c) == Pick(before + behind, c) + if b == c then [k] else []
  {
    PickOne(b, k, c);
    if b == c {
      PickNone(behind, c);
    }
    hide Pick;
    PickConcat(before + [(b, k)], behind, c);
    PickConcat(before, [(b, k)], c);
    PickConcat(before, behind, c);
  }

  lemma PickOne<K>(b: nat, k: K, c: nat)
    ensures Pick([(b, k)], c) == if b == c then [k] else []
  {
    assert [(b, k)][..0] == [];
  }

  lemma StaysAscending<K>(before: seq<(nat, K)>, b: nat, k: K, behind: seq<(nat, K)>)
    requires Ascending(before + behind) && (before != [] ==> before[|before| - 1].0 <= b)
    requires forall j | 0 <= j < |behind| :: behind[j].0 > b
    ensures Ascending(before + [(b, k)] + behind)
  {
    var whole, after := before + behind, before + [(b, k)] + behind;
    var n := |before|;
    forall i, j | 0 <= i < j < |after|
      ensures after[i].0 <= after[j].0
    {
      var x := if i < n then i else i - 1;
      var y := if j < n then j else j - 1;
      assert i != n ==> after[i] == whole[x];
      assert j != n ==> after[j] == whole[y];
      assert i < n - 1 ==> whole[i].0 <= whole[n - 1].0;
    }
  }

  /** A key placed behind everything of its bucket or an earlier one keeps the order stable. */
  lemma PlacedIn<K(!new)>(hash: K -> nat, cap: nat, keys: seq<K>, placed: seq<(nat, K)>, k: K, at: nat)
    requires cap > 0 && at <= |placed| && ByBucket(hash, cap, keys, placed)
    requires var b := And(hash(k), cap - 1);
             b < cap && (at > 0 ==> placed[at - 1].0 <= b) && forall j | at <= j < |placed| :: placed[j].0 > b
    ensures ByBucket(hash, cap, keys + [k], placed[..at] + [(And(hash(k), cap - 1), k)] + placed[at..])
  {
    hide And, Pick, Bucket, Ascending;
    var b := And(hash(k), cap - 1);
    var before, behind := placed[..at], placed[at..];
    assert placed == before + behind;
    StaysAscending(before, b, k, behind);
    forall c: nat
      ensures Pick(before + [(b, k)] + behind, c) == Bucket(hash, cap, keys + [k], c)
    {
      PickPlaced(before, b, k, behind, c);
      BucketAppend(hash, cap, keys, k, c);
      assert Pick(placed, c) == Bucket(hash, cap, keys, c);
    }
  }

  lemma BucketAppend<K(!new)>(hash: K -> nat, cap: nat, keys: seq<K>, k: K, c: nat)
    requires cap > 0
    ensures Bucket(hash, cap, keys + [k], c) == Bucket(hash, cap, keys, c) + if And(hash(k), cap - 1) == c then [k]
            else []
  {
    hide And;
    assert (keys + [k])[..|keys + [k]| - 1] == keys;
  }

  lemma PickSplit<K>(here: seq<(nat, K)>, rest: seq<(nat, K)>, from: nat, b: nat)
    requires (forall j | 0 <= j < |here| :: here[j].0 == from) && forall j | 0 <= j < |rest| :: rest[j].0 > from
    requires from <= b
    ensures Pick(here + rest, b) == if b == from then Values(here) else Pick(rest, b)
  {
    if b == from {
      PickAll(here, b);
      PickNone(rest, b);
    } else {
      PickNone(here, b);
    }
    hide Pick, Values;
    PickConcat(here, rest, b);
  }

  /** What is placed is sorted, and lists the buckets from `from` on. */
  ghost predicate Lists<K(!new)>(hash: K -> nat, cap: nat, keys: seq<K>, placed: seq<(nat, K)>, from: nat)
    requires cap > 0
  {
    && Ascending(placed) && (forall j | 0 <= j < |placed| :: from <= placed[j].0 < cap)
      && (from >= cap ==> placed == [])
    && forall b: nat | from <= b < cap :: Pick(placed, b) == Bucket(hash, cap, keys, b)
  }

  lemma BucketFirst<K(!new)>(hash: K -> nat, cap: nat, keys: seq<K>, placed: seq<(nat, K)>, from: nat)
    returns (rest: seq<(nat, K)>)
    requires cap > 0 && from < cap && Lists(hash, cap, keys, placed, from)
    ensures Lists(hash, cap, keys, rest, from + 1) && Values(placed) == Bucket(hash, cap, keys, from) + Values(rest)
  {
    var i := FirstAbove(placed, from);
    var here := placed[..i];
    rest := placed[i..];
    assert placed == here + rest;
    TailAscending(placed, i);
    JoinValues(here, rest);
    hide And, Bucket, Pick, Ascending, Values;
    assert rest != [] ==> from < rest[0].0 < cap;
    forall b: nat | from <= b < cap
      ensures Bucket(hash, cap, keys, b) == if b == from then Values(here) else Pick(rest, b)
    {
      PickSplit(here, rest, from, b);
      assert Pick(placed, b) == Bucket(hash, cap, keys, b);
    }
  }

  lemma TailAscending<K>(placed: seq<(nat, K)>, i: nat)
    requires Ascending(placed) && i <= |placed|
    ensures Ascending(placed[i..])
  {
  }

  lemma JoinValues<K>(x: seq<(nat, K)>, y: seq<(nat, K)>)
    ensures Values(x + y) == Values(x) + Values(y)
  {
  }

  lemma {:induction false} SortedIsChained<K(!new)>(hash: K -> nat, cap: nat, keys: seq<K>, placed: seq<(nat, K)>,
                                                    from: nat)
    requires 0 < cap && from <= cap && Lists(hash, cap, keys, placed, from)
    ensures Values(placed) == Chained(hash, cap, keys, from)
    decreases cap - from
  {
    if from < cap {
      hide And, Bucket, Pick, Lists;
      var rest := BucketFirst(hash, cap, keys, placed, from);
      SortedIsChained(hash, cap, keys, rest, from + 1);
    }
  }

  lemma FirstAbove<K>(placed: seq<(nat, K)>, from: nat) returns (i: nat)
    requires Ascending(placed) && forall j | 0 <= j < |placed| :: from <= placed[j].0
    ensures i <= |placed| && (forall j | 0 <= j < i :: placed[j].0 == from)
            && forall j | i <= j < |placed| :: placed[j].0 > from
  {
    i := 0;
    while i < |placed| && placed[i].0 == from
      invariant i <= |placed| && forall j | 0 <= j < i :: placed[j].0 == from
    {
      i := i + 1;
    }
  }

  // ---------------- as the source runs it ----------------

  class JavaSet<K(==, !new)> {
    const hash: K -> nat
    var keys: seq<K>
    var cap: nat

    ghost function Value(): Keys<K>
      reads this
    {
      Keys(keys, cap)
    }

    constructor (hash: K -> nat)
      ensures this.hash == hash && Value() == Keys([], 16)
    {
      this.hash := hash;
      keys, cap := [], 16;
    }

    constructor FromCollection(hash: K -> nat, quotient: nat -> nat, items: seq<K>)
      requires Divides(quotient)
      ensures this.hash == hash && Value() == Extend(Keys([], CapacityFor(quotient, |items|)), items, 0)
      ensures cap == CapacityFor(quotient, |items|)
    {
      this.hash := hash;
      keys, cap := [], CapacityFor(quotient, |items|);
      new;
      ExtendWith(items);
      CollectionNeverResizes(quotient, items, |items|);
      assert items[..|items|] == items;
    }

    method InsertKey(k: K)
      modifies this
      ensures Value() == Insert(old(Value()), k, 0)
    {
      if k in keys {
        return;
      }
      keys := keys + [k];
      if |keys| > cap * 3 / 4 {
        cap := cap * 2;
      }
    }

    method ExtendWith(items: seq<K>)
      modifies this
      ensures Value() == Extend(old(Value()), items, 0)
    {
      var i := 0;
      while i < |items|
        invariant 0 <= i <= |items|
        invariant Extend(Value(), items[i..], 0) == Extend(old(Value()), items, 0)
      {
        assert items[i..][1..] == items[i + 1..];
        InsertKey(items[i]);
        i := i + 1;
      }
    }

    method InOrder() returns (out: seq<K>)
      requires cap > 0
      ensures out == Ordered(hash, Value())
    {
      out := SortByBucket(hash, keys, cap);
    }
  }

  /** A stable sort by bucket: each key goes behind the last one of its bucket or an earlier one. */
  method SortByBucket<K(!new)>(hash: K -> nat, keys: seq<K>, cap: nat) returns (out: seq<K>)
    requires cap > 0
    ensures out == Ordered(hash, Keys(keys, cap))
  {
    var placed: seq<(nat, K)> := [];
    var i := 0;
    while i < |keys|
      invariant 0 <= i <= |keys|
      invariant ByBucket(hash, cap, keys[..i], placed)
    {
      var b := And(hash(keys[i]), cap - 1);
      AndBelow(hash(keys[i]), cap - 1);
      var at := |placed|;
      while at > 0 && placed[at - 1].0 > b
        invariant 0 <= at <= |placed|
        invariant forall j | at <= j < |placed| :: placed[j].0 > b
      {
        at := at - 1;
      }
      PlacedIn(hash, cap, keys[..i], placed, keys[i], at);
      assert keys[..i] + [keys[i]] == keys[..i + 1];
      placed := placed[..at] + [(b, keys[i])] + placed[at..];
      i := i + 1;
    }
    assert keys[..i] == keys;
    out := seq(|placed|, j requires 0 <= j < |placed| => placed[j].1);
    SortedIsChained(hash, cap, keys, placed, 0);
    assert out == Values(placed);
  }

  /** `chm_order`: a table that doubles one insertion earlier, filled in the given order, read bucket by bucket. */
  method ConcurrentOrder<K(==, !new)>(hash: K -> nat, items: seq<K>) returns (out: seq<K>)
    ensures out == Flatten(PutAll(hash, Fresh(16), items, 1).buckets)
  {
    var seen: seq<K>, cap := [], 16;
    var i := 0;
    while i < |items|
      invariant 0 <= i <= |items|
      invariant cap > 0 && Extend(Keys(seen, cap), items[i..], 1) == Extend(Keys([], 16), items, 1)
    {
      assert items[i..][1..] == items[i + 1..];
      if items[i] !in seen {
        seen := seen + [items[i]];
        if |seen| >= cap * 3 / 4 {
          cap := cap * 2;
        }
      }
      i := i + 1;
    }
    assert Pow2(4) == 16;
    OrderIsJavas(hash, 4, items, 1);
    out := SortByBucket(hash, seen, cap);
  }
}
