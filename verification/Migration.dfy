/**
 Moving a store written before containers existed into the default container
 (src/store.rs): every key gets the container's prefix, batch by batch. A run
 may be cut off between any two batches and started again; what matters is
 that no row is lost, doubled or changed on the way.
 */
module Migration {
  import opened Wrappers

  type Key = seq<nat>
  type Rows = map<Key, string>

  const META := "meta"
  const BATCH_SIZE := 10_000
  const FORMAT := "2"

  /** The default container's prefix, and the two rows a finished migration leaves. */
  datatype Layout = Layout(prefix: Key, versionKey: Key, containerKey: Key)

  /** The prefix is told from the two reserved keys by its first byte. */
  predicate Proper(l: Layout) {
    && l.prefix != [] && l.prefix[0] != 0
    && l.versionKey != [] && l.versionKey[0] == 0 && l.containerKey != [] && l.containerKey[0] == 0
    && l.versionKey != l.containerKey
  }

  predicate Reserved(cf: string, k: Key) {
    cf == META && k != [] && k[0] == 0
  }

  predicate Stays(l: Layout, cf: string, k: Key) {
    Reserved(cf, k) || l.prefix <= k
  }

  predicate Own(l: Layout, cf: string, k: Key) {
    cf == META && (k == l.versionKey || k == l.containerKey)
  }

  // ---------------- what a cut-off migration leaves ----------------

  /** The row is where it was, or under the prefix: in exactly one of the two places, with its value. */
  predicate Once(l: Layout, was: Rows, now: Rows, k: Key)
    requires k in was
  {
    || (k in now && now[k] == was[k] && l.prefix + k !in now)
    || (k !in now && l.prefix + k in now && now[l.prefix + k] == was[k])
  }

  ghost predicate Fits(l: Layout, cf: string, was: Rows, now: Rows) {
    && (forall k | k in was && Reserved(cf, k) && !Own(l, cf, k) :: k in now && now[k] == was[k])
    && (forall k | k in was && !Stays(l, cf, k) :: Once(l, was, now, k))
    && (forall k | k in now :: Known(l, cf, was, k))
  }

  /** A row there is an old one, a moved one, or one of the two new ones. */
  predicate Known(l: Layout, cf: string, was: Rows, k: Key) {
    k in was || Own(l, cf, k) || (l.prefix <= k && k[|l.prefix|..] in was && !Stays(l, cf, k[|l.prefix|..]))
  }

  /** Every row has moved, except those that stay. */
  ghost predicate Moved(l: Layout, cf: string, was: Rows, now: Rows) {
    forall k | k in was && !Stays(l, cf, k) :: k !in now && l.prefix + k in now && now[l.prefix + k] == was[k]
  }

  predicate NothingPrefixed(l: Layout, was: Rows) {
    forall k | k in was :: !(l.prefix <= k)
  }

  /** A store nobody has touched yet is at the start of the way. */
  lemma UntouchedFits(l: Layout, cf: string, was: Rows)
    requires Proper(l) && NothingPrefixed(l, was)
    ensures Fits(l, cf, was, was)
  {
    forall k | k in was && !Stays(l, cf, k)
      ensures Once(l, was, was, k)
    {
      assert l.prefix <= l.prefix + k;
    }
  }

  // ---------------- one batch ----------------

  lemma PrefixIsInjective(prefix: Key)
    ensures forall a: Key, b: Key | prefix + a == prefix + b :: a == b
  {
    forall a: Key, b: Key | prefix + a == prefix + b
      ensures a == b
    {
      assert a == (prefix + a)[|prefix|..];
      assert b == (prefix + b)[|prefix|..];
    }
  }

  function Shift(l: Layout, now: Rows, keys: set<Key>): Rows
    requires keys <= now.Keys
  {
    PrefixIsInjective(l.prefix);
    (now - keys) + map k | k in keys :: l.prefix + k := now[k]
  }

  lemma ShiftAt(l: Layout, now: Rows, keys: set<Key>, k: Key)
    requires keys <= now.Keys && forall x | x in keys :: !(l.prefix <= x)
    ensures var after := Shift(l, now, keys);
            && (k in keys ==> k !in after && l.prefix + k in after && after[l.prefix + k] == now[k])
            && (k !in keys && k in now && (!(l.prefix <= k) || k[|l.prefix|..] !in keys) ==>
                k in after && after[k] == now[k])
            && (k in after ==> k in now || (l.prefix <= k && k[|l.prefix|..] in keys))
  {
    PrefixIsInjective(l.prefix);
    if k in keys {
      assert !(l.prefix <= k);
    }
    if l.prefix <= k {
      assert k == l.prefix + k[|l.prefix|..];
    }
    forall x | x in keys
      ensures l.prefix <= l.prefix + x && (l.prefix + x)[|l.prefix|..] == x
    {
    }
  }

  /** A batch keeps every row in exactly one place. */
  lemma ShiftFits(l: Layout, cf: string, was: Rows, now: Rows, keys: set<Key>)
    requires Proper(l) && NothingPrefixed(l, was) && Fits(l, cf, was, now)
    requires keys <= now.Keys && forall k | k in keys :: k in was && !Stays(l, cf, k)
    ensures Fits(l, cf, was, Shift(l, now, keys))
    ensures forall k | k in keys :: k !in Shift(l, now, keys)
    ensures forall k | k in was && k !in now :: k !in Shift(l, now, keys)
  {
    var after := Shift(l, now, keys);
    forall k: Key
      ensures k in keys ==> k !in after
      ensures k in was && Reserved(cf, k) && !Own(l, cf, k) ==> k in after && after[k] == was[k]
      ensures k in after ==> Known(l, cf, was, k)
      ensures k in was && k !in now ==> k !in after
    {
      ShiftAt(l, now, keys, k);
    }
    forall k | k in was && !Stays(l, cf, k)
      ensures Once(l, was, after, k)
    {
      assert Once(l, was, now, k);
      ShiftAt(l, now, keys, k);
      ShiftAt(l, now, keys, l.prefix + k);
      assert (l.prefix + k)[|l.prefix|..] == k;
      assert k in keys ==> now[k] == was[k];
    }
  }

  function Get(rows: Rows, k: Key): Option<string> {
    if k in rows then Some(rows[k]) else None
  }

  lemma ShiftKeepsReserved(l: Layout, cf: string, now: Rows, keys: set<Key>, k: Key)
    requires Proper(l) && keys <= now.Keys && (forall x | x in keys :: !Stays(l, cf, x)) && Reserved(cf, k)
    ensures Get(Shift(l, now, keys), k) == Get(now, k)
  {
    ShiftAt(l, now, keys, k);
  }

  // ---------------- how much is left ----------------

  /** The rows of a table that are still to move. */
  function Todo(l: Layout, cf: string, now: Rows): set<Key> {
    set k | k in now && !Stays(l, cf, k)
  }

  /** How many batches so many rows take. */
  function Batches(rows: nat): nat {
    (rows + BATCH_SIZE - 1) / BATCH_SIZE
  }

  /** Full batches, then perhaps one that is not. */
  lemma BatchesOf(rows: nat, full: nat, rest: nat)
    requires rows == full * BATCH_SIZE + rest
    ensures rest < BATCH_SIZE ==> Batches(rows) == full + if rest == 0 then 0 else 1
    ensures rest >= BATCH_SIZE ==> Batches(rows) > full
  {
  }

  function Cost(l: Layout, families: seq<string>, tables: map<string, Rows>): nat
    requires forall cf | cf in families :: cf in tables
  {
    if families == [] then 0
    else Batches(|Todo(l, families[0], tables[families[0]])|) + Cost(l, families[1..], tables)
  }

  lemma {:induction false} SameCost(l: Layout, families: seq<string>, a: map<string, Rows>, b: map<string, Rows>)
    requires forall cf | cf in families :: cf in a && cf in b && a[cf] == b[cf]
    ensures Cost(l, families, a) == Cost(l, families, b)
  {
    if families != [] {
      SameCost(l, families[1..], a, b);
    }
  }

  /** Tables with nothing left cost nothing. */
  lemma {:induction false} CostFrom(l: Layout, families: seq<string>, tables: map<string, Rows>, i: nat)
    requires i <= |families| && (forall cf | cf in families :: cf in tables)
    requires forall j | 0 <= j < i :: Todo(l, families[j], tables[families[j]]) == {}
    ensures Cost(l, families, tables) == Cost(l, families[i..], tables)
    decreases i
  {
    if i > 0 {
      assert Todo(l, families[0], tables[families[0]]) == {};
      CostFrom(l, families[1..], tables, i - 1);
      assert families[1..][i - 1..] == families[i..];
    }
  }

  lemma NoCost(l: Layout, tables: map<string, Rows>)
    ensures Cost(l, [], tables) == 0
  {
  }

  /** No more batches than rows. */
  lemma {:induction false} CostWithin(l: Layout, families: seq<string>, tables: map<string, Rows>)
    requires forall cf | cf in families :: cf in tables
    ensures Cost(l, families, tables) <= RowsLeft(l, families, tables)
  {
    if families != [] {
      CostWithin(l, families[1..], tables);
    }
  }

  function RowsLeft(l: Layout, families: seq<string>, tables: map<string, Rows>): nat
    requires forall cf | cf in families :: cf in tables
  {
    if families == [] then 0 else |Todo(l, families[0], tables[families[0]])| + RowsLeft(l, families[1..], tables)
  }

  /** A full batch takes exactly its rows off the list. */
  lemma ShiftLeaves(l: Layout, cf: string, now: Rows, keys: set<Key>)
    requires Proper(l) && keys <= Todo(l, cf, now)
    ensures Todo(l, cf, Shift(l, now, keys)) == Todo(l, cf, now) - keys
  {
    forall k: Key
      ensures k in Todo(l, cf, Shift(l, now, keys)) <==> k in Todo(l, cf, now) - keys
    {
      ShiftAt(l, now, keys, k);
    }
  }

  /** Only the table `cf` differs, and not in its version row. */
  ghost predicate OnlyIn(l: Layout, cf: string, a: map<string, Rows>, b: map<string, Rows>) {
    && META in a && META in b && Get(a[META], l.versionKey) == Get(b[META], l.versionKey) && a.Keys == b.Keys
    && forall other | other in a && other != cf :: b[other] == a[other]
  }

  lemma OnlyInPut(l: Layout, cf: string, a: map<string, Rows>, b: map<string, Rows>, rows: Rows)
    requires OnlyIn(l, cf, a, b) && cf in b && (cf == META ==> Get(rows, l.versionKey) == Get(b[META], l.versionKey))
    ensures OnlyIn(l, cf, a, b[cf := rows])
  {
  }

  lemma TakeOne(batch: set<Key>, todo: set<Key>, k: Key)
    requires batch !! todo && k in todo
    ensures (batch + {k}) !! (todo - {k}) && (batch + {k}) + (todo - {k}) == batch + todo
    ensures |batch + {k}| == |batch| + 1 && |todo - {k}| == |todo| - 1
    ensures |batch + todo| == |batch| + |todo| && (batch + todo) - (batch + {k}) == todo - {k}
  {
  }

  function Less(a: nat, b: nat): nat {
    if a <= b then 0 else a - b
  }

  function Sum(budgets: seq<nat>): nat {
    if budgets == [] then 0 else Sum(budgets[..|budgets| - 1]) + budgets[|budgets| - 1]
  }

  // ---------------- the migration as it runs ----------------

  class PhysicalStore {
    const layout: Layout
    const families: seq<string>
    var tables: map<string, Rows>

    constructor (layout: Layout, families: seq<string>, tables: map<string, Rows>)
      ensures this.layout == layout && this.families == families && this.tables == tables
    {
      this.layout, this.families, this.tables := layout, families, tables;
    }

    /** The store is somewhere on the way from `was`. */
    ghost predicate Midway(was: map<string, Rows>)
      reads this
    {
      && Proper(layout) && META in families && (forall i, j | 0 <= i < j < |families| :: families[i] != families[j])
      && forall cf | cf in families ::
           cf in tables && cf in was && NothingPrefixed(layout, was[cf]) && Fits(layout, cf, was[cf], tables[cf])
    }

    ghost predicate AllMoved(was: map<string, Rows>)
      requires Midway(was)
      reads this
    {
      forall cf | cf in families :: Moved(layout, cf, was[cf], tables[cf])
    }

    /** The version row is only ever there when all is done. */
    ghost predicate Honest(was: map<string, Rows>)
      requires Midway(was)
      reads this
    {
      Get(tables[META], layout.versionKey) == Some(FORMAT) ==> AllMoved(was)
    }

    /** The rows left to move are old ones in their old place. */
    lemma LeftAreOld(was: map<string, Rows>, cf: string, k: Key)
      requires Midway(was) && cf in families && k in tables[cf] && !Stays(layout, cf, k)
      ensures k in was[cf]
    {
      assert Known(layout, cf, was[cf], k);
    }

    /** The batches a run still has to write: none once the version row is there, else the last one puts it there. */
    ghost function Work(): nat
      requires META in tables && forall cf | cf in families :: cf in tables
      reads this
    {
      if Get(tables[META], layout.versionKey) == Some(FORMAT) then 0 else Cost(layout, families, tables) + 1
    }

    method WriteBatch(cf: string, keys: set<Key>, ghost was: map<string, Rows>, ghost start: map<string, Rows>)
      requires Midway(was) && OnlyIn(layout, cf, start, tables) && cf in families
               && keys <= Todo(layout, cf, tables[cf])
      modifies this
      ensures Midway(was) && tables == old(tables)[cf := Shift(layout, old(tables[cf]), keys)]
      ensures Todo(layout, cf, tables[cf]) == Todo(layout, cf, old(tables[cf])) - keys
      ensures cf in tables && OnlyIn(layout, cf, start, tables)
    {
      hide OnlyIn, Known, Fits, NothingPrefixed;
      forall k | k in keys
        ensures k in was[cf]
      {
        LeftAreOld(was, cf, k);
      }
      ShiftFits(layout, cf, was[cf], tables[cf], keys);
      ShiftLeaves(layout, cf, tables[cf], keys);
      if cf == META {
        ShiftKeepsReserved(layout, cf, tables[cf], keys, layout.versionKey);
      }
      OnlyInPut(layout, cf, start, tables, Shift(layout, tables[cf], keys));
      tables := tables[cf := Shift(layout, tables[cf], keys)];
    }

    /**
     One column family, in batches; `budget` is how many batches are written before the run is cut off.
     It is done exactly if the budget allows, and a run that is cut off has written all it could, in full batches.
     */
    method MigrateTable(cf: string, budget: nat, ghost was: map<string, Rows>) returns (left: nat, done: bool)
      requires Midway(was) && cf in families
      modifies this
      ensures Midway(was) && (done ==> Moved(layout, cf, was[cf], tables[cf]))
      ensures var rows := |Todo(layout, cf, old(tables[cf]))|;
              && done == (Batches(rows) <= budget)
              && (done ==> Todo(layout, cf, tables[cf]) == {} && left == budget - Batches(rows))
              && (!done ==> left == 0 && |Todo(layout, cf, tables[cf])| == rows - budget * BATCH_SIZE)
      ensures OnlyIn(layout, cf, old(tables), tables)
    {
      hide Midway, Shift, Todo, OnlyIn, Batches, Moved;
      left, done := budget, false;
      ReadyToMove(cf, was);
      var todo := Todo(layout, cf, tables[cf]);
      ghost var rows := |todo|;
      var batch: set<Key> := {};
      while todo != {}
        invariant Midway(was) && cf in tables && OnlyIn(layout, cf, old(tables), tables)
        invariant batch !! todo && Todo(layout, cf, tables[cf]) == batch + todo && |batch| < BATCH_SIZE
        invariant left <= budget && |batch| + |todo| == rows - (budget - left) * BATCH_SIZE
        decreases |todo|
      {
        var k :| k in todo;
        TakeOne(batch, todo, k);
        batch, todo := batch + {k}, todo - {k};
        if |batch| >= BATCH_SIZE {
          if left == 0 {
            BatchesOf(rows, budget, |batch| + |todo|);
            return;
          }
          WriteBatch(cf, batch, was, old(tables));
          left, batch := left - 1, {};
        }
      }
      BatchesOf(rows, budget - left, |batch|);
      if batch != {} {
        if left == 0 {
          return;
        }
        WriteBatch(cf, batch, was, old(tables));
        left := left - 1;
      }
      done := true;
      NoneLeft(was, cf);
    }

    lemma ReadyToMove(cf: string, was: map<string, Rows>)
      requires Midway(was) && cf in families
      ensures cf in tables && OnlyIn(layout, cf, tables, tables)
    {
    }

    lemma NoneLeft(was: map<string, Rows>, cf: string)
      requires Midway(was) && cf in families && Todo(layout, cf, tables[cf]) == {}
      ensures Moved(layout, cf, was[cf], tables[cf])
    {
      forall k | k in tables[cf]
        ensures Stays(layout, cf, k)
      {
        assert k !in Todo(layout, cf, tables[cf]);
      }
      AllGone(was, cf);
    }

    lemma AllGone(was: map<string, Rows>, cf: string)
      requires Midway(was) && cf in families && forall k | k in tables[cf] :: Stays(layout, cf, k)
      ensures Moved(layout, cf, was[cf], tables[cf])
    {
      forall k | k in was[cf] && !Stays(layout, cf, k)
        ensures k !in tables[cf] && layout.prefix + k in tables[cf] && tables[cf][layout.prefix + k] == was[cf][k]
      {
        assert Once(layout, was[cf], tables[cf], k);
      }
    }

    /** The first `i` tables are done. */
    ghost predicate DoneBefore(i: nat, was: map<string, Rows>)
      requires Midway(was) && i <= |families|
      reads this
    {
      forall j | 0 <= j < i ::
        && Moved(layout, families[j], was[families[j]], tables[families[j]])
        && Todo(layout, families[j], tables[families[j]]) == {}
    }

    /**
     The next table, with what the budget leaves; in batches, what is left of the
     work goes down by what was written.
     */
    method MigrateNext(i: nat, left: nat, ghost was: map<string, Rows>) returns (rest: nat, done: bool)
      requires Midway(was) && i < |families| && DoneBefore(i, was)
      modifies this
      ensures Midway(was) && DoneBefore(i, was) && OnlyIn(layout, families[i], old(tables), tables)
      ensures rest <= left && (done ==> DoneBefore(i + 1, was))
      ensures var cost := Cost(layout, families[i..], old(tables));
              if done then Cost(layout, families[i + 1..], tables) + (left - rest) == cost
              else left < cost && Cost(layout, families[i..], tables) == cost - left
    {
      hide Fits, Moved, NothingPrefixed, Stays, Todo;
      rest, done := MigrateTable(families[i], left, was);
      assert families[i..][1..] == families[i + 1..];
      SameCost(layout, families[i + 1..], old(tables), tables);
    }

    /** The last batch. */
    method WriteVersion(ghost was: map<string, Rows>)
      requires Midway(was) && DoneBefore(|families|, was)
      modifies this
      ensures Midway(was) && AllMoved(was) && Get(tables[META], layout.versionKey) == Some(FORMAT)
    {
      hide Fits, Moved, NothingPrefixed, Stays;
      OwnRowsFit(layout, was[META], tables[META]);
      tables := tables[META := tables[META][layout.versionKey := FORMAT][layout.containerKey := ""]];
    }

    /**
     The whole migration: nothing to do when the version row says so. A run takes as much off the work as its
     budget, and finishes exactly if that is all of it.
     */
    method Migrate(budget: nat, ghost was: map<string, Rows>) returns (finished: bool)
      requires Midway(was) && Honest(was)
      modifies this
      ensures Midway(was) && Honest(was) && Work() == Less(old(Work()), budget)
      ensures finished <==> Work() == 0
      ensures finished ==> AllMoved(was) && Get(tables[META], layout.versionKey) == Some(FORMAT)
    {
      hide Fits, Moved, NothingPrefixed, Stays, Todo, DoneBefore, Cost;
      if Get(tables[META], layout.versionKey) == Some(FORMAT) {
        return true;
      }
      var left: nat, i := budget, 0;
      NoneBefore(was);
      ghost var cost := Cost(layout, families, tables);
      assert families[0..] == families;
      while i < |families|
        invariant 0 <= i <= |families| && Midway(was) && Get(tables[META], layout.versionKey) != Some(FORMAT)
        invariant DoneBefore(i, was) && left <= budget && Cost(layout, families[i..], tables) == cost - (budget - left)
      {
        var done;
        left, done := MigrateNext(i, left, was);
        if !done {
          CostAfter(i, was);
          return false;
        }
        i := i + 1;
      }
      CostAfter(i, was);
      assert families[i..] == [];
      NoCost(layout, tables);
      if left == 0 {
        return false;
      }
      WriteVersion(was);
      finished := true;
    }

    lemma NoneBefore(was: map<string, Rows>)
      requires Midway(was)
      ensures DoneBefore(0, was)
    {
    }

    lemma CostAfter(i: nat, was: map<string, Rows>)
      requires Midway(was) && i <= |families| && DoneBefore(i, was)
      ensures Cost(layout, families, tables) == Cost(layout, families[i..], tables)
    {
      CostFrom(layout, families, tables, i);
    }

    /** However often it is cut off and run again: it finishes exactly if the budgets together cover the work. */
    method MigrateRepeatedly(budgets: seq<nat>, ghost was: map<string, Rows>) returns (finished: bool)
      requires Midway(was) && Honest(was)
      modifies this
      ensures Midway(was) && Honest(was) && Work() == Less(old(Work()), Sum(budgets))
      ensures finished <==> budgets != [] && old(Work()) <= Sum(budgets)
      ensures finished ==> AllMoved(was)
    {
      finished := false;
      var i := 0;
      while i < |budgets|
        invariant 0 <= i <= |budgets| && Midway(was) && Honest(was) && Work() == Less(old(Work()), Sum(budgets[..i]))
        invariant (finished <==> i > 0 && Work() == 0) && (finished ==> AllMoved(was))
      {
        finished := Migrate(budgets[i], was);
        i := i + 1;
        assert budgets[..i][..i - 1] == budgets[..i - 1];
      }
      assert budgets[..i] == budgets;
    }

    /** In rows: one batch for each row left, and one for the version row, is always enough. */
    lemma RowsSuffice(was: map<string, Rows>)
      requires Midway(was)
      ensures Work() <= RowsLeft(layout, families, tables) + 1
    {
      CostWithin(layout, families, tables);
    }
  }

  lemma OwnRowsFit(l: Layout, was: Rows, now: Rows)
    requires Proper(l) && Fits(l, META, was, now) && Moved(l, META, was, now)
    ensures var after := now[l.versionKey := FORMAT][l.containerKey := ""];
            Fits(l, META, was, after) && Moved(l, META, was, after) && Get(after, l.versionKey) == Some(FORMAT)
  {
    var after := now[l.versionKey := FORMAT][l.containerKey := ""];
    forall k | k in was && !Stays(l, META, k)
      ensures k !in after && l.prefix + k in after && after[l.prefix + k] == was[k]
    {
      assert (l.prefix + k)[0] == l.prefix[0];
    }
    forall k | k in after
      ensures Known(l, META, was, k)
    {
      assert k in now || Own(l, META, k);
    }
  }

  /** What a finished migration holds, key by key. */
  lemma FinishedContents(l: Layout, cf: string, was: Rows, now: Rows, k: Key)
    requires Proper(l) && NothingPrefixed(l, was) && Fits(l, cf, was, now) && Moved(l, cf, was, now) && !Own(l, cf, k)
    ensures Get(now, k) ==
            if l.prefix <= k then (if Stays(l, cf, k[|l.prefix|..]) then None else Get(was, k[|l.prefix|..]))
            else if Reserved(cf, k) then Get(was, k) else None
  {
    if l.prefix <= k {
      assert k == l.prefix + k[|l.prefix|..];
    }
    assert k in now ==> Known(l, cf, was, k);
  }
}
