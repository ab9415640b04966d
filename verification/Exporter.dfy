/**
 Exporters (src/exporter.rs, src/mutations/exporters.rs): one worker replays
 the change log to each exporter's destination and moves its cursor by
 compare-and-set, while commits append to the log, an operator pauses, resumes,
 resets, creates and deletes exporters, pruning follows the slowest cursor, and
 the worker may be lost at any point. A durable write and its publish are one
 step here.
 */
module Exporter {
  import opened Wrappers
  import opened RegistryTypes
  import opened Log

  datatype State = Running | Error | Paused | Failed

  datatype Record = Record(state: State, offset: nat)

  /** Left alone by the worker until an operator acts. */
  predicate Stopped(r: Record) {
    r.state.Paused? || r.state.Failed?
  }

  /** What the worker has in memory; a crash forgets it. `life` says which exporter of the name it picked. */
  datatype Worker =
    | Resting
    | Picked(name: string, life: nat, offset: nat, state: State)
    | Replaying(name: string, life: nat, offset: nat, todo: seq<(nat, LogEvent)>)
    | Sent(name: string, life: nat, offset: nat, todo: seq<(nat, LogEvent)>)   // past the first event
    | Booting(name: string, life: nat, offset: nat, now: nat)
    | Reading(name: string, life: nat, offset: nat, now: nat, position: nat)   // the state of this position goes out
    | Booted(name: string, life: nat, offset: nat, now: nat)

  /**
   `lives` counts the exporters created so far under a name; `replayed` and
   `boots` record, for the last of them, the events acknowledged and the log
   position of its last full bootstrap.
   */
  datatype World = World(
    log: Log,
    history: seq<LogEvent>,
    exporters: map<string, Record>,
    worker: Worker,
    keep: Option<nat>,
    lives: map<string, nat>,
    replayed: map<string, set<nat>>,
    boots: map<string, nat>)

  /** Which events an exporter is about, and the most events a batch reads. */
  datatype System = System(matches: (string, LogEvent) -> bool, batch: nat)

  datatype Act =
    | Commit(events: seq<LogEvent>)
    | Pause(name: string)
    | Resume(name: string)
    | Reset(name: string)
    | Create(name: string)
    | Delete(name: string)
    | Pick(name: string)
    | StartBatch
    | Send                       // replay one event, or skip one that does not match
    | SendFails(state: State)
    | Progress                   // move the cursor past the event
    | ReadState
    | BootFails(state: State)
    | SendState
    | FinishBoot
    | Crash
    | ChooseFloor(names: seq<string>)
    | PruneLog

  // ---------------- cursors ----------------

  /** `exporter_state`: only if the exporter still is where the worker found it, and running. */
  function CompareAndSet(exporters: map<string, Record>, name: string, expected: nat, offset: nat,
                         state: State): map<string, Record> {
    if name !in exporters || exporters[name].offset != expected || Stopped(exporters[name]) then exporters
    else exporters[name := Record(state, offset)]
  }

  /** No cursor is below it; 0 when the exporters or the counter could not be read. */
  function PruneFloor(listing: Option<seq<Record>>, next: Option<nat>): nat {
    if listing.None? || next.None? then 0 else Lowest(listing.value, next.value)
  }

  function Lowest(records: seq<Record>, next: nat): (floor: nat)
    ensures floor <= next && forall r | r in records :: floor <= r.offset
    ensures floor == next || exists r | r in records :: floor == r.offset
  {
    if records == [] then next
    else
      var floor := Lowest(records[1..], next);
      assert forall r | r in records :: r == records[0] || r in records[1..];
      assert records[0] in records && forall r | r in records[1..] :: r in records;
      if records[0].offset < floor then records[0].offset else floor
  }

  function Listing(exporters: map<string, Record>, names: seq<string>): seq<Record>
    requires forall name | name in names :: name in exporters
  {
    seq(|names|, i requires 0 <= i < |names| => exporters[names[i]])
  }

  // ---------------- steps ----------------

  predicate Batch(log: Log, from: nat, limit: nat, events: seq<(nat, LogEvent)>) {
    && |events| <= limit && (events == [] ==> from >= log.next || limit == 0)
    && forall i | 0 <= i < |events| :: from + i in log.entries && events[i] == (from + i, log.entries[from + i])
  }

  function ReadBatch(log: Log, from: nat, limit: nat): (events: seq<(nat, LogEvent)>)
    requires forall k: nat :: k in log.entries <==> log.floor <= k < log.next
    requires log.floor <= from
    ensures Batch(log, from, limit, events)
  {
    var n := if from >= log.next then 0 else if log.next - from < limit then log.next - from else limit;
    seq(n, i requires 0 <= i < n => (from + i, log.entries[from + i]))
  }

  ghost predicate Intact(log: Log) {
    forall k: nat :: k in log.entries <==> log.floor <= k < log.next
  }

  ghost predicate Enabled(sys: System, w: World, act: Act) {
    match act
    case Commit(_) => true
    case Pause(name) => name in w.exporters
    case Resume(name) => name in w.exporters && !w.exporters[name].state.Failed?
    case Reset(name) => name in w.exporters
    case Create(name) => name !in w.exporters
    case Delete(name) => name in w.exporters
    case Pick(name) => w.worker.Resting? && name in w.exporters && !Stopped(w.exporters[name])
    case StartBatch => w.worker.Picked? && Intact(w.log)
    case Send => w.worker.Replaying? && w.worker.todo != []
    case SendFails(state) => w.worker.Replaying? && !state.Running?
    case Progress => w.worker.Sent? && w.worker.todo != []
    case ReadState => w.worker.Booting?
    case BootFails(state) => (w.worker.Booting? || w.worker.Reading?) && !state.Running?
    case SendState => w.worker.Reading?
    case FinishBoot => w.worker.Booted?
    case Crash => true
    case ChooseFloor(names) => w.worker.Resting? && forall name :: name in names <==> name in w.exporters
    case PruneLog => w.worker.Resting? && w.keep.Some?
  }

  function Replayed(w: World, name: string): set<nat> {
    if name in w.replayed then w.replayed[name] else {}
  }

  function Boot(w: World, name: string): nat {
    if name in w.boots then w.boots[name] else 0
  }

  function Life(w: World, name: string): nat {
    if name in w.lives then w.lives[name] else 0
  }

  /** The exporter the worker picked is still the one of its name. */
  predicate Current(w: World) {
    w.worker.Resting? || w.worker.life == Life(w, w.worker.name)
  }

  ghost function Next(sys: System, w: World, act: Act): World
    requires Enabled(sys, w, act)
  {
    var k := w.worker;
    match act
    case Commit(events) => w.(log := Append(w.log, w.log.next, events), history := w.history + events)
    case Pause(name) => w.(exporters := w.exporters[name := w.exporters[name].(state := Paused)])
    case Resume(name) => w.(exporters := w.exporters[name := w.exporters[name].(state := Running)])
    case Reset(name) =>
      w.(exporters := w.exporters[name := Record(if w.exporters[name].state.Paused? then Paused else Running, 0)])
    case Create(name) =>
      w.(exporters := w.exporters[name := Record(Running, 0)], lives := w.lives[name := Life(w, name) + 1],
         replayed := w.replayed[name := {}], boots := w.boots[name := 0])
    case Delete(name) => w.(exporters := w.exporters - {name})
    case Pick(name) => w.(worker := Picked(name, Life(w, name), w.exporters[name].offset, w.exporters[name].state))
    case StartBatch => Started(sys, w)
    case Send =>
      var replays := Current(w) && sys.matches(k.name, k.todo[0].1);
      w.(worker := Sent(k.name, k.life, k.offset, k.todo),
         replayed := if replays then w.replayed[k.name := Replayed(w, k.name) + {k.todo[0].0}] else w.replayed)
    case SendFails(state) => w.(worker := Resting,
                                exporters := CompareAndSet(w.exporters, k.name, k.offset, k.offset, state))
    case Progress =>
      var next := k.todo[0].0 + 1;
      w.(worker := if |k.todo| > 1 then Replaying(k.name, k.life, next, k.todo[1..]) else Resting,
         exporters := CompareAndSet(w.exporters, k.name, k.offset, next, Running))
    case ReadState => w.(worker := Reading(k.name, k.life, k.offset, k.now, |w.history|))
    case BootFails(state) => w.(worker := Resting,
                                exporters := CompareAndSet(w.exporters, k.name, k.offset, k.offset, state))
    case SendState =>
      w.(worker := Booted(k.name, k.life, k.offset, k.now),
         boots := if Current(w) && Boot(w, k.name) < k.position then w.boots[k.name := k.position] else w.boots)
    case FinishBoot => w.(worker := Resting, exporters := CompareAndSet(w.exporters, k.name, k.offset, k.now, Running))
    case Crash => w.(worker := Resting)
    case ChooseFloor(names) => w.(keep := Some(PruneFloor(Some(Listing(w.exporters, names)), Some(w.log.next))))
    case PruneLog => w.(log := Prune(w.log, w.keep.value), keep := None)
  }

  /** An exporter below the floor is sent the present state; its cursor will go to where the log ends now. */
  ghost function Started(sys: System, w: World): World
    requires w.worker.Picked? && Intact(w.log)
  {
    var k := w.worker;
    if k.offset < w.log.floor then w.(worker := Booting(k.name, k.life, k.offset, w.log.next))
    else
      var events := ReadBatch(w.log, k.offset, sys.batch);
      if events != [] then w.(worker := Replaying(k.name, k.life, k.offset, events))
      else if k.state.Error? then
        w.(worker := Resting, exporters := CompareAndSet(w.exporters, k.name, k.offset, k.offset, Running))
      else w.(worker := Resting)
  }

  /** Any sequence of steps. */
  ghost predicate Behaves(sys: System, w: World, acts: seq<Act>)
    decreases acts
  {
    acts == [] || (Enabled(sys, w, acts[0]) && Behaves(sys, Next(sys, w, acts[0]), acts[1..]))
  }

  ghost function After(sys: System, w: World, acts: seq<Act>): World
    requires Behaves(sys, w, acts)
    decreases acts
  {
    if acts == [] then w else After(sys, Next(sys, w, acts[0]), acts[1..])
  }

  lemma {:induction false} BehavesInTwo(sys: System, w: World, a: seq<Act>, b: seq<Act>)
    requires Behaves(sys, w, a + b)
    ensures Behaves(sys, w, a) && Behaves(sys, After(sys, w, a), b)
    ensures After(sys, w, a + b) == After(sys, After(sys, w, a), b)
    decreases a
  {
    hide Next, Enabled;
    if a == [] {
      assert a + b == b;
    } else {
      assert (a + b)[0] == a[0] && (a + b)[1..] == a[1..] + b;
      BehavesInTwo(sys, Next(sys, w, a[0]), a[1..], b);
    }
  }

  // ---------------- the invariant ----------------

  /** The event was replayed to the exporter, or a bootstrap sent the state of a later position. */
  predicate Covered(sys: System, w: World, name: string, k: nat)
    requires k < |w.history|
  {
    sys.matches(name, w.history[k]) ==> k in Replayed(w, name) || k < Boot(w, name)
  }

  /** Everything below the cursor is covered. */
  ghost predicate CursorFits(sys: System, w: World, name: string) {
    name in w.exporters ==>
      w.exporters[name].offset <= |w.history| && forall k: nat | k < w.exporters[name].offset ::
        Covered(sys, w, name, k)
  }

  ghost predicate InOrder(w: World, offset: nat, todo: seq<(nat, LogEvent)>) {
    todo != [] && offset + |todo| <= |w.history| && forall i | 0 <= i < |todo| ::
      todo[i] == (offset + i, w.history[offset + i])
  }

  /** What the worker holds is right for the exporter it picked, as long as that is still there. */
  ghost predicate WorkerFits(sys: System, w: World) {
    match w.worker
    case Resting => true
    case Picked(_, _, offset, _) => offset <= |w.history|
    case Replaying(_, _, offset, todo) => InOrder(w, offset, todo)
    case Sent(name, _, offset, todo) => InOrder(w, offset, todo) && (Current(w) ==> Covered(sys, w, name, offset))
    case Booting(_, _, offset, now) => offset < now <= |w.history|
    case Reading(_, _, offset, now, position) => offset < now <= position <= |w.history|
    case Booted(name, _, offset, now) => offset < now <= |w.history| && (Current(w) ==> now <= Boot(w, name))
  }

  /** Nothing has been sent to an exporter created while the worker is busy with an earlier one of its name. */
  ghost predicate StaleFits(w: World) {
    && (!w.worker.Resting? ==> w.worker.life <= Life(w, w.worker.name))
    && (!Current(w) ==> Replayed(w, w.worker.name) == {} && Boot(w, w.worker.name) == 0)
  }

  /** Holds in every state: the log, the worker, and cursors inside the log. */
  ghost predicate Inv(sys: System, w: World) {
    && Holds(w.log, w.history) && (w.keep.Some? ==> w.keep.value <= w.log.next)
    && WorkerFits(sys, w) && StaleFits(w)
    && (forall name: string :: Boot(w, name) <= |w.history|)
    && (forall name: string | name in w.exporters :: w.exporters[name].offset <= |w.history|)
  }

  /** No exporter has been carried past an event it should have had. */
  ghost predicate AllFit(sys: System, w: World) {
    forall name: string :: CursorFits(sys, w, name)
  }

  // ---------------- the worker's writes ----------------

  /** The compare-and-set goes through. */
  predicate Lands(exporters: map<string, Record>, name: string, expected: nat) {
    name in exporters && exporters[name].offset == expected && !Stopped(exporters[name])
  }

  /** Where the worker is about to move its exporter's cursor. */
  function Target(w: World): nat
    requires (w.worker.Sent? && w.worker.todo != []) || w.worker.Booted?
  {
    if w.worker.Sent? then w.worker.todo[0].0 + 1 else w.worker.now
  }

  /** A cursor write meant for an earlier exporter of the name goes through, past an event the new one is about. */
  predicate Skips(sys: System, w: World, act: Act) {
    && ((act.Progress? && w.worker.Sent? && w.worker.todo != []) || (act.FinishBoot? && w.worker.Booted?))
    && !Current(w) && Lands(w.exporters, w.worker.name, w.worker.offset)
    && exists k: nat | w.worker.offset <= k < Target(w) && k < |w.history| :: sys.matches(w.worker.name, w.history[k])
  }

  /** Moving a cursor is right exactly if everything it passes is covered. */
  lemma MoveFitsIff(sys: System, w: World, name: string, expected: nat, offset: nat, state: State)
    requires AllFit(sys, w) && expected <= offset <= |w.history|
    ensures var w' := w.(exporters := CompareAndSet(w.exporters, name, expected, offset, state));
            AllFit(sys, w') <==> (Lands(w.exporters, name, expected) ==>
                                  forall k: nat | expected <= k < offset :: Covered(sys, w, name, k))
  {
    var w' := w.(exporters := CompareAndSet(w.exporters, name, expected, offset, state));
    assert SameCoverage: forall n: string, k: nat | k < |w.history| :: Covered(sys, w', n, k) == Covered(sys, w, n, k);
    forall n: string | n != name || !Lands(w.exporters, name, expected)
      ensures CursorFits(sys, w', n)
    {
      assert CursorFits(sys, w, n);
      Transfers(sys, w, w', n);
    }
    if Lands(w.exporters, name, expected) {
      assert CursorFits(sys, w, name);
      assert w'.exporters[name].offset == offset;
      forall k: nat | k < offset
        ensures Covered(sys, w', name, k) == Covered(sys, w, name, k) && (k < expected ==> Covered(sys, w, name, k))
      {
      }
      assert CursorFits(sys, w', name) <==> forall k: nat | expected <= k < offset :: Covered(sys, w, name, k);
    }
  }

  /** Coverage is about the past: it lasts when the log grows and when more is recorded. */
  lemma Transfers(sys: System, w: World, w': World, name: string)
    requires CursorFits(sys, w, name) && w.history <= w'.history
    requires name in w'.exporters ==> name in w.exporters && w'.exporters[name].offset <= w.exporters[name].offset
    requires Replayed(w, name) <= Replayed(w', name) && Boot(w, name) <= Boot(w', name)
    ensures CursorFits(sys, w', name)
  {
    if name in w'.exporters {
      forall k: nat | k < w'.exporters[name].offset
        ensures Covered(sys, w', name, k)
      {
        assert Covered(sys, w, name, k);
      }
    }
  }

  lemma AllTransfer(sys: System, w: World, w': World)
    requires AllFit(sys, w) && w.history <= w'.history
    requires forall name: string | name in w'.exporters ::
               name in w.exporters && w'.exporters[name].offset <= w.exporters[name].offset
    requires forall name: string :: Replayed(w, name) <= Replayed(w', name) && Boot(w, name) <= Boot(w', name)
    ensures AllFit(sys, w')
  {
    forall name: string
      ensures CursorFits(sys, w', name)
    {
      assert CursorFits(sys, w, name) && Replayed(w, name) <= Replayed(w', name) && Boot(w, name) <= Boot(w', name);
      Transfers(sys, w, w', name);
    }
  }

  /** Only the worker and the reserve of what to keep changed: nothing about coverage did. */
  lemma SameFit(sys: System, w: World, w': World)
    requires w'.exporters == w.exporters && w'.history == w.history && w'.replayed == w.replayed && w'.boots == w.boots
    ensures AllFit(sys, w') <==> AllFit(sys, w)
  {
    if AllFit(sys, w) {
      AllTransfer(sys, w, w');
    }
    if AllFit(sys, w') {
      AllTransfer(sys, w', w);
    }
  }

  // ---------------- the invariant, step by step ----------------

  lemma SameBounds(w: World, w': World)
    requires (forall name: string :: Boot(w, name) <= |w.history|) && |w.history| <= |w'.history| && w'.boots == w.boots
    ensures forall name: string :: Boot(w', name) <= |w'.history|
  {
    forall name: string
      ensures Boot(w', name) <= |w'.history|
    {
      assert Boot(w, name) <= |w.history|;
    }
  }

  lemma SameWorker(sys: System, w: World, w': World)
    requires WorkerFits(sys, w) && StaleFits(w) && w'.worker == w.worker && w'.history == w.history
    requires w'.replayed == w.replayed && w'.boots == w.boots && w'.lives == w.lives
    ensures WorkerFits(sys, w') && StaleFits(w')
  {
  }

  lemma OperatorKeeps(sys: System, w: World, act: Act)
    requires Inv(sys, w) && Enabled(sys, w, act) && (act.Pause? || act.Resume? || act.Reset? || act.Delete?)
    ensures Inv(sys, Next(sys, w, act))
  {
    hide Holds, WorkerFits, StaleFits;
    SameBounds(w, Next(sys, w, act));
    SameWorker(sys, w, Next(sys, w, act));
  }

  lemma CreateKeeps(sys: System, w: World, act: Act)
    requires Inv(sys, w) && Enabled(sys, w, act) && act.Create?
    ensures Inv(sys, Next(sys, w, act))
  {
    hide Holds;
    forall name: string
      ensures Boot(Next(sys, w, act), name) <= |w.history|
    {
      assert Boot(w, name) <= |w.history|;
    }
  }

  lemma CommitKeeps(sys: System, w: World, act: Act)
    requires Inv(sys, w) && Enabled(sys, w, act) && act.Commit?
    ensures Inv(sys, Next(sys, w, act))
  {
    AppendKeeps(w.log, w.history, w.log.next, act.events);
    AppendGrows(w.log, w.log.next, act.events);
    hide Holds, Append;
    SameBounds(w, Next(sys, w, act));
  }

  lemma AppendGrows(log: Log, at: nat, events: seq<LogEvent>)
    requires at == log.next
    ensures log.next <= Append(log, at, events).next
  {
  }

  lemma PruneKeepsInv(sys: System, w: World, act: Act)
    requires Inv(sys, w) && Enabled(sys, w, act) && (act.PruneLog? || act.ChooseFloor?)
    ensures Inv(sys, Next(sys, w, act))
  {
    if act.PruneLog? {
      PruneKeeps(w.log, w.history, w.keep.value);
    }
    hide Holds, Prune;
    SameBounds(w, Next(sys, w, act));
  }

  lemma ReadInOrder(w: World, from: nat, limit: nat)
    requires Holds(w.log, w.history) && w.log.floor <= from
    ensures var events := ReadBatch(w.log, from, limit); events != [] ==> InOrder(w, from, events)
  {
  }

  lemma StartKeeps(sys: System, w: World)
    requires Inv(sys, w) && w.worker.Picked? && Intact(w.log)
    ensures Inv(sys, Next(sys, w, StartBatch))
  {
    hide Holds, ReadBatch, InOrder, Intact;
    var w' := Started(sys, w);
    StartedWorker(sys, w);
    SameBounds(w, w');
    assert w'.exporters == w.exporters
           || w'.exporters == CompareAndSet(w.exporters, w.worker.name, w.worker.offset, w.worker.offset, Running);
    hide Started, WorkerFits, StaleFits;
  }

  lemma StartedWorker(sys: System, w: World)
    requires Inv(sys, w) && w.worker.Picked? && Intact(w.log)
    ensures WorkerFits(sys, Started(sys, w)) && StaleFits(Started(sys, w))
  {
    assert w.log.floor <= w.log.next == |w.history|;
    hide Holds, ReadBatch, InOrder, Intact, CompareAndSet;
    if w.worker.offset >= w.log.floor {
      ReadInOrder(w, w.worker.offset, sys.batch);
    }
  }

  lemma WorkerKeeps(sys: System, w: World, act: Act)
    requires Inv(sys, w) && Enabled(sys, w, act)
    requires act.Pick? || act.Send? || act.Progress? || act.FinishBoot? || act.Crash? || act.SendFails?
             || act.BootFails?
    ensures Inv(sys, Next(sys, w, act))
  {
    hide Holds;
    var w' := Next(sys, w, act);
    SameBounds(w, w');
  }

  lemma BootKeeps(sys: System, w: World, act: Act)
    requires Inv(sys, w) && Enabled(sys, w, act) && (act.ReadState? || act.SendState?)
    ensures Inv(sys, Next(sys, w, act))
  {
    hide Holds;
    assert Holds(w.log, w.history);
    forall name: string
      ensures Boot(Next(sys, w, act), name) <= |w.history|
    {
      assert Boot(w, name) <= |w.history|;
    }
  }

  lemma StepKeepsInv(sys: System, w: World, act: Act)
    requires Inv(sys, w) && Enabled(sys, w, act)
    ensures Inv(sys, Next(sys, w, act))
  {
    hide Inv, Next, Enabled;
    match act
    case Commit(_) => CommitKeeps(sys, w, act);
    case StartBatch => StartIsEnabled(sys, w);
      StartKeeps(sys, w);
    case ReadState => BootKeeps(sys, w, act);
    case SendState => BootKeeps(sys, w, act);
    case ChooseFloor(_) => PruneKeepsInv(sys, w, act);
    case PruneLog => PruneKeepsInv(sys, w, act);
    case Pause(_) => OperatorKeeps(sys, w, act);
    case Resume(_) => OperatorKeeps(sys, w, act);
    case Reset(_) => OperatorKeeps(sys, w, act);
    case Create(_) => CreateKeeps(sys, w, act);
    case Delete(_) => OperatorKeeps(sys, w, act);
    case _ => WorkerKeeps(sys, w, act);
  }

  lemma StartIsEnabled(sys: System, w: World)
    ensures Enabled(sys, w, StartBatch) == (w.worker.Picked? && Intact(w.log))
  {
  }

  lemma {:induction false} AlwaysInv(sys: System, w: World, acts: seq<Act>)
    requires Inv(sys, w) && Behaves(sys, w, acts)
    ensures Inv(sys, After(sys, w, acts))
    decreases acts
  {
    if acts != [] {
      hide Inv, Next, Enabled;
      StepKeepsInv(sys, w, acts[0]);
      AlwaysInv(sys, Next(sys, w, acts[0]), acts[1..]);
    }
  }

  // ---------------- exactly when nothing is skipped ----------------

  /** What a write passes is covered exactly if it is the picked exporter's own, or passes nothing of interest. */
  lemma PassedIff(sys: System, w: World)
    requires Inv(sys, w) && ((w.worker.Sent? && w.worker.todo != []) || w.worker.Booted?)
    ensures w.worker.offset <= Target(w) <= |w.history|
    ensures (forall k: nat | w.worker.offset <= k < Target(w) :: Covered(sys, w, w.worker.name, k)) <==>
            Current(w) || !exists k: nat | w.worker.offset <= k < Target(w)
              && k < |w.history| :: sys.matches(w.worker.name, w.history[k])
  {
    hide Holds;
    var name := w.worker.name;
    if !Current(w) {
      forall k: nat | k < |w.history|
        ensures Covered(sys, w, name, k) == !sys.matches(name, w.history[k])
      {
      }
    }
  }

  /**
   The cursor moves past one event, or stays; no other cursor moves; it stays
   right exactly if the write does not skip.
   */
  lemma ProgressFitsIff(sys: System, w: World)
    requires Inv(sys, w) && AllFit(sys, w) && Enabled(sys, w, Progress)
    ensures AllFit(sys, Next(sys, w, Progress)) <==> !Skips(sys, w, Progress)
    ensures var k, now := w.worker, Next(sys, w, Progress).exporters;
            now == if Lands(w.exporters, k.name, k.offset) then w.exporters[k.name := Record(Running, k.offset + 1)]
              else w.exporters
  {
    hide Holds;
    var k, w' := w.worker, Next(sys, w, Progress);
    PassedIff(sys, w);
    MoveFitsIff(sys, w, k.name, k.offset, Target(w), Running);
    SameFit(sys, w.(exporters := w'.exporters), w');
  }

  lemma FinishFitsIff(sys: System, w: World)
    requires Inv(sys, w) && AllFit(sys, w) && Enabled(sys, w, FinishBoot)
    ensures AllFit(sys, Next(sys, w, FinishBoot)) <==> !Skips(sys, w, FinishBoot)
  {
    hide Holds;
    var k, w' := w.worker, Next(sys, w, FinishBoot);
    PassedIff(sys, w);
    MoveFitsIff(sys, w, k.name, k.offset, Target(w), Running);
    SameFit(sys, w.(exporters := w'.exporters), w');
  }

  lemma StayFits(sys: System, w: World, act: Act)
    requires Inv(sys, w) && AllFit(sys, w) && Enabled(sys, w, act)
             && (act.SendFails? || act.BootFails? || act.StartBatch?)
    ensures AllFit(sys, Next(sys, w, act))
  {
    hide Holds, ReadBatch;
    var k, w' := w.worker, Next(sys, w, act);
    if Lands(w.exporters, k.name, k.offset) {
      MoveFitsIff(sys, w, k.name, k.offset, k.offset, if act.StartBatch? then Running else act.state);
    }
    SameFit(sys, w.(exporters := w'.exporters), w');
  }

  lemma CreateFits(sys: System, w: World, act: Act)
    requires AllFit(sys, w) && Enabled(sys, w, act) && act.Create?
    ensures AllFit(sys, Next(sys, w, act))
  {
    var w' := Next(sys, w, act);
    forall name: string
      ensures CursorFits(sys, w', name)
    {
      assert CursorFits(sys, w, name);
      if name != act.name {
        Transfers(sys, w, w', name);
      }
    }
  }

  lemma OtherFits(sys: System, w: World, act: Act)
    requires Inv(sys, w) && AllFit(sys, w) && Enabled(sys, w, act)
    requires !act.Progress? && !act.FinishBoot? && !act.SendFails? && !act.BootFails? && !act.StartBatch?
             && !act.Create?
    ensures AllFit(sys, Next(sys, w, act))
  {
    hide Holds, Append, Prune;
    AllTransfer(sys, w, Next(sys, w, act));
  }

  /** Where nothing has been skipped, a step skips nothing exactly if it is no stale write past a matching event. */
  lemma StepFitsIff(sys: System, w: World, act: Act)
    requires Inv(sys, w) && AllFit(sys, w) && Enabled(sys, w, act)
    ensures AllFit(sys, Next(sys, w, act)) <==> !Skips(sys, w, act)
  {
    hide Inv, AllFit, Next, Enabled;
    match act
    case Progress => ProgressFitsIff(sys, w);
    case FinishBoot => FinishFitsIff(sys, w);
    case SendFails(_) => StayFits(sys, w, act);
    case BootFails(_) => StayFits(sys, w, act);
    case StartBatch => StayFits(sys, w, act);
    case Create(_) => CreateFits(sys, w, act);
    case _ => OtherFits(sys, w, act);
  }

  ghost predicate NeverSkips(sys: System, w: World, acts: seq<Act>)
    requires Behaves(sys, w, acts)
    decreases acts
  {
    acts == [] || (!Skips(sys, w, acts[0]) && NeverSkips(sys, Next(sys, w, acts[0]), acts[1..]))
  }

  ghost predicate AlwaysFit(sys: System, w: World, acts: seq<Act>)
    requires Behaves(sys, w, acts)
    decreases acts
  {
    AllFit(sys, w) && (acts == [] || AlwaysFit(sys, Next(sys, w, acts[0]), acts[1..]))
  }

  /** Over a whole run every cursor is right, in every state passed, exactly if no write skips. */
  lemma {:induction false} NothingIsSkippedIff(sys: System, w: World, acts: seq<Act>)
    requires Inv(sys, w) && AllFit(sys, w) && Behaves(sys, w, acts)
    ensures AlwaysFit(sys, w, acts) <==> NeverSkips(sys, w, acts)
    ensures NeverSkips(sys, w, acts) ==> AllFit(sys, After(sys, w, acts))
    decreases acts
  {
    if acts != [] {
      hide Inv, AllFit, Next, Enabled, Skips;
      var w' := Next(sys, w, acts[0]);
      StepKeepsInv(sys, w, acts[0]);
      StepFitsIff(sys, w, acts[0]);
      if Skips(sys, w, acts[0]) {
        assert !AlwaysFit(sys, w', acts[1..]);
      } else {
        NothingIsSkippedIff(sys, w', acts[1..]);
      }
    }
  }

  // ---------------- what an exporter is promised ----------------

  const NEW_WORLD := World(EMPTY_LOG, [], map[], Resting, None, map[], map[], map[])

  lemma NewWorldFits(sys: System)
    ensures Inv(sys, NEW_WORLD) && AllFit(sys, NEW_WORLD)
  {
  }

  /** Every matching event below a cursor was replayed, or covered by a bootstrap at a later position. */
  lemma NothingIsSkipped(sys: System, acts: seq<Act>, name: string, k: nat)
    requires Behaves(sys, NEW_WORLD, acts) && NeverSkips(sys, NEW_WORLD, acts)
    requires var w := After(sys, NEW_WORLD, acts); name in w.exporters && k < w.exporters[name].offset
    ensures var w := After(sys, NEW_WORLD, acts);
            k < |w.history| && (sys.matches(name, w.history[k]) ==> k in Replayed(w, name) || k < Boot(w, name))
  {
    hide Behaves, NeverSkips, Inv;
    NewWorldFits(sys);
    NothingIsSkippedIff(sys, NEW_WORLD, acts);
    assert CursorFits(sys, After(sys, NEW_WORLD, acts), name);
    assert Covered(sys, After(sys, NEW_WORLD, acts), name, k);
  }

  /** Nobody creates an exporter under the name the worker is busy with while it is at the start of the log. */
  predicate Calm(w: World, act: Act) {
    act.Create? && !w.worker.Resting? && act.name == w.worker.name ==> w.worker.offset != 0
  }

  ghost predicate AlwaysCalm(sys: System, w: World, acts: seq<Act>)
    requires Behaves(sys, w, acts)
    decreases acts
  {
    acts == [] || (Calm(w, acts[0]) && AlwaysCalm(sys, Next(sys, w, acts[0]), acts[1..]))
  }

  /** A worker whose exporter is gone is past the start, and the new exporter is not. */
  predicate Harmless(w: World) {
    !Current(w) ==> w.worker.offset != 0 && (w.worker.name in w.exporters ==> w.exporters[w.worker.name].offset == 0)
  }

  lemma CalmStaysHarmless(sys: System, w: World, act: Act)
    requires Inv(sys, w) && Enabled(sys, w, act) && Calm(w, act) && Harmless(w)
    ensures Harmless(Next(sys, w, act)) && !Skips(sys, w, act)
  {
    hide Holds, Append, Prune, ReadBatch;
  }

  /** The write meant for an earlier exporter is stopped by the offset it expects, unless both are at the start. */
  lemma {:induction false} CalmNeverSkips(sys: System, w: World, acts: seq<Act>)
    requires Inv(sys, w) && Harmless(w) && Behaves(sys, w, acts) && AlwaysCalm(sys, w, acts)
    ensures NeverSkips(sys, w, acts)
    decreases acts
  {
    if acts != [] {
      hide Inv, Next, Enabled, Skips, Calm, Harmless;
      StepKeepsInv(sys, w, acts[0]);
      CalmStaysHarmless(sys, w, acts[0]);
      CalmNeverSkips(sys, Next(sys, w, acts[0]), acts[1..]);
    }
  }

  /** The exporter the worker is busy with is deleted and created again. */
  ghost function Recreated(sys: System, w: World, name: string): (w': World)
    requires name in w.exporters
    ensures Behaves(sys, w, [Delete(name), Create(name)]) && w' == After(sys, w, [Delete(name), Create(name)])
  {
    var w1 := Next(sys, w, Delete(name));
    assert [Delete(name), Create(name)][1..] == [Create(name)] && [Create(name)][1..] == [];
    assert Enabled(sys, w1, Create(name)) && Behaves(sys, Next(sys, w1, Create(name)), []);
    assert Behaves(sys, w1, [Create(name)]) && After(sys, w1, [Create(name)]) == Next(sys, w1, Create(name));
    Next(sys, w1, Create(name))
  }

  lemma RecreatedKeeps(sys: System, w: World, name: string)
    requires Inv(sys, w) && AllFit(sys, w) && name in w.exporters
    ensures Inv(sys, Recreated(sys, w, name)) && AllFit(sys, Recreated(sys, w, name))
  {
    hide Inv, AllFit;
    var w1 := Next(sys, w, Delete(name));
    StepKeepsInv(sys, w, Delete(name));
    StepFitsIff(sys, w, Delete(name));
    StepKeepsInv(sys, w1, Create(name));
    StepFitsIff(sys, w1, Create(name));
  }

  /** The pending cursor write is then right exactly if it is not the first, or the first event is of no interest. */
  lemma RecreatedProgressIff(sys: System, w: World)
    requires Inv(sys, w) && AllFit(sys, w) && w.worker.Sent? && w.worker.name in w.exporters
    ensures var w' := Recreated(sys, w, w.worker.name);
            && Enabled(sys, w', Progress)
            && (AllFit(sys, Next(sys, w', Progress)) <==>
                w.worker.offset != 0 || !sys.matches(w.worker.name, w.history[0]))
  {
    hide Holds, AllFit;
    var w' := Recreated(sys, w, w.worker.name);
    RecreatedKeeps(sys, w, w.worker.name);
    StepFitsIff(sys, w', Progress);
    assert 0 < |w.history|;
  }

  /** And the end of a bootstrap exactly if the exporter had moved before, or nothing below it is of interest. */
  lemma RecreatedFinishIff(sys: System, w: World)
    requires Inv(sys, w) && AllFit(sys, w) && w.worker.Booted? && w.worker.name in w.exporters
    ensures var w' := Recreated(sys, w, w.worker.name);
            && Enabled(sys, w', FinishBoot) && w.worker.now <= |w.history|
            && (AllFit(sys, Next(sys, w', FinishBoot)) <==>
                w.worker.offset != 0 || forall k: nat | k < w.worker.now :: !sys.matches(w.worker.name, w.history[k]))
  {
    hide Holds, AllFit;
    var w' := Recreated(sys, w, w.worker.name);
    RecreatedKeeps(sys, w, w.worker.name);
    StepFitsIff(sys, w', FinishBoot);
  }

  // ---------------- pruning ----------------

  /** At the moment the floor is chosen it is at or below all cursors, and no lower than it needs to be. */
  lemma FloorFollowsSlowest(sys: System, w: World, names: seq<string>)
    requires Enabled(sys, w, ChooseFloor(names))
    ensures var keep := Next(sys, w, ChooseFloor(names)).keep.value;
            && keep <= w.log.next && (forall name | name in w.exporters :: keep <= w.exporters[name].offset)
            && (keep == w.log.next || exists name :: name in w.exporters && keep == w.exporters[name].offset)
  {
    var records := Listing(w.exporters, names);
    var keep := Lowest(records, w.log.next);
    forall name | name in w.exporters
      ensures keep <= w.exporters[name].offset
    {
      var i :| 0 <= i < |names| && names[i] == name;
      assert records[i] in records;
    }
    if keep != w.log.next {
      var r :| r in records && keep == r.offset;
      var i :| 0 <= i < |records| && records[i] == r;
      assert names[i] in names;
    }
  }

  /** An operator starts the exporter over, or removes it. */
  predicate Touches(act: Act, name: string) {
    (act.Reset? || act.Create? || act.Delete?) && act.name == name
  }

  /** The log still has all the exporter needs, and the floor waiting to be written does not change that. */
  predicate Supplied(w: World, name: string) {
    && name in w.exporters && w.log.floor <= w.exporters[name].offset
    && (w.keep.Some? ==> w.keep.value <= w.exporters[name].offset)
  }

  lemma StepSupplies(sys: System, w: World, act: Act, name: string)
    requires Inv(sys, w) && Enabled(sys, w, act) && !Touches(act, name) && Supplied(w, name)
    ensures Supplied(Next(sys, w, act), name)
  {
    hide Holds, Listing, Lowest, ReadBatch;
    if act.ChooseFloor? {
      FloorFollowsSlowest(sys, w, act.names);
    }
  }

  /** Through any run of commits, exports, crashes, pauses and prunes an exporter keeps what it needs. */
  lemma {:induction false} RunSupplies(sys: System, w: World, acts: seq<Act>, name: string)
    requires Inv(sys, w) && Behaves(sys, w, acts) && Supplied(w, name)
             && forall act | act in acts :: !Touches(act, name)
    ensures Supplied(After(sys, w, acts), name)
    decreases acts
  {
    if acts != [] {
      hide Inv, Next, Enabled, Supplied, Touches;
      StepKeepsInv(sys, w, acts[0]);
      StepSupplies(sys, w, acts[0], name);
      assert forall act | act in acts[1..] :: act in acts;
      RunSupplies(sys, Next(sys, w, acts[0]), acts[1..], name);
    }
  }

  /** Choosing a floor and writing it, whatever happens in between, never passes a cursor that was not started over. */
  lemma PruningNeverPasses(sys: System, w: World, names: seq<string>, mid: seq<Act>, name: string)
    requires Inv(sys, w) && Behaves(sys, w, [ChooseFloor(names)] + mid + [PruneLog])
    requires name in w.exporters && w.log.floor <= w.exporters[name].offset
             && forall act | act in mid :: !Touches(act, name)
    ensures var w' := After(sys, w, [ChooseFloor(names)] + mid + [PruneLog]);
            name in w'.exporters && w'.log.floor <= w'.exporters[name].offset
  {
    var acts := [ChooseFloor(names)] + mid + [PruneLog];
    var rest := mid + [PruneLog];
    assert acts[0] == ChooseFloor(names) && acts[1..] == rest;
    FloorFollowsSlowest(sys, w, names);
    StepKeepsInv(sys, w, acts[0]);
    var w1 := Next(sys, w, acts[0]);
    assert Supplied(w1, name);
    forall act | act in rest
      ensures !Touches(act, name)
    {
      assert act in mid || act == PruneLog;
    }
    RunSupplies(sys, w1, rest, name);
  }

  /** So whatever the exporter has not replayed is still in the log, unchanged, until an operator starts it over. */
  lemma NeededEventsAreKept(sys: System, before: seq<Act>, since: seq<Act>, name: string, k: nat)
    requires Behaves(sys, NEW_WORLD, before + since)
    requires Behaves(sys, NEW_WORLD, before) && Supplied(After(sys, NEW_WORLD, before), name)
    requires forall act | act in since :: !Touches(act, name)
    ensures var w := After(sys, NEW_WORLD, before + since);
            && name in w.exporters
            && (w.exporters[name].offset <= k < |w.history| ==> k in w.log.entries && w.log.entries[k] == w.history[k])
  {
    hide Behaves;
    NewWorldFits(sys);
    BehavesInTwo(sys, NEW_WORLD, before, since);
    var w := After(sys, NEW_WORLD, before);
    AlwaysInv(sys, NEW_WORLD, before);
    AlwaysInv(sys, w, since);
    RunSupplies(sys, w, since, name);
  }

  /** The last step of a run in which an operator touched the name, if any. */
  lemma LastTouch(acts: seq<Act>, name: string) returns (i: nat)
    ensures i <= |acts| && (i > 0 ==> Touches(acts[i - 1], name))
            && forall act | act in acts[i..] :: !Touches(act, name)
  {
    i := |acts|;
    while i > 0 && !Touches(acts[i - 1], name)
      invariant 0 <= i <= |acts| && forall act | act in acts[i..] :: !Touches(act, name)
    {
      assert acts[i - 1..] == [acts[i - 1]] + acts[i..];
      i := i - 1;
    }
  }

  /** An exporter is below the floor only because an operator put it there: by a reset or a creation behind the log. */
  lemma BelowFloorByOperator(sys: System, acts: seq<Act>, name: string) returns (i: nat)
    requires Behaves(sys, NEW_WORLD, acts)
    requires var w := After(sys, NEW_WORLD, acts); name in w.exporters && w.exporters[name].offset < w.log.floor
    ensures 0 < i <= |acts| && (acts[i - 1] == Reset(name) || acts[i - 1] == Create(name))
    ensures Behaves(sys, NEW_WORLD, acts[..i])
    ensures var w := After(sys, NEW_WORLD, acts[..i]);
            && name in w.exporters && w.exporters[name].offset == 0
            && (w.log.floor > 0 || (w.keep.Some? && w.keep.value > 0))
    ensures forall act | act in acts[i..] :: !Touches(act, name)
  {
    i := LastTouch(acts, name);
    assert acts == acts[..i] + acts[i..];
    BehavesInTwo(sys, NEW_WORLD, acts[..i], acts[i..]);
    NewWorldFits(sys);
    AlwaysInv(sys, NEW_WORLD, acts[..i]);
    var w := After(sys, NEW_WORLD, acts[..i]);
    if i == 0 {
      NeverCreated(sys, w, acts, name);
      assert false;
    }
    var early := acts[..i - 1];
    assert acts[..i] == early + [acts[i - 1]];
    BehavesInTwo(sys, NEW_WORLD, early, [acts[i - 1]]);
    var w0 := After(sys, NEW_WORLD, early);
    assert [acts[i - 1]][1..] == [] && w == Next(sys, w0, acts[i - 1]);
    if acts[i - 1].Delete? {
      NeverCreated(sys, w, acts[i..], name);
    }
    if Supplied(w, name) {
      RunSupplies(sys, w, acts[i..], name);
    }
  }

  lemma {:induction false} NeverCreated(sys: System, w: World, acts: seq<Act>, name: string)
    requires Behaves(sys, w, acts) && name !in w.exporters && forall act | act in acts :: !Touches(act, name)
    ensures name !in After(sys, w, acts).exporters
    decreases acts
  {
    if acts != [] {
      assert acts[0] in acts && forall act | act in acts[1..] :: act in acts;
      assert name !in Next(sys, w, acts[0]).exporters;
      NeverCreated(sys, Next(sys, w, acts[0]), acts[1..], name);
    }
  }

  predicate WorkerAct(act: Act) {
    !(act.Commit? || act.Pause? || act.Resume? || act.Reset? || act.Create? || act.Delete?)
  }

  /** No step of the worker touches an exporter that waits for an operator. */
  lemma StoppedStaysPut(sys: System, w: World, act: Act, name: string)
    requires Enabled(sys, w, act) && WorkerAct(act) && name in w.exporters && Stopped(w.exporters[name])
    ensures var w' := Next(sys, w, act); name in w'.exporters && w'.exporters[name] == w.exporters[name]
  {
  }

  // ---------------- a name that is taken again ----------------

  /** One event to replay, and an exporter deleted and created again between its replay and the cursor write. */
  function Recreation(name: string, e: LogEvent): seq<Act> {
    [Create(name), Commit([e]), Pick(name), StartBatch, Send, Delete(name), Create(name), Progress]
  }

  /** The worker about to replay the event to the first exporter of that name. */
  function Midway(name: string, e: LogEvent): World {
    World(Log(map[0 := e], 0, 1), [e], map[name := Record(Running, 0)], Replaying(name, 1, 0, [(0, e)]), None,
          map[name := 1], map[name := {}], map[name := 0])
  }

  lemma ReachesMidway(sys: System, name: string, e: LogEvent, rest: seq<Act>)
    requires sys.batch > 0 && Behaves(sys, Midway(name, e), rest)
    ensures var acts := [Create(name), Commit([e]), Pick(name), StartBatch] + rest;
            Behaves(sys, NEW_WORLD, acts) && After(sys, NEW_WORLD, acts) == After(sys, Midway(name, e), rest)
  {
    var acts := [Create(name), Commit([e]), Pick(name), StartBatch] + rest;
    var w1 := Next(sys, NEW_WORLD, acts[0]);
    var w2 := Next(sys, w1, acts[1]);
    assert PutFrom(map[], 0, [e]) == map[0 := e];
    assert w2.log == Log(map[0 := e], 0, 1);
    var w3 := Next(sys, w2, acts[2]);
    var w4 := Next(sys, w3, acts[3]);
    assert ReadBatch(w3.log, 0, sys.batch) == [(0, e)];
    assert w4 == Midway(name, e);
    assert acts[4..] == rest;
    hide Next, Enabled, Midway;
    Unroll(sys, NEW_WORLD, acts, w1, w2, w3, w4);
  }

  lemma LeavesMidway(sys: System, name: string, e: LogEvent)
    requires sys.matches(name, e)
    ensures var rest := [Send, Delete(name), Create(name), Progress];
            && Behaves(sys, Midway(name, e), rest)
            && After(sys, Midway(name, e), rest) ==
               Midway(name, e).(exporters := map[name := Record(Running, 1)], worker := Resting,
                                lives := map[name := 2])
  {
    var acts := [Send, Delete(name), Create(name), Progress];
    var w5 := Next(sys, Midway(name, e), acts[0]);
    var w6 := Next(sys, w5, acts[1]);
    var w7 := Next(sys, w6, acts[2]);
    var w8 := Next(sys, w7, acts[3]);
    assert w8 == Midway(name, e).(exporters := map[name := Record(Running, 1)], worker := Resting,
                                  lives := map[name := 2]);
    assert acts[4..] == [];
    hide Next, Enabled, Midway;
    Unroll(sys, Midway(name, e), acts, w5, w6, w7, w8);
  }

  /** The new exporter's cursor is then past an event that was only ever sent for the old one. */
  lemma RecreatedExporterSkips(sys: System, name: string, e: LogEvent)
    requires sys.matches(name, e) && sys.batch > 0
    ensures Behaves(sys, NEW_WORLD, Recreation(name, e))
    ensures var w := After(sys, NEW_WORLD, Recreation(name, e));
            && name in w.exporters && w.exporters[name].offset == 1 && w.history == [e]
            && 0 !in Replayed(w, name) && Boot(w, name) == 0
  {
    hide Next, Enabled;
    var rest := [Send, Delete(name), Create(name), Progress];
    assert Recreation(name, e) == [Create(name), Commit([e]), Pick(name), StartBatch] + rest;
    LeavesMidway(sys, name, e);
    ReachesMidway(sys, name, e, rest);
  }

  lemma Unroll(sys: System, w: World, acts: seq<Act>, a: World, b: World, c: World, d: World)
    requires |acts| >= 4 && Enabled(sys, w, acts[0]) && a == Next(sys, w, acts[0])
    requires Enabled(sys, a, acts[1]) && b == Next(sys, a, acts[1]) && Enabled(sys, b, acts[2])
             && c == Next(sys, b, acts[2])
    requires Enabled(sys, c, acts[3]) && d == Next(sys, c, acts[3]) && Behaves(sys, d, acts[4..])
    ensures Behaves(sys, w, acts) && After(sys, w, acts) == After(sys, d, acts[4..])
  {
    hide Next, Enabled;
    var r1, r2, r3 := acts[1..], acts[2..], acts[3..];
    assert r1[1..] == r2 && r2[1..] == r3 && r3[1..] == acts[4..];
    assert Behaves(sys, c, r3) && After(sys, c, r3) == After(sys, d, acts[4..]);
    assert Behaves(sys, b, r2) && After(sys, b, r2) == After(sys, c, r3);
    assert Behaves(sys, a, r1) && After(sys, a, r1) == After(sys, b, r2);
  }
}
