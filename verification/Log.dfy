/**
 The change log (src/store.rs): events under consecutive sequence numbers, cut
 off below a floor once nobody needs them. What was ever logged is the
 history; the log must hold exactly its part from the floor on.
 */
module Log {
  import opened Wrappers
  import opened RegistryTypes

  datatype Log = Log(entries: map<nat, LogEvent>, floor: nat, next: nat)

  const EMPTY_LOG := Log(map[], 0, 0)

  /** The sequence numbers are exactly [floor, next), each with the event logged under it. */
  ghost predicate Holds(log: Log, history: seq<LogEvent>) {
    && log.floor <= log.next == |history|
    && (forall k: nat :: k in log.entries <==> log.floor <= k < log.next)
    && (forall k: nat | k in log.entries :: log.entries[k] == history[k])
  }

  /** A transaction puts its events under the numbers from `at` on. */
  function PutFrom(entries: map<nat, LogEvent>, at: nat, events: seq<LogEvent>): map<nat, LogEvent>
    decreases events
  {
    if events == [] then entries else PutFrom(entries[at := events[0]], at + 1, events[1..])
  }

  lemma {:induction false} PutFromAt(entries: map<nat, LogEvent>, at: nat, events: seq<LogEvent>, k: nat)
    ensures Lookup(PutFrom(entries, at, events), k) ==
            if at <= k < at + |events| then Some(events[k - at]) else Lookup(entries, k)
    decreases events
  {
    if events != [] {
      PutFromAt(entries[at := events[0]], at + 1, events[1..], k);
    }
  }

  /** What a commit leaves, when its transaction read the counter as `at`. */
  function Append(log: Log, at: nat, events: seq<LogEvent>): Log {
    log.(entries := PutFrom(log.entries, at, events), next := if events == [] then log.next else at + |events|)
  }

  lemma AppendKeeps(log: Log, history: seq<LogEvent>, at: nat, events: seq<LogEvent>)
    requires Holds(log, history) && at == log.next
    ensures Holds(Append(log, at, events), history + events)
  {
    var after := Append(log, at, events);
    forall k: nat
      ensures k in after.entries <==> after.floor <= k < after.next
      ensures k in after.entries ==> after.entries[k] == (history + events)[k]
    {
      PutFromAt(log.entries, at, events, k);
      assert k in after.entries <==> Lookup(after.entries, k).Some?;
    }
  }

  /** Drop what is below `before`; an earlier floor is never brought back. */
  function Prune(log: Log, before: nat): Log {
    if before <= log.floor then log
    else log.(entries := map k | k in log.entries && before <= k :: log.entries[k], floor := before)
  }

  lemma PruneKeeps(log: Log, history: seq<LogEvent>, before: nat)
    requires Holds(log, history) && before <= log.next
    ensures Holds(Prune(log, before), history)
    ensures forall k: nat | before <= k && k in log.entries :: k in Prune(log, before).entries
  {
  }

  /** Events from `from` on, at most `limit` of them, oldest first. */
  method ReadLog(log: Log, from: nat, limit: nat, ghost history: seq<LogEvent>) returns (out: seq<(nat, LogEvent)>)
    requires Holds(log, history) && limit > 0
    ensures var start := if from < log.floor then log.floor else from;
            && |out| == (if start >= log.next then 0 else if log.next - start < limit then log.next - start else limit)
            && forall i | 0 <= i < |out| :: out[i] == (start + i, history[start + i])
  {
    out := [];
    var k := if from < log.floor then log.floor else from;
    var start := k;
    while k < log.next && |out| < limit
      invariant start <= k && k == start + |out| && |out| <= limit && (k <= log.next || out == [])
      invariant forall i | 0 <= i < |out| :: out[i] == (start + i, history[start + i])
    {
      out := out + [(k, log.entries[k])];
      k := k + 1;
    }
  }
}
