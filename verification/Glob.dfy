/**
 The `*`-globs of role bindings (`Glob` in src/authz.rs): how a pattern is
 parsed, the greedy left-to-right matcher, and the language the pattern means.
 */
module Glob {
  import opened Wrappers

  datatype Glob =
    | Any
    | Literal(text: string)
    | Parts(parts: seq<string>, openStart: bool, openEnd: bool)

  // ---------------- parsing ----------------

  function FirstStar(raw: string): (i: nat)
    ensures i <= |raw| && '*' !in raw[..i]
    ensures i < |raw| ==> raw[i] == '*'
  {
    if raw == "" || raw[0] == '*' then 0
    else
      var i := 1 + FirstStar(raw[1..]);
      assert raw[..i] == [raw[0]] + raw[1..][..i - 1];
      i
  }

  function Split(raw: string): seq<string>
    decreases |raw|
  {
    var i := FirstStar(raw);
    if i == |raw| then [raw] else [raw[..i]] + Split(raw[i + 1..])
  }

  function NonEmpty(pieces: seq<string>): seq<string> {
    if pieces == [] then []
    else (if pieces[0] == "" then [] else [pieces[0]]) + NonEmpty(pieces[1..])
  }

  function PartsOf(raw: string): seq<string> {
    NonEmpty(Split(raw))
  }

  function Parse(raw: string): Glob {
    if raw == "*" then Any
    else if '*' !in raw then Literal(raw)
    else Parts(PartsOf(raw), raw[0] == '*', raw[|raw| - 1] == '*')
  }

  // ---------------- the greedy matcher ----------------

  predicate StartsWith(s: string, part: string) {
    |part| <= |s| && s[..|part|] == part
  }

  predicate Occurs(part: string, s: string, at: nat) {
    at + |part| <= |s| && StartsWith(s[at..], part)
  }

  /** The leftmost occurrence of `part`. */
  function Find(s: string, part: string): (at: Option<nat>)
    ensures at.Some? ==> Occurs(part, s, at.value) && forall k: nat :: k < at.value ==> !Occurs(part, s, k)
    ensures at.None? ==> forall k: nat :: !Occurs(part, s, k)
    decreases |s|
  {
    assert s[0..] == s;
    if StartsWith(s, part) then Some(0)
    else if s == "" then None
    else
      assert forall k: nat :: k > 0 ==> Occurs(part, s, k) == Occurs(part, s[1..], k - 1) by {
        forall k: nat | k > 0
          ensures Occurs(part, s, k) == Occurs(part, s[1..], k - 1)
        {
          OccursShifts(part, s, k);
        }
      }
      assert !Occurs(part, s, 0);
      var rest := Find(s[1..], part);
      if rest.None? then None else Some(rest.value + 1)
  }

  lemma OccursShifts(part: string, s: string, k: nat)
    requires s != "" && k > 0
    ensures Occurs(part, s, k) == Occurs(part, s[1..], k - 1)
  {
    if k <= |s| {
      assert s[k..] == s[1..][k - 1..];
    }
  }

  /** Where the matcher takes a part from: in front, or the leftmost occurrence once text may be skipped. */
  function NextAt(part: string, open: bool, s: string): (at: Option<nat>)
    ensures at.Some? ==> Occurs(part, s, at.value) && (open || at.value == 0)
    ensures at.Some? ==> forall k: nat :: k < at.value ==> !Occurs(part, s, k)
    ensures at.None? ==> forall k: nat :: (open || k == 0) ==> !Occurs(part, s, k)
  {
    assert s[0..] == s;
    if open then Find(s, part) else if StartsWith(s, part) then Some(0) else None
  }

  /** What the matcher has left after consuming `parts`; `open` allows skipping text before the first. */
  function Consume(parts: seq<string>, open: bool, s: string): Option<string> {
    if parts == [] then Some(s)
    else
      var at := NextAt(parts[0], open, s);
      if at.None? then None else Consume(parts[1..], true, s[at.value + |parts[0]|..])
  }

  lemma ConsumeNothing(open: bool, s: string)
    ensures Consume([], open, s) == Some(s)
  {
  }

  lemma ConsumeUnfolds(parts: seq<string>, open: bool, s: string)
    requires parts != []
    ensures var at := NextAt(parts[0], open, s);
            Consume(parts, open, s) == if at.None? then None else Consume(parts[1..], true, s[at.value + |parts[0]|..])
  {
  }

  predicate Accepts(g: Glob, s: string) {
    match g
    case Any => true
    case Literal(l) => l == s
    case Parts(parts, openStart, openEnd) =>
      var rest := Consume(parts, openStart, s);
      rest.Some? && (openEnd || rest.value == "")
  }

  /** `Glob::matches`, with its loop. */
  method Matches(g: Glob, s: string) returns (ok: bool)
    ensures ok == Accepts(g, s)
  {
    hide Consume, Find;
    match g
    case Any => return true;
    case Literal(l) => return l == s;
    case Parts(parts, openStart, openEnd) =>
      var rest := s;
      assert parts[0..] == parts;
      for i := 0 to |parts|
        invariant Consume(parts, openStart, s) == Consume(parts[i..], openStart || i > 0, rest)
      {
        ConsumeUnfolds(parts[i..], openStart || i > 0, rest);
        var at := 0;
        if i == 0 && !openStart {
          if !StartsWith(rest, parts[i]) {
            return false;
          }
        } else {
          var found := Find(rest, parts[i]);
          if found.None? {
            return false;
          }
          at := found.value;
        }
        assert parts[i..][1..] == parts[i + 1..];
        rest := rest[at + |parts[i]|..];
      }
      assert parts[|parts|..] == [];
      ConsumeNothing(openStart || |parts| > 0, rest);
      return openEnd || rest == "";
  }

  // ---------------- the language of a pattern ----------------

  /** `*` stands for any text, every other character for itself. */
  predicate InLanguage(raw: string, s: string)
    decreases |raw|, |s|
  {
    if raw == "" then s == ""
    else if raw[0] == '*' then InLanguage(raw[1..], s) || (s != "" && InLanguage(raw, s[1..]))
    else s != "" && s[0] == raw[0] && InLanguage(raw[1..], s[1..])
  }

  lemma {:induction false} StarSkips(raw: string, s: string)
    requires raw != "" && raw[0] == '*'
    ensures InLanguage(raw, s) <==> exists k: nat :: k <= |s| && InLanguage(raw[1..], s[k..])
    decreases |s|
  {
    assert s[0..] == s;
    if s != "" {
      StarSkips(raw, s[1..]);
      if k: nat :| k <= |s| && InLanguage(raw[1..], s[k..]) {
        if k > 0 {
          assert s[k..] == s[1..][k - 1..];
        }
      }
      if k: nat :| k <= |s[1..]| && InLanguage(raw[1..], s[1..][k..]) {
        assert s[1..][k..] == s[k + 1..];
      }
    }
  }

  lemma {:induction false} LiteralPrefix(lit: string, raw: string, s: string)
    requires '*' !in lit
    ensures InLanguage(lit + raw, s) <==> StartsWith(s, lit) && InLanguage(raw, s[|lit|..])
  {
    if lit == "" {
      assert lit + raw == raw && s[0..] == s;
    } else {
      assert (lit + raw)[1..] == lit[1..] + raw;
      if s != "" && s[0] == lit[0] {
        LiteralPrefix(lit[1..], raw, s[1..]);
        if |lit| <= |s| {
          assert s[1..][|lit| - 1..] == s[|lit|..];
          assert s[..|lit|] == [s[0]] + s[1..][..|lit| - 1];
        }
      }
    }
  }

  /** The language in terms of the parts between stars, each free to start anywhere further on. */
  ghost predicate Placed(parts: seq<string>, open: bool, openEnd: bool, s: string) {
    if parts == [] then openEnd || s == ""
    else exists at: nat ::
      (open || at == 0) && Occurs(parts[0], s, at) && Placed(parts[1..], true, openEnd, s[at + |parts[0]|..])
  }

  ghost predicate PlacedAt(parts: seq<string>, openEnd: bool, s: string, at: nat)
    requires parts != []
  {
    Occurs(parts[0], s, at) && Placed(parts[1..], true, openEnd, s[at + |parts[0]|..])
  }

  lemma PlacedUnfolds(parts: seq<string>, open: bool, openEnd: bool, s: string)
    requires parts != []
    ensures Placed(parts, open, openEnd, s) <==> exists k: nat :: (open || k == 0) && PlacedAt(parts, openEnd, s, k)
  {
    if k: nat :| (open || k == 0) && PlacedAt(parts, openEnd, s, k) {
      assert Occurs(parts[0], s, k);
    }
    if Placed(parts, open, openEnd, s) {
      var k: nat :| (open || k == 0) && Occurs(parts[0], s, k)
        && Placed(parts[1..], true, openEnd, s[k + |parts[0]|..]);
      assert PlacedAt(parts, openEnd, s, k);
    }
  }

  predicate EndsOpen(raw: string) {
    raw != "" && raw[|raw| - 1] == '*'
  }

  lemma TwoStars(raw: string, s: string)
    requires |raw| >= 2 && raw[0] == '*' && raw[1] == '*'
    ensures InLanguage(raw, s) <==> InLanguage(raw[1..], s)
  {
    StarSkips(raw, s);
    if k: nat :| k <= |s| && InLanguage(raw[1..], s[k..]) {
      StarSkips(raw[1..], s[k..]);
      var j: nat :| j <= |s[k..]| && InLanguage(raw[1..][1..], s[k..][j..]);
      assert s[k..][j..] == s[k + j..];
      StarSkips(raw[1..], s);
    }
  }

  /** `*lit` followed by the rest of a pattern. */
  lemma StarLiteral(lit: string, rest: string, s: string)
    requires '*' !in lit
    ensures InLanguage("*" + lit + rest, s) <==> exists k: nat :: LiteralAt(lit, rest, s, k)
  {
    var raw := "*" + lit + rest;
    assert raw[1..] == lit + rest;
    StarSkips(raw, s);
    forall k: nat | k <= |s|
      ensures InLanguage(raw[1..], s[k..]) <==> LiteralAt(lit, rest, s, k)
    {
      LiteralPrefix(lit, rest, s[k..]);
      assert k + |lit| <= |s| ==> s[k..][|lit|..] == s[k + |lit|..];
    }
  }

  predicate LiteralAt(lit: string, rest: string, s: string, k: nat) {
    k + |lit| <= |s| && StartsWith(s[k..], lit) && InLanguage(rest, s[k + |lit|..])
  }

  lemma SplitAtStar(raw: string)
    requires FirstStar(raw) < |raw|
    ensures Split(raw) == [raw[..FirstStar(raw)]] + Split(raw[FirstStar(raw) + 1..])
  {
    hide FirstStar;
  }

  lemma {:induction false} NonEmptySplits(piece: string, pieces: seq<string>)
    ensures NonEmpty([piece] + pieces) == (if piece == "" then [] else [piece]) + NonEmpty(pieces)
  {
    assert ([piece] + pieces)[1..] == pieces;
  }

  lemma {:induction false} PartsAtStar(raw: string)
    requires FirstStar(raw) < |raw|
    ensures var i := FirstStar(raw);
            PartsOf(raw) == (if i == 0 then [] else [raw[..i]]) + PartsOf(raw[i + 1..])
  {
    hide FirstStar;
    var i := FirstStar(raw);
    SplitAtStar(raw);
    NonEmptySplits(raw[..i], Split(raw[i + 1..]));
  }

  lemma NoParts()
    ensures PartsOf("") == []
  {
    assert [""][1..] == [];
  }

  lemma {:induction false} OnePart(raw: string)
    requires raw != "" && FirstStar(raw) == |raw|
    ensures PartsOf(raw) == [raw]
  {
    hide FirstStar;
    assert Split(raw) == [raw];
    var none: seq<string> := [];
    assert [raw][1..] == none;
    assert NonEmpty(none) == none;
  }

  lemma {:induction false} PartsAreNotEmpty(pieces: seq<string>)
    ensures forall p | p in NonEmpty(pieces) :: p != ""
  {
    if pieces != [] {
      PartsAreNotEmpty(pieces[1..]);
    }
  }

  /** A pattern that begins with a star, by the parts of what follows the star. */
  lemma {:induction false} OpenPatternMeansPlaced(raw: string, s: string)
    requires raw != "" && raw[0] == '*'
    ensures InLanguage(raw, s) <==> Placed(PartsOf(raw[1..]), true, EndsOpen(raw), s)
    decreases |raw|
  {
    hide Placed, InLanguage, Split, NonEmpty, FirstStar;
    var tail := raw[1..];
    var i := FirstStar(tail);
    if tail == "" {
      OnlyStar(raw, s);
    } else if i == 0 {
      TwoStars(raw, s);
      OpenPatternMeansPlaced(tail, s);
      PartsAtStar(tail);
      assert [] + PartsOf(tail[1..]) == PartsOf(tail[1..]);
    } else {
      var lit, rest := tail[..i], tail[i..];
      assert raw == "*" + lit + rest;
      StarLiteral(lit, rest, s);
      TailParts(tail, i);
      forall k: nat
        ensures PlacedAt(PartsOf(tail), EndsOpen(raw), s, k) <==> LiteralAt(lit, rest, s, k)
      {
        if rest == "" {
          EmptyRest(PartsOf(tail), s, k);
        } else if k + |lit| <= |s| {
          OpenPatternMeansPlaced(rest, s[k + |lit|..]);
        }
      }
      PlacedUnfolds(PartsOf(tail), true, EndsOpen(raw), s);
    }
  }

  lemma OnlyStar(raw: string, s: string)
    requires raw == "*"
    ensures InLanguage(raw, s) && Placed(PartsOf(raw[1..]), true, EndsOpen(raw), s)
  {
    StarSkips(raw, s);
    assert InLanguage(raw[1..], s[|s|..]);
    NoParts();
  }

  lemma EmptyRest(parts: seq<string>, s: string, k: nat)
    requires |parts| == 1
    ensures PlacedAt(parts, false, s, k) <==> LiteralAt(parts[0], "", s, k)
  {
  }

  /** The literal a pattern starts with is its first part. */
  lemma TailParts(tail: string, i: nat)
    requires tail != "" && i == FirstStar(tail) > 0
    ensures PartsOf(tail) != [] && PartsOf(tail)[0] == tail[..i]
    ensures i == |tail| ==> |PartsOf(tail)| == 1
    ensures i < |tail| ==> tail[i..] != "" && tail[i..][0] == '*' && PartsOf(tail)[1..] == PartsOf(tail[i..][1..])
  {
    hide Split, NonEmpty;
    if i == |tail| {
      OnePart(tail);
      assert tail[..i] == tail;
    } else {
      PartsAtStar(tail);
      assert tail[i..][1..] == tail[i + 1..];
    }
  }

  /** Every pattern with a star in it, by its parts. */
  lemma PatternMeansPlaced(raw: string, s: string)
    requires '*' in raw
    ensures InLanguage(raw, s) <==> Placed(PartsOf(raw), raw[0] == '*', EndsOpen(raw), s)
  {
    hide Placed, InLanguage, Split, NonEmpty, FirstStar;
    var i := FirstStar(raw);
    assert raw[..|raw|] == raw;
    PartsAtStar(raw);
    if i == 0 {
      OpenPatternMeansPlaced(raw, s);
      assert [] + PartsOf(raw[1..]) == PartsOf(raw[1..]);
    } else {
      var lit, rest := raw[..i], raw[i..];
      assert raw == lit + rest;
      LiteralPrefix(lit, rest, s);
      TailParts(raw, i);
      assert s[0..] == s;
      if StartsWith(s, lit) {
        OpenPatternMeansPlaced(rest, s[i..]);
      }
      assert PlacedAt(PartsOf(raw), EndsOpen(raw), s, 0) <==> InLanguage(raw, s);
      PlacedUnfolds(PartsOf(raw), false, EndsOpen(raw), s);
    }
  }

  // ---------------- the matcher against the language ----------------

  /** What greedy search consumes is a placement of the parts. */
  lemma {:induction false} ConsumeIsPlaced(parts: seq<string>, open: bool, openEnd: bool, s: string)
    requires var rest := Consume(parts, open, s); rest.Some? && (openEnd || rest.value == "")
    ensures Placed(parts, open, openEnd, s)
  {
    if parts != [] {
      var at := NextAt(parts[0], open, s).value;
      ConsumeIsPlaced(parts[1..], true, openEnd, s[at + |parts[0]|..]);
      assert Occurs(parts[0], s, at);
    }
  }

  /** Text in front of an open placement does no harm when the end is open too. */
  lemma {:induction false} PlacedLater(parts: seq<string>, s: string, k: nat)
    requires k <= |s| && Placed(parts, true, true, s[k..])
    ensures Placed(parts, true, true, s)
  {
    if parts != [] {
      var at: nat :| Occurs(parts[0], s[k..], at) && Placed(parts[1..], true, true, s[k..][at + |parts[0]|..]);
      assert s[k..][at..] == s[k + at..];
      assert s[k..][at + |parts[0]|..] == s[k + at + |parts[0]|..];
      assert Occurs(parts[0], s, k + at);
    }
  }

  /** With an open end, the leftmost occurrence of the first part leaves room for the others. */
  lemma LeftmostIsPlaced(parts: seq<string>, s: string, first: nat, at: nat)
    requires parts != [] && first <= at && PlacedAt(parts, true, s, at)
    ensures Placed(parts[1..], true, true, s[first + |parts[0]|..])
  {
    var n, m := first + |parts[0]|, at + |parts[0]|;
    assert s[n..][m - n..] == s[m..];
    PlacedLater(parts[1..], s[n..], m - n);
  }

  /** So greedy search never loses a placement. */
  lemma {:induction false} PlacedIsConsumed(parts: seq<string>, open: bool, s: string)
    requires Placed(parts, open, true, s)
    ensures Consume(parts, open, s).Some?
  {
    hide Placed, StartsWith, Find, NextAt, Consume;
    if parts == [] {
      ConsumeNothing(open, s);
    } else {
      ConsumeUnfolds(parts, open, s);
      PlacedUnfolds(parts, open, true, s);
      var at: nat :| (open || at == 0) && PlacedAt(parts, true, s, at);
      var first := NextAt(parts[0], open, s).value;
      LeftmostIsPlaced(parts, s, first, at);
      PlacedIsConsumed(parts[1..], true, s[first + |parts[0]|..]);
    }
  }

  function Concat(parts: seq<string>): string {
    if parts == [] then "" else parts[0] + Concat(parts[1..])
  }

  lemma FirstComesFirst(parts: seq<string>, tail: string)
    requires parts != []
    ensures var s := Concat(parts) + tail; Occurs(parts[0], s, 0) && s[|parts[0]|..] == Concat(parts[1..]) + tail
  {
    var first, rest := parts[0], Concat(parts[1..]);
    assert Concat(parts) == first + rest;
    hide Concat;
    StartsAndLeaves(first, rest, tail);
  }

  lemma StartsAndLeaves(first: string, rest: string, tail: string)
    ensures var s := first + rest + tail; Occurs(first, s, 0) && s[|first|..] == rest + tail
  {
    var s := first + rest + tail;
    assert s[0..] == s && s[..|first|] == first;
  }

  /** The parts written out one after the other leave the matcher with exactly what follows them. */
  lemma {:induction false} ConsumeLeavesTail(parts: seq<string>, open: bool, tail: string)
    ensures Consume(parts, open, Concat(parts) + tail) == Some(tail)
  {
    if parts == [] {
      assert Concat(parts) + tail == tail;
    } else {
      FirstComesFirst(parts, tail);
      ConsumeLeavesTail(parts[1..], true, tail);
    }
  }

  lemma PlacedBy(parts: seq<string>, open: bool, s: string, at: nat)
    requires parts != [] && (open || at == 0) && PlacedAt(parts, false, s, at)
    ensures Placed(parts, open, false, s)
  {
  }

  lemma OnlyPartIsPlaced(parts: seq<string>)
    requires |parts| == 1
    ensures Concat(parts) == parts[0] && PlacedAt(parts, false, parts[0] + parts[0], |parts[0]|)
  {
    var s := parts[0] + parts[0];
    assert parts[1..] == [] && parts[0] + "" == parts[0];
    assert s[|parts[0]|..] == parts[0] && s[|parts[0]| + |parts[0]|..] == "";
  }

  /** Doubling the last part stays inside the language of a pattern with a closed end. */
  lemma {:induction false} DoubledTailIsPlaced(parts: seq<string>, open: bool)
    requires parts != [] && (open || |parts| >= 2)
    ensures Placed(parts, open, false, Concat(parts) + parts[|parts| - 1])
  {
    hide Placed, Concat, Occurs;
    var last := parts[|parts| - 1];
    if |parts| == 1 {
      OnlyPartIsPlaced(parts);
      PlacedBy(parts, open, Concat(parts) + last, |last|);
    } else {
      FirstComesFirst(parts, last);
      DoubledTailIsPlaced(parts[1..], true);
      PlacedBy(parts, open, Concat(parts) + last, 0);
    }
  }

  /** Whatever the matcher accepts is in the pattern's language. */
  lemma AcceptsOnlyLanguage(raw: string, s: string)
    requires Accepts(Parse(raw), s)
    ensures InLanguage(raw, s)
  {
    if raw == "*" {
      StarSkips(raw, s);
      assert InLanguage(raw[1..], s[|s|..]);
    } else if '*' !in raw {
      LiteralPrefix(raw, "", s);
      assert raw + "" == raw;
    } else {
      ConsumeIsPlaced(PartsOf(raw), raw[0] == '*', EndsOpen(raw), s);
      PatternMeansPlaced(raw, s);
    }
  }

  /** A pattern without a star, or with a star at its end, is matched completely. */
  lemma AcceptsWholeLanguage(raw: string, s: string)
    requires '*' !in raw || EndsOpen(raw)
    requires InLanguage(raw, s)
    ensures Accepts(Parse(raw), s)
  {
    if '*' !in raw {
      LiteralPrefix(raw, "", s);
      assert raw + "" == raw;
    } else if raw != "*" {
      PatternMeansPlaced(raw, s);
      PlacedIsConsumed(PartsOf(raw), raw[0] == '*', s);
    }
  }

  /** A star not at the start leaves at least two parts when the end is closed. */
  lemma ClosedPatternHasParts(raw: string)
    requires '*' in raw && !EndsOpen(raw)
    ensures PartsOf(raw) != [] && (raw[0] == '*' || |PartsOf(raw)| >= 2)
    ensures forall p | p in PartsOf(raw) :: p != ""
    decreases |raw|
  {
    PartsAreNotEmpty(Split(raw));
    var i := FirstStar(raw);
    assert raw[..|raw|] == raw;
    PartsAtStar(raw);
    var tail := raw[i + 1..];
    if '*' in tail {
      ClosedPatternHasParts(tail);
    } else {
      OnePart(tail);
    }
  }

  /** A closed end after a star: some text of the language is refused. */
  lemma ClosedPatternMissesText(raw: string) returns (s: string)
    requires '*' in raw && !EndsOpen(raw)
    ensures InLanguage(raw, s) && !Accepts(Parse(raw), s)
  {
    ClosedPatternHasParts(raw);
    var parts := PartsOf(raw);
    var last := parts[|parts| - 1];
    s := Concat(parts) + last;
    DoubledTailIsPlaced(parts, raw[0] == '*');
    PatternMeansPlaced(raw, s);
    ConsumeLeavesTail(parts, raw[0] == '*', last);
    assert last in parts;
    assert Parse(raw) == Parts(parts, raw[0] == '*', false);
  }

  /** The matcher decides the pattern's language exactly when no star is followed by a closed end. */
  lemma MatcherIsExactIff(raw: string)
    ensures (forall s: string :: Accepts(Parse(raw), s) == InLanguage(raw, s)) <==> ('*' !in raw || EndsOpen(raw))
  {
    hide Accepts, InLanguage;
    if '*' !in raw || EndsOpen(raw) {
      forall s: string
        ensures Accepts(Parse(raw), s) == InLanguage(raw, s)
      {
        if Accepts(Parse(raw), s) { AcceptsOnlyLanguage(raw, s); }
        if InLanguage(raw, s) { AcceptsWholeLanguage(raw, s); }
      }
    } else {
      var s := ClosedPatternMissesText(raw);
    }
  }
}
