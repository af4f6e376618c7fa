// IndentHelper (src/lexer.rs:8-23): the scanner's extras, two counters that
// the scanner bumps through callbacks while it reads one line. `tokens`
// counts advances; `whites` counts whitespace bytes skipped while `tokens`
// is 1, that is, the whitespace in front of the first lexeme.
module Widths {

  // The two callbacks the scanner makes.
  datatype ScanEvent = Advance | Whitespace

  datatype Counters = Counters(tokens: int, whites: int)

  // The effect of one callback on the counters.
  function Step(c: Counters, e: ScanEvent): Counters
  {
    match e
    case Advance => Counters(c.tokens + 1, c.whites)
    case Whitespace => if c.tokens == 1 then Counters(c.tokens, c.whites + 1) else c
  }

  // The counters after replaying a whole sequence of callbacks from c.
  function Replay(c: Counters, events: seq<ScanEvent>): Counters
    decreases |events|
  {
    if |events| == 0 then c else Replay(Step(c, events[0]), events[1..])
  }

  // k whitespace callbacks in a row.
  function Spaces(k: nat): (r: seq<ScanEvent>)
    ensures |r| == k && forall i :: 0 <= i < k ==> r[i] == Whitespace
  {
    if k == 0 then [] else [Whitespace] + Spaces(k - 1)
  }

  // The counters never decrease; in particular the width is never negative.
  lemma {:induction false} ReplayMonotone(c: Counters, events: seq<ScanEvent>)
    ensures Replay(c, events).whites >= c.whites
    ensures Replay(c, events).tokens >= c.tokens
    decreases |events|
  {
    if |events| > 0 {
      ReplayMonotone(Step(c, events[0]), events[1..]);
    }
  }

  // Whitespace seen once two or more advances have happened is not counted.
  lemma {:induction false} LaterWhitespaceIgnored(c: Counters, events: seq<ScanEvent>)
    requires c.tokens >= 2
    ensures Replay(c, events).whites == c.whites
    decreases |events|
  {
    if |events| > 0 {
      LaterWhitespaceIgnored(Step(c, events[0]), events[1..]);
    }
  }

  lemma {:induction false} SpacesCounted(c: Counters, k: nat)
    requires c.tokens == 1
    ensures Replay(c, Spaces(k)) == Counters(1, c.whites + k)
    decreases k
  {
    if k > 0 {
      assert Spaces(k)[1..] == Spaces(k - 1);
      SpacesCounted(Step(c, Whitespace), k - 1);
    }
  }

  // For a line read as: the first advance, k leading whitespace bytes, the
  // second advance, then anything, the helper ends with whites == k, the
  // line's indentation width, whatever whitespace comes later in the line.
  lemma LeadingWidth(k: nat, rest: seq<ScanEvent>)
    ensures Replay(Counters(0, 0), [Advance] + Spaces(k) + [Advance] + rest).whites == k
  {
    var c1 := Counters(1, 0);
    var evs := [Advance] + Spaces(k) + [Advance] + rest;
    ReplayConcat(Counters(0, 0), [Advance], Spaces(k) + [Advance] + rest);
    assert evs == [Advance] + (Spaces(k) + [Advance] + rest);
    ReplayConcat(c1, Spaces(k), [Advance] + rest);
    assert Spaces(k) + [Advance] + rest == Spaces(k) + ([Advance] + rest);
    SpacesCounted(c1, k);
    LaterWhitespaceIgnored(Counters(2, k), rest);
  }

  lemma {:induction false} ReplayConcat(c: Counters, a: seq<ScanEvent>, b: seq<ScanEvent>)
    ensures Replay(c, a + b) == Replay(Replay(c, a), b)
    decreases |a|
  {
    if |a| > 0 {
      assert (a + b)[1..] == a[1..] + b;
      ReplayConcat(Step(c, a[0]), a[1..], b);
    } else {
      assert a + b == b;
    }
  }

  // The helper object itself: counters the callbacks update in place.
  class IndentHelper {
    var tokens: int
    var whites: int

    function Counts(): Counters
      reads this
    {
      Counters(tokens, whites)
    }

    // #[derive(Default)]: both counters start at zero.
    constructor ()
      ensures Counts() == Counters(0, 0)
    {
      tokens, whites := 0, 0;
    }

    method OnAdvance()
      modifies this
      ensures Counts() == Step(old(Counts()), Advance)
    {
      tokens := tokens + 1;
    }

    method OnWhitespace()
      modifies this
      ensures Counts() == Step(old(Counts()), Whitespace)
    {
      if tokens == 1 {
        whites := whites + 1;
      }
    }
  }
}
