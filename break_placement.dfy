/**
 * Break placement of the newer manual-entry command (`setup_minimum_breaks`):
 * a flat list of work boundaries `start, end, start, end, ...` is walked pair
 * by pair, and a pair that owes a statutory break has that break spliced in,
 * centred in the pair.
 */
module BreakPlacement {
  import opened Clock
  import opened BreakRule

  /** The boundaries one `(start, end)` pair turns into. */
  function PairWithBreak(start: Time, end: Time): (p: seq<Time>)
    ensures |p| == 2 || |p| == 4
    ensures p[0] == start && p[|p| - 1] == end
    ensures |p| == 2 ==> p == [start, end]
  {
    var duration := end as int - start as int;
    var breakDuration := MinimumBreakFor(duration);
    if WholeMinutes(breakDuration) > 0 then
      var breakStart := SubFromTime(AddToTime(start, Half(duration)), Half(breakDuration));
      [start, breakStart, AddToTime(breakStart, breakDuration), end]
    else
      [start, end]
  }

  /** The whole list with every owed break spliced in, pair after pair. */
  function Spliced(input: seq<Time>): (s: seq<Time>)
    requires |input| % 2 == 0
    ensures |input| <= |s|
    ensures s == [] <==> input == []
    decreases |input|
  {
    if input == [] then []
    else Spliced(input[..|input| - 2]) + PairWithBreak(input[|input| - 2], input[|input| - 1])
  }

  /** How many pairs of the list are longer than six hours. */
  function BreaksOwed(input: seq<Time>): (n: nat)
    requires |input| % 2 == 0
    ensures 2 * n <= |input|
    decreases |input|
  {
    if input == [] then 0
    else BreaksOwed(input[..|input| - 2]) + (if input[|input| - 1] - input[|input| - 2] > 6 * HOUR then 1 else 0)
  }

  /**
   * `setup_minimum_breaks`: builds the output by appending, for each
   * consecutive pair, either the pair or the pair with its break inside.
   */
  method SetupMinimumBreaks(input: seq<Time>) returns (out: seq<Time>)
    requires |input| % 2 == 0
    ensures out == Spliced(input)
    ensures |out| == |input| + 2 * BreaksOwed(input)
    ensures |input| > 0 ==> out[0] == input[0] && out[|out| - 1] == input[|input| - 1]
  {
    out := [];
    var pairs := |input| / 2;
    for p := 0 to pairs
      invariant out == Spliced(input[..2 * p])
    {
      SplicedStep(input, p);
      out := AppendPair(out, input[2 * p], input[2 * p + 1]);
    }
    assert input[..2 * pairs] == input;
    SplicedLength(input);
    if input != [] { SplicedEnds(input); }
  }

  /** The loop body of `setup_minimum_breaks`: appends one pair, with its break centred inside when one is owed. */
  method AppendPair(out: seq<Time>, start: Time, end: Time) returns (out': seq<Time>)
    ensures out' == out + PairWithBreak(start, end)
  {
    var duration := end as int - start as int;
    var breakDuration := MinimumBreakFor(duration);
    if WholeMinutes(breakDuration) > 0 {
      var breakStart := SubFromTime(AddToTime(start, Half(duration)), Half(breakDuration));
      var breakEnd := AddToTime(breakStart, breakDuration);
      BreakPiece(start, end);
      out' := out + [start, breakStart, breakEnd, end];
    } else {
      PlainPiece(start, end);
      out' := out + [start, end];
    }
  }

  /** Extending the processed prefix by pair `p` appends that pair's boundaries. */
  lemma SplicedStep(input: seq<Time>, p: nat)
    requires |input| % 2 == 0 && 2 * p + 2 <= |input|
    ensures Spliced(input[..2 * (p + 1)]) == Spliced(input[..2 * p]) + PairWithBreak(input[2 * p], input[2 * p + 1])
  {
    assert input[..2 * (p + 1)][..2 * p] == input[..2 * p];
  }

  /** A pair owing a break gains the break's two boundaries, computed as the loop of `SetupMinimumBreaks` does. */
  lemma BreakPiece(start: Time, end: Time)
    requires WholeMinutes(MinimumBreakFor(end as int - start as int)) > 0
    ensures var d := end as int - start as int;
      var b := MinimumBreakFor(d);
      var breakStart := SubFromTime(AddToTime(start, Half(d)), Half(b));
      PairWithBreak(start, end) == [start, breakStart, AddToTime(breakStart, b), end]
  {
  }

  /** A pair owing no break is kept as it is. */
  lemma PlainPiece(start: Time, end: Time)
    requires WholeMinutes(MinimumBreakFor(end as int - start as int)) <= 0
    ensures PairWithBreak(start, end) == [start, end]
  {
  }

  /** A pair of at most six hours is left alone; a longer one gains exactly two boundaries. */
  lemma PairShape(start: Time, end: Time)
    ensures end - start <= 6 * HOUR ==> PairWithBreak(start, end) == [start, end]
    ensures end - start > 6 * HOUR ==> |PairWithBreak(start, end)| == 4
    ensures PairWithBreak(start, end)[0] == start
    ensures PairWithBreak(start, end)[|PairWithBreak(start, end)| - 1] == end
  {
    BreakGuards(end - start);
  }

  /**
   * An inserted break starts at `start + d/2 - b/2`, lasts exactly the
   * statutory `b`, lies strictly inside the pair, and never wraps around
   * midnight; for whole-minute boundaries the margins before and after it are equal.
   */
  lemma CentredBreak(start: Time, end: Time)
    requires end - start > 6 * HOUR
    ensures var p := PairWithBreak(start, end);
      var d := end as int - start as int;
      var b := MinimumBreakFor(d);
      |p| == 4 &&
      p[1] == start + Half(d) - Half(b) &&
      p[2] - p[1] == b &&
      start < p[1] < p[2] < end &&
      (start % MINUTE == 0 && end % MINUTE == 0 ==> p[1] - start == end - p[2])
  {
    var d := end as int - start as int;
    var b := MinimumBreakFor(d);
    var hd, hb := Half(d), Half(b);
    BreakFitsInShift(d);
    CentringBounds(d, b, hd, hb);
    assert WholeMinutes(b) > 0 by { BreakGuards(d); }
    BreakPiece(start, end);
    assert AddToTime(start, hd) == start + hd;
    assert SubFromTime(start + hd, hb) == start + hd - hb;
    assert AddToTime(start + hd - hb, b) == start + hd - hb + b;
    if start % MINUTE == 0 && end % MINUTE == 0 {
      WholeMinutesApart(end as int, start as int);
      EqualMargins(d);
    }
  }

  /** For a whole-minute shift the margins around the centred break are equal. */
  lemma EqualMargins(d: int)
    requires d > 6 * HOUR && d % MINUTE == 0
    ensures var b := MinimumBreakFor(d);
      Half(d) - Half(b) == d - (Half(d) - Half(b) + b)
  {
    var b := MinimumBreakFor(d);
    WholeMinuteBreak(d);
    HalfOfWholeMinutes(d);
    HalfOfWholeMinutes(b);
  }

  /** The centring arithmetic alone, with both halves truncated. */
  lemma CentringBounds(d: int, b: int, hd: int, hb: int)
    requires 0 <= b && b + 5 * HOUR < d
    requires 2 * hd <= d <= 2 * hd + 1 && 2 * hb <= b <= 2 * hb + 1
    ensures 0 < hd - hb && hd - hb + b < d
  {
  }

  /** The output is the input lengthened by two boundaries per owed break. */
  lemma {:induction false} SplicedLength(input: seq<Time>)
    requires |input| % 2 == 0
    ensures |Spliced(input)| == |input| + 2 * BreaksOwed(input)
    decreases |input|
  {
    if input != [] {
      SplicedLength(input[..|input| - 2]);
      PairShape(input[|input| - 2], input[|input| - 1]);
    }
  }

  /** The output is again a list of pairs, empty exactly when the input is. */
  lemma SplicedPairs(input: seq<Time>)
    requires |input| % 2 == 0
    ensures |Spliced(input)| % 2 == 0
    ensures |Spliced(input)| == 0 <==> |input| == 0
  {
    SplicedLength(input);
    EvenLength(|Spliced(input)|, |input| / 2 + BreaksOwed(input));
  }

  lemma EvenLength(n: int, k: int)
    requires n == 2 * k
    ensures n % 2 == 0
  {
  }

  /** The first and last boundaries are never moved. */
  lemma {:induction false} SplicedEnds(input: seq<Time>)
    requires |input| % 2 == 0 && |input| > 0
    ensures |Spliced(input)| >= |input|
    ensures Spliced(input)[0] == input[0]
    ensures Spliced(input)[|Spliced(input)| - 1] == input[|input| - 1]
    decreases |input|
  {
    SplicedLength(input);
    var front := input[..|input| - 2];
    PairShape(input[|input| - 2], input[|input| - 1]);
    if front != [] {
      SplicedEnds(front);
    }
  }

  /** When no pair exceeds six hours the list comes back unchanged. */
  lemma {:induction false} NothingOwed(input: seq<Time>)
    requires |input| % 2 == 0
    requires BreaksOwed(input) == 0
    ensures Spliced(input) == input
    decreases |input|
  {
    if input != [] {
      var front := input[..|input| - 2];
      var start, end := input[|input| - 2], input[|input| - 1];
      assert BreaksOwed(front) == 0 && end - start <= 6 * HOUR;
      NothingOwed(front);
      PairShape(start, end);
      assert Spliced(input) == Spliced(front) + PairWithBreak(start, end);
      assert input == front + [start, end];
    }
  }

  /** 08:00-17:00 owes 30 minutes, placed 12:15-12:45. */
  lemma EightToFive()
    ensures PairWithBreak(FromHm(8, 0), FromHm(17, 0)) == [FromHm(8, 0), FromHm(12, 15), FromHm(12, 45), FromHm(17, 0)]
  {
    CentredBreak(FromHm(8, 0), FromHm(17, 0));
    assert MinimumBreakFor(9 * HOUR) == 30 * MINUTE;
  }
}
