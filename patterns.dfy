/** The thirteen pattern generators of the string-art visualiser.  Each one
    builds its pin list the way the visualiser does, appending inside a
    counted loop that may break early, and is proved to produce the
    reference sequence of PatternSpec.  NUM_PINS is the parameter n. */
module Patterns {
  import opened PatternSpec
  import PatternLemmas
  import opened ModArith
  import opened SeqUtil

  /** 1. Star/skip polygon: step by `skip`, stop on the first return to pin 0. */
  method StarSkip(n: int, skip: int) returns (sequence: seq<int>)
    requires n > 0
    ensures sequence == StepTrace(n, Constant(skip), -1, 2 * n)
  {
    ghost var full := StepTrace(n, Constant(skip), -1, 2 * n);
    sequence := [0];
    var current := 0;
    for i := 0 to 2 * n
      invariant sequence != [] && sequence[0] == 0
      invariant sequence + TraceFrom(n, Constant(skip), -1, 2 * n, i, current) == full
    {
      ghost var before, prev := sequence, current;
      current := (current + skip) % n;
      PatternLemmas.TraceLoopStep(n, Constant(skip), -1, 2 * n, i, prev, before, current);
      if current == sequence[0] {
        sequence := sequence + [current];
        break;
      }
      sequence := sequence + [current];
    }
  }

  /** 2. Envelope curve: pin i joined to pin n - 1 - i + offset. */
  method EnvelopeCurve(n: int, offset: int) returns (sequence: seq<int>)
    requires n > 0
    ensures sequence == PairTrace(n, Envelope(offset))
  {
    sequence := [];
    for i := 0 to n
      invariant sequence + PairsFrom(n, Envelope(offset), i) == PairTrace(n, Envelope(offset))
    {
      ghost var before := sequence;
      var pinA := i;
      var pinB := (n - 1 - i + offset) % n;
      sequence := sequence + [pinA];
      sequence := sequence + [pinB];
      PatternLemmas.PairsLoopStep(n, Envelope(offset), i, before, pinB);
    }
    sequence := sequence + [0];
  }

  /** 3. Zig-zag layer: jump forward by `offset` (not committed), then commit
      one pin further; the source's `i > NUM_PINS / 2` is a true division,
      written here as 2 * i > n. */
  method ZigzagLayer(n: int, offset: int) returns (sequence: seq<int>)
    requires n > 0
    ensures sequence == ZigzagTrace(n, offset)
  {
    sequence := [0];
    var current := 0;
    for i := 0 to 2 * n
      invariant current == i % n
      invariant sequence + ZigzagFrom(n, offset, i) == ZigzagTrace(n, offset)
    {
      ghost var before := sequence;
      var forward := (current + offset) % n;
      sequence := sequence + [forward];
      current := (current + 1) % n;
      sequence := sequence + [current];
      assert forward == (i + offset) % n && current == (i + 1) % n by {
        ModAddLeft(i, offset, n);
        ModAddLeft(i, 1, n);
      }
      assert sequence == before + [forward, current];
      if current == 0 && 2 * i > n {
        break;
      }
      AppendAssociates(before, [forward, current], ZigzagFrom(n, offset, i + 1));
    }
  }

  /** 4. Flower mandala: pin i joined to the opposite pin i + n / 2. */
  method FlowerMandala(n: int) returns (sequence: seq<int>)
    requires n > 0
    ensures sequence == PairTrace(n, Flower)
  {
    sequence := [];
    var half := n / 2;
    for i := 0 to n
      invariant sequence + PairsFrom(n, Flower, i) == PairTrace(n, Flower)
    {
      ghost var before := sequence;
      sequence := sequence + [i];
      sequence := sequence + [(i + half) % n];
      PatternLemmas.PairsLoopStep(n, Flower, i, before, (i + half) % n);
    }
    sequence := sequence + [0];
  }

  /** 5. Chaos: the pins 0..n-1 as random.shuffle left them (an input here),
      closed by repeating the first. */
  method ChaosRandom(n: int, shuffled: seq<int>) returns (pins: seq<int>)
    requires n > 0 && |shuffled| == n
    ensures pins == ChaosSequence(shuffled)
  {
    pins := shuffled;
    pins := pins + [pins[0]];
  }

  /** 6. Double bounce: add jumpA at even iterations and jumpB at odd ones;
      a return to pin 0 counts only after the first two iterations. */
  method DoubleBounce(n: int, jumpA: int, jumpB: int) returns (sequence: seq<int>)
    requires n > 0
    ensures sequence == StepTrace(n, Alternate(jumpA, jumpB), 1, 2 * n)
  {
    ghost var full := StepTrace(n, Alternate(jumpA, jumpB), 1, 2 * n);
    sequence := [0];
    var current := 0;
    for i := 0 to 2 * n
      invariant sequence != [] && sequence[0] == 0
      invariant sequence + TraceFrom(n, Alternate(jumpA, jumpB), 1, 2 * n, i, current) == full
    {
      ghost var before, prev := sequence, current;
      if i % 2 == 0 {
        current := (current + jumpA) % n;
      } else {
        current := (current + jumpB) % n;
      }
      sequence := sequence + [current];
      PatternLemmas.TraceLoopStep(n, Alternate(jumpA, jumpB), 1, 2 * n, i, prev, before, current);
      if current == sequence[0] && i > 1 {
        break;
      }
    }
  }

  /** 7. Sierpinski style: step by `divisor`; a return to pin 0 counts only
      after the first two iterations. */
  method SierpinskiStyle(n: int, divisor: int) returns (sequence: seq<int>)
    requires n > 0
    ensures sequence == StepTrace(n, Constant(divisor), 1, 2 * n)
  {
    ghost var full := StepTrace(n, Constant(divisor), 1, 2 * n);
    sequence := [0];
    var current := 0;
    for i := 0 to 2 * n
      invariant sequence != [] && sequence[0] == 0
      invariant sequence + TraceFrom(n, Constant(divisor), 1, 2 * n, i, current) == full
    {
      ghost var before, prev := sequence, current;
      current := (current + divisor) % n;
      sequence := sequence + [current];
      PatternLemmas.TraceLoopStep(n, Constant(divisor), 1, 2 * n, i, prev, before, current);
      if current == sequence[0] && i > 1 {
        break;
      }
    }
  }

  /** 8. Offset cardioid: pin i joined to pin i * multiplier. */
  method OffsetCardioid(n: int, multiplier: int) returns (sequence: seq<int>)
    requires n > 0
    ensures sequence == PairTrace(n, Cardioid(multiplier))
  {
    sequence := [];
    for i := 0 to n
      invariant sequence + PairsFrom(n, Cardioid(multiplier), i) == PairTrace(n, Cardioid(multiplier))
    {
      ghost var before := sequence;
      sequence := sequence + [i];
      var nextPin := (i * multiplier) % n;
      sequence := sequence + [nextPin];
      PatternLemmas.PairsLoopStep(n, Cardioid(multiplier), i, before, nextPin);
    }
    sequence := sequence + [0];
  }

  /** 9. Progressive spiral: the jump grows by stepIncrease after every step;
      a return to pin 0 counts only after n + 1 iterations. */
  method ProgressiveSpiral(n: int, startJump: int, stepIncrease: int) returns (sequence: seq<int>)
    requires n > 0
    ensures sequence == StepTrace(n, Growing(startJump, stepIncrease), n, 4 * n)
  {
    ghost var full := StepTrace(n, Growing(startJump, stepIncrease), n, 4 * n);
    sequence := [0];
    var current := 0;
    var jump := startJump;
    for i := 0 to 4 * n
      invariant sequence != [] && sequence[0] == 0
      invariant jump == JumpAt(Growing(startJump, stepIncrease), i)
      invariant sequence + TraceFrom(n, Growing(startJump, stepIncrease), n, 4 * n, i, current) == full
    {
      ghost var before, prev := sequence, current;
      current := (current + jump) % n;
      sequence := sequence + [current];
      PatternLemmas.TraceLoopStep(n, Growing(startJump, stepIncrease), n, 4 * n, i, prev, before, current);
      PatternLemmas.GrowingJumpNext(startJump, stepIncrease, i);
      jump := jump + stepIncrease;
      if current == sequence[0] && i > n {
        break;
      }
    }
  }

  /** 10. Inward/outward: add inStep at even iterations and outStep at odd ones. */
  method InwardOutward(n: int, inStep: int, outStep: int) returns (sequence: seq<int>)
    requires n > 0
    ensures sequence == StepTrace(n, Alternate(inStep, outStep), 1, 2 * n)
  {
    ghost var full := StepTrace(n, Alternate(inStep, outStep), 1, 2 * n);
    sequence := [0];
    var current := 0;
    for i := 0 to 2 * n
      invariant sequence != [] && sequence[0] == 0
      invariant sequence + TraceFrom(n, Alternate(inStep, outStep), 1, 2 * n, i, current) == full
    {
      ghost var before, prev := sequence, current;
      if i % 2 == 0 {
        current := (current + inStep) % n;
      } else {
        current := (current + outStep) % n;
      }
      sequence := sequence + [current];
      PatternLemmas.TraceLoopStep(n, Alternate(inStep, outStep), 1, 2 * n, i, prev, before, current);
      if current == sequence[0] && i > 1 {
        break;
      }
    }
  }

  /** 11. Triple star: cycle through the jumps skip1, skip2, skip1 + skip2;
      a return to pin 0 counts only after the first three iterations. */
  method TripleStar(n: int, skip1: int, skip2: int) returns (sequence: seq<int>)
    requires n > 0
    ensures sequence == StepTrace(n, Cycle3(skip1, skip2), 2, 3 * n)
  {
    ghost var full := StepTrace(n, Cycle3(skip1, skip2), 2, 3 * n);
    sequence := [0];
    var current := 0;
    var skips := [skip1, skip2, skip1 + skip2];
    for i := 0 to 3 * n
      invariant sequence != [] && sequence[0] == 0
      invariant sequence + TraceFrom(n, Cycle3(skip1, skip2), 2, 3 * n, i, current) == full
    {
      ghost var before, prev := sequence, current;
      var jump := skips[i % 3];
      current := (current + jump) % n;
      sequence := sequence + [current];
      PatternLemmas.TraceLoopStep(n, Cycle3(skip1, skip2), 2, 3 * n, i, prev, before, current);
      if current == sequence[0] && i > 2 {
        break;
      }
    }
  }

  /** 12. Half & quarter: alternate the jumps skipHalf and skipQuarter. */
  method HalfAndQuarter(n: int, skipHalf: int, skipQuarter: int) returns (sequence: seq<int>)
    requires n > 0
    ensures sequence == StepTrace(n, Alternate(skipHalf, skipQuarter), 1, 2 * n)
  {
    ghost var full := StepTrace(n, Alternate(skipHalf, skipQuarter), 1, 2 * n);
    sequence := [0];
    var current := 0;
    var skips := [skipHalf, skipQuarter];
    for i := 0 to 2 * n
      invariant sequence != [] && sequence[0] == 0
      invariant sequence + TraceFrom(n, Alternate(skipHalf, skipQuarter), 1, 2 * n, i, current) == full
    {
      ghost var before, prev := sequence, current;
      var jump := skips[i % 2];
      current := (current + jump) % n;
      sequence := sequence + [current];
      PatternLemmas.TraceLoopStep(n, Alternate(skipHalf, skipQuarter), 1, 2 * n, i, prev, before, current);
      if current == sequence[0] && i > 1 {
        break;
      }
    }
  }

  /** 13. Full coverage: both pins of every 2-combination of the pins. */
  method FullCoverage(n: int) returns (sequence: seq<int>)
    requires n > 0
    ensures sequence == Flatten(Combinations(n))
  {
    sequence := [];
    var pairs := Combinations(n);
    for t := 0 to |pairs|
      invariant sequence == Flatten(pairs[..t])
    {
      var (i, j) := pairs[t];
      assert pairs[..t + 1] == pairs[..t] + [(i, j)];
      PatternLemmas.FlattenAppend(pairs[..t], (i, j));
      sequence := sequence + [i];
      sequence := sequence + [j];
    }
    assert pairs[..|pairs|] == pairs;
  }
}
