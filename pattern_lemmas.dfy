/** Properties of the reference pin sequences: where each element comes
    from, how long each sequence is, where the stepping loops stop, and that
    every pin index lies on the circle. */
module PatternLemmas {
  import opened PatternSpec
  import opened ModArith
  import opened SeqUtil

  // ---------------------------------------------------------------------
  // Stepping generators
  // ---------------------------------------------------------------------

  /** The jumps of the first k iterations, added up without reduction. */
  function JumpSum(s: Schedule, k: nat): int {
    if k == 0 then 0 else JumpSum(s, k - 1) + JumpAt(s, k - 1)
  }

  /** The walk is the running jump total reduced modulo n. */
  lemma {:induction false} WalkIsJumpSum(n: int, s: Schedule, k: nat)
    requires n > 0
    ensures Walk(n, s, k) == JumpSum(s, k) % n
  {
    if k > 0 {
      var total, jump := JumpSum(s, k - 1), JumpAt(s, k - 1);
      WalkIsJumpSum(n, s, k - 1);
      ModAddLeft(total, jump, n);
      var w := Walk(n, s, k - 1);
      assert w == total % n;
      assert Walk(n, s, k) == (w + jump) % n;
    }
  }

  /** One iteration of a stepping loop whose running pin is the walk. */
  lemma {:induction false} TraceFromStep(n: int, s: Schedule, guard: int, cap: nat, i: nat)
    requires n > 0 && i < cap
    ensures var next := Walk(n, s, i + 1);
      TraceFrom(n, s, guard, cap, i, Walk(n, s, i))
        == if next == 0 && i > guard then [next]
           else [next] + TraceFrom(n, s, guard, cap, i + 1, next)
  {
  }

  /** One pass of a stepping loop: with `done` the pins appended so far and
      `prev` the running pin, appending the next pin leaves `done` followed
      by the remaining tail unchanged, or completes it when the loop breaks. */
  lemma {:induction false} TraceLoopStep(n: int, s: Schedule, guard: int, cap: nat, i: nat,
                                         prev: int, done: seq<int>, next: int)
    requires n > 0 && i < cap && next == (prev + JumpAt(s, i)) % n
    ensures if next == 0 && i > guard then done + [next] == done + TraceFrom(n, s, guard, cap, i, prev)
      else (done + [next]) + TraceFrom(n, s, guard, cap, i + 1, next) == done + TraceFrom(n, s, guard, cap, i, prev)
  {
    if !(next == 0 && i > guard) {
      AppendAssociates(done, [next], TraceFrom(n, s, guard, cap, i + 1, next));
    }
  }

  /** Pin j of the tail appended from iteration i on is the walk after
      i + 1 + j steps; pins before the last are not an accepted return. */
  lemma {:induction false} TraceFromAt(n: int, s: Schedule, guard: int, cap: nat, i: nat, j: nat)
    requires n > 0 && i <= cap
    requires j < |TraceFrom(n, s, guard, cap, i, Walk(n, s, i))|
    ensures TraceFrom(n, s, guard, cap, i, Walk(n, s, i))[j] == Walk(n, s, i + 1 + j)
    ensures (j < |TraceFrom(n, s, guard, cap, i, Walk(n, s, i))| - 1 && i + j > guard
             ==> Walk(n, s, i + 1 + j) != 0)
    decreases j
  {
    TraceFromStep(n, s, guard, cap, i);
    if j > 0 {
      TraceFromAt(n, s, guard, cap, i + 1, j - 1);
    }
  }

  /** The tail appended from iteration i on is cut off by the cap, or else
      ends with pin 0 at an iteration above the guard. */
  lemma {:induction false} TraceFromLength(n: int, s: Schedule, guard: int, cap: nat, i: nat)
    requires n > 0 && i <= cap
    ensures var t := TraceFrom(n, s, guard, cap, i, Walk(n, s, i));
      && |t| <= cap - i
      && (|t| < cap - i ==> |t| >= 1 && t[|t| - 1] == 0 && i + |t| - 1 > guard)
    decreases cap - i
  {
    if i < cap {
      TraceFromStep(n, s, guard, cap, i);
      var next := Walk(n, s, i + 1);
      if !(next == 0 && i > guard) {
        TraceFromLength(n, s, guard, cap, i + 1);
        var rest := TraceFrom(n, s, guard, cap, i + 1, next);
        var t := TraceFrom(n, s, guard, cap, i, Walk(n, s, i));
        assert t == [next] + rest;
        if |rest| > 0 {
          assert t[|t| - 1] == rest[|rest| - 1];
        }
      }
    }
  }

  /** A stepping sequence starts at pin 0, has at most cap + 1 pins, follows
      the walk pin by pin, stays on the circle, and, unless the cap cut it
      off, ends on the first return to pin 0 at an iteration above the
      guard. */
  lemma {:induction false} StepTraceShape(n: int, s: Schedule, guard: int, cap: nat)
    requires n > 0
    ensures var r := StepTrace(n, s, guard, cap);
      && 1 <= |r| <= cap + 1
      && r[0] == 0
      && (forall k :: 0 <= k < |r| ==> r[k] == Walk(n, s, k))
      && (forall k :: 0 <= k < |r| ==> 0 <= r[k] < n)
      && (|r| <= cap ==> r[|r| - 1] == 0 && |r| - 2 > guard)
      && (forall k :: 1 <= k < |r| - 1 && k - 1 > guard ==> r[k] != 0)
      && (forall k :: 1 <= k <= cap && k - 1 > guard && Walk(n, s, k) == 0 ==> |r| <= k + 1)
  {
    TraceFromLength(n, s, guard, cap, 0);
    var t := TraceFrom(n, s, guard, cap, 0, 0);
    var r := StepTrace(n, s, guard, cap);
    assert r == [0] + t;
    forall k | 1 <= k < |r|
      ensures r[k] == Walk(n, s, k)
      ensures k < |r| - 1 && k - 1 > guard ==> r[k] != 0
    {
      TraceFromAt(n, s, guard, cap, 0, k - 1);
      assert r[k] == t[k - 1];
    }
  }

  /** If the walk is back on pin 0 after k steps, with k within the cap and
      past the guard, the sequence has stopped there or earlier, on pin 0. */
  lemma {:induction false} FirstReturnStops(n: int, s: Schedule, guard: int, cap: nat, k: nat)
    requires n > 0 && 1 <= k <= cap && k - 1 > guard && Walk(n, s, k) == 0
    ensures var r := StepTrace(n, s, guard, cap);
      |r| <= k + 1 && r[|r| - 1] == 0
  {
    StepTraceShape(n, s, guard, cap);
    var r := StepTrace(n, s, guard, cap);
    assert r[|r| - 1] == Walk(n, s, |r| - 1);
  }

  /** Star/skip and sierpinski: element k is k * skip mod n. */
  lemma {:induction false} JumpSumConstant(skip: int, k: nat)
    ensures JumpSum(Constant(skip), k) == k * skip
  {
    if k > 0 {
      JumpSumConstant(skip, k - 1);
      assert (k - 1) * skip + skip == k * skip;
    }
  }

  lemma {:induction false} ConstantWalk(n: int, skip: int, k: nat)
    requires n > 0
    ensures Walk(n, Constant(skip), k) == (k * skip) % n
  {
    WalkIsJumpSum(n, Constant(skip), k);
    JumpSumConstant(skip, k);
  }

  /** Double bounce family: after k steps, ceil(k/2) even jumps and
      floor(k/2) odd jumps have been made. */
  lemma {:induction false} JumpSumAlternate(a: int, b: int, k: nat)
    ensures JumpSum(Alternate(a, b), k) == ((k + 1) / 2) * a + (k / 2) * b
  {
    if k > 0 {
      JumpSumAlternate(a, b, k - 1);
      var m := (k - 1) / 2;
      if (k - 1) % 2 == 0 {
        assert k / 2 == m && (k + 1) / 2 == m + 1;
        assert m * a + m * b + a == (m + 1) * a + m * b;
      } else {
        assert k / 2 == m + 1 && (k + 1) / 2 == m + 1;
        assert (m + 1) * a + m * b + b == (m + 1) * a + (m + 1) * b;
      }
    }
  }

  lemma {:induction false} AlternateWalk(n: int, a: int, b: int, k: nat)
    requires n > 0
    ensures Walk(n, Alternate(a, b), k) == (((k + 1) / 2) * a + (k / 2) * b) % n
  {
    WalkIsJumpSum(n, Alternate(a, b), k);
    JumpSumAlternate(a, b, k);
  }

  /** Triple star: every full cycle of three jumps adds 2 * (first + second). */
  lemma {:induction false} JumpSumCycle3(a: int, b: int, k: nat)
    ensures JumpSum(Cycle3(a, b), k) == (k / 3) * (2 * a + 2 * b) + [0, a, a + b][k % 3]
  {
    if k > 0 {
      JumpSumCycle3(a, b, k - 1);
      var m := (k - 1) / 3;
      if (k - 1) % 3 == 2 {
        assert k / 3 == m + 1 && k % 3 == 0;
        assert m * (2 * a + 2 * b) + (a + b) + (a + b) == (m + 1) * (2 * a + 2 * b);
      } else {
        assert k / 3 == m;
      }
    }
  }

  lemma {:induction false} Cycle3Walk(n: int, a: int, b: int, k: nat)
    requires n > 0
    ensures Walk(n, Cycle3(a, b), k) == ((k / 3) * (2 * a + 2 * b) + [0, a, a + b][k % 3]) % n
  {
    WalkIsJumpSum(n, Cycle3(a, b), k);
    JumpSumCycle3(a, b, k);
  }

  /** 0 + 1 + ... + (k - 1). */
  function Triangle(k: nat): nat {
    if k == 0 then 0 else Triangle(k - 1) + (k - 1)
  }

  lemma {:induction false} TriangleTwice(k: nat)
    ensures 2 * Triangle(k) == k * (k - 1)
  {
    if k > 0 {
      TriangleTwice(k - 1);
      assert (k - 1) * (k - 2) + 2 * (k - 1) == k * (k - 1);
    }
  }

  /** Progressive spiral: the i-th jump is start + i * increase. */
  lemma {:induction false} JumpSumGrowing(start: int, inc: int, k: nat)
    ensures JumpSum(Growing(start, inc), k) == k * start + inc * Triangle(k)
  {
    if k > 0 {
      JumpSumGrowing(start, inc, k - 1);
      assert (k - 1) * start + inc * Triangle(k - 1) + (start + (k - 1) * inc)
          == k * start + inc * (Triangle(k - 1) + (k - 1));
    }
  }

  /** The spiral's jump grows by the increase at every iteration. */
  lemma {:induction false} GrowingJumpNext(start: int, inc: int, i: nat)
    ensures JumpAt(Growing(start, inc), i + 1) == JumpAt(Growing(start, inc), i) + inc
  {
    assert (i + 1) * inc == i * inc + inc;
  }

  lemma {:induction false} GrowingWalk(n: int, start: int, inc: int, k: nat)
    requires n > 0
    ensures Walk(n, Growing(start, inc), k) == (k * start + inc * Triangle(k)) % n
  {
    WalkIsJumpSum(n, Growing(start, inc), k);
    JumpSumGrowing(start, inc, k);
  }

  /** Star/skip always returns to pin 0 within n steps, long before its cap
      of 2n iterations. */
  lemma {:induction false} StarSkipCloses(n: int, skip: int)
    requires n > 0
    ensures var r := StepTrace(n, Constant(skip), -1, 2 * n);
      |r| <= n + 1 && r[|r| - 1] == 0
  {
    assert Walk(n, Constant(skip), n) == 0 by {
      WalkIsJumpSum(n, Constant(skip), n);
      JumpSumConstant(skip, n);
      assert n * skip == skip * n;
      MultipleModIsZero(skip, n);
    }
    FirstReturnStops(n, Constant(skip), -1, 2 * n, n);
  }

  /** After 2n steps of one skip the walk is back on pin 0. */
  lemma {:induction false} ConstantReturnsAt(n: int, skip: int)
    requires n > 0
    ensures Walk(n, Constant(skip), 2 * n) == 0
  {
    WalkIsJumpSum(n, Constant(skip), 2 * n);
    assert JumpSum(Constant(skip), 2 * n) == (2 * skip) * n by {
      JumpSumConstant(skip, 2 * n);
      assert (2 * n) * skip == (2 * skip) * n;
    }
    MultipleModIsZero(2 * skip, n);
  }

  /** Sierpinski style (one skip, returns ignored at iterations 0 and 1)
      always ends on pin 0, within its cap of 2n iterations. */
  lemma {:induction false} SierpinskiCloses(n: int, divisor: int)
    requires n > 0
    ensures var r := StepTrace(n, Constant(divisor), 1, 2 * n);
      r[|r| - 1] == 0 && |r| <= 2 * n + 1
  {
    StepTraceShape(n, Constant(divisor), 1, 2 * n);
    if n >= 2 {
      ConstantReturnsAt(n, divisor);
      FirstReturnStops(n, Constant(divisor), 1, 2 * n, 2 * n);
    }
  }

  /** Every two steps of the alternating schedule add a + b. */
  lemma {:induction false} AlternatePeriods(a: int, b: int, m: nat)
    ensures JumpSum(Alternate(a, b), 2 * m) == (a + b) * m
  {
    JumpSumAlternate(a, b, 2 * m);
    assert (2 * m + 1) / 2 == m && (2 * m) / 2 == m;
    assert m * a + m * b == (a + b) * m;
  }

  /** After 2n steps of two alternating jumps the walk is back on pin 0:
      n jumps of each kind. */
  lemma {:induction false} AlternateReturnsAt(n: int, a: int, b: int)
    requires n > 0
    ensures Walk(n, Alternate(a, b), 2 * n) == 0
  {
    WalkIsJumpSum(n, Alternate(a, b), 2 * n);
    AlternatePeriods(a, b, n);
    MultipleModIsZero(a + b, n);
  }

  /** Double bounce, inward/outward and half & quarter always end on pin 0,
      within their cap of 2n iterations. */
  lemma {:induction false} AlternateCloses(n: int, a: int, b: int)
    requires n > 0
    ensures var r := StepTrace(n, Alternate(a, b), 1, 2 * n);
      r[|r| - 1] == 0 && |r| <= 2 * n + 1
  {
    StepTraceShape(n, Alternate(a, b), 1, 2 * n);
    if n >= 2 {
      AlternateReturnsAt(n, a, b);
      FirstReturnStops(n, Alternate(a, b), 1, 2 * n, 2 * n);
    }
  }

  /** Every three steps of the three-cycle schedule add 2a + 2b. */
  lemma {:induction false} Cycle3Periods(a: int, b: int, m: nat)
    ensures JumpSum(Cycle3(a, b), 3 * m) == (2 * a + 2 * b) * m
  {
    JumpSumCycle3(a, b, 3 * m);
    assert (3 * m) / 3 == m && (3 * m) % 3 == 0;
    assert m * (2 * a + 2 * b) + 0 == (2 * a + 2 * b) * m;
  }

  lemma {:induction false} Cycle3ReturnsAt(n: int, a: int, b: int)
    requires n > 0
    ensures Walk(n, Cycle3(a, b), 3 * n) == 0
  {
    WalkIsJumpSum(n, Cycle3(a, b), 3 * n);
    Cycle3Periods(a, b, n);
    MultipleModIsZero(2 * a + 2 * b, n);
  }

  /** Triple star always ends on pin 0, within its cap of 3n iterations. */
  lemma {:induction false} Cycle3Closes(n: int, a: int, b: int)
    requires n > 0
    ensures var r := StepTrace(n, Cycle3(a, b), 2, 3 * n);
      r[|r| - 1] == 0 && |r| <= 3 * n + 1
  {
    StepTraceShape(n, Cycle3(a, b), 2, 3 * n);
    if n >= 2 {
      Cycle3ReturnsAt(n, a, b);
      FirstReturnStops(n, Cycle3(a, b), 2, 3 * n, 3 * n);
    }
  }

  lemma {:induction false} GrowingSumIsMultiple(n: int, start: int, inc: int)
    requires n > 0
    ensures 2 * n * start + inc * Triangle(2 * n) == (2 * start + inc * (2 * n - 1)) * n
  {
    var m := 2 * n - 1;
    var t := Triangle(2 * n);
    TriangleTwice(2 * n);
    assert 2 * t == (2 * n) * m;
    assert (2 * n) * m == 2 * (n * m);
    assert t == n * m;
    assert inc * (n * m) == (inc * m) * n;
    assert 2 * n * start == (2 * start) * n;
    assert (2 * start) * n + (inc * m) * n == (2 * start + inc * m) * n;
  }

  /** After 2n steps the progressive spiral has jumped a multiple of n. */
  lemma {:induction false} GrowingReturnsAt(n: int, start: int, inc: int)
    requires n > 0
    ensures Walk(n, Growing(start, inc), 2 * n) == 0
  {
    var k := 2 * n;
    var q := 2 * start + inc * (2 * n - 1);
    GrowingWalk(n, start, inc, k);
    GrowingSumIsMultiple(n, start, inc);
    var x := k * start + inc * Triangle(k);
    assert x == q * n;
    MultipleModIsZero(q, n);
    assert Walk(n, Growing(start, inc), k) == x % n;
  }

  /** Progressive spiral always ends on pin 0 within its cap of 4n
      iterations, and for n >= 2 within 2n steps, half of that cap. */
  lemma {:induction false} GrowingCloses(n: int, start: int, inc: int)
    requires n > 0
    ensures var r := StepTrace(n, Growing(start, inc), n, 4 * n);
      && r[|r| - 1] == 0
      && |r| <= 4 * n + 1
      && (n >= 2 ==> |r| <= 2 * n + 1)
  {
    StepTraceShape(n, Growing(start, inc), n, 4 * n);
    if n >= 2 {
      GrowingReturnsAt(n, start, inc);
      FirstReturnStops(n, Growing(start, inc), n, 4 * n, 2 * n);
    }
  }

  // ---------------------------------------------------------------------
  // Zig-zag layer
  // ---------------------------------------------------------------------

  /** The number of zig-zag iterations before the loop breaks: the first
      return of the committed pin to 0 past half the circle. */
  function ZigzagSteps(n: int): int {
    if n >= 3 then n else 2 * n
  }

  /** The committed pin after iteration i is 0 exactly when i + 1 is n or 2n. */
  lemma {:induction false} ZigzagCommitted(n: int, i: nat)
    requires n > 0 && i < 2 * n
    ensures ((i + 1) % n == 0) == (i + 1 == n || i + 1 == 2 * n)
  {
    if i + 1 < n {
      ModUnique(i + 1, 0, i + 1, n);
    } else if i + 1 == n {
      ModUnique(i + 1, 1, 0, n);
    } else if i + 1 < 2 * n {
      ModUnique(i + 1, 1, i + 1 - n, n);
    } else {
      ModUnique(i + 1, 2, 0, n);
    }
  }

  /** One zig-zag iteration: it appends the forward pin and the committed
      pin, and breaks exactly at the last of the ZigzagSteps(n) iterations. */
  lemma {:induction false} ZigzagFromStep(n: int, offset: int, i: nat)
    requires n > 0 && i < ZigzagSteps(n)
    ensures ZigzagFrom(n, offset, i)
      == [(i + offset) % n, (i + 1) % n]
         + (if i + 1 < ZigzagSteps(n) then ZigzagFrom(n, offset, i + 1) else [])
  {
    ZigzagCommitted(n, i);
  }

  lemma {:induction false} ZigzagFromLength(n: int, offset: int, i: nat)
    requires n > 0 && i < ZigzagSteps(n)
    ensures |ZigzagFrom(n, offset, i)| == 2 * (ZigzagSteps(n) - i)
    decreases ZigzagSteps(n) - i
  {
    ZigzagFromStep(n, offset, i);
    if i + 1 < ZigzagSteps(n) {
      ZigzagFromLength(n, offset, i + 1);
    }
  }

  /** Iteration j contributes the pins at positions 2(j - i) and
      2(j - i) + 1 of the pins appended from iteration i on. */
  lemma {:induction false} ZigzagFromAt(n: int, offset: int, i: nat, j: nat)
    requires n > 0 && i <= j < ZigzagSteps(n)
    ensures var t := ZigzagFrom(n, offset, i);
      2 * (j - i) + 1 < |t| && t[2 * (j - i)] == (j + offset) % n && t[2 * (j - i) + 1] == (j + 1) % n
    decreases j - i
  {
    ZigzagFromStep(n, offset, i);
    if i < j {
      ZigzagFromAt(n, offset, i + 1, j);
    }
  }

  /** Iteration p puts the forward jump at position 2p + 1 of the trace
      and the committed pin at 2p + 2. */
  lemma {:induction false} ZigzagTracePins(n: int, offset: int, p: nat)
    requires n > 0 && p < ZigzagSteps(n)
    ensures var r := ZigzagTrace(n, offset);
      2 * p + 2 < |r| && r[2 * p + 1] == (p + offset) % n && r[2 * p + 2] == (p + 1) % n
  {
    ZigzagFromAt(n, offset, 0, p);
    assert ZigzagTrace(n, offset) == [0] + ZigzagFrom(n, offset, 0);
  }

  lemma {:induction false} ZigzagFromOnCircle(n: int, offset: int, i: nat, q: nat)
    requires n > 0 && i < ZigzagSteps(n) && q < |ZigzagFrom(n, offset, i)|
    ensures 0 <= ZigzagFrom(n, offset, i)[q] < n
    decreases ZigzagSteps(n) - i
  {
    ZigzagFromStep(n, offset, i);
    if q >= 2 {
      ZigzagFromOnCircle(n, offset, i + 1, q - 2);
    }
  }

  /** The last committed pin is 0: the loop breaks on its return to 0. */
  lemma {:induction false} ZigzagTraceCloses(n: int, offset: int)
    requires n > 0
    ensures var r := ZigzagTrace(n, offset);
      |r| == 2 * ZigzagSteps(n) + 1 && r[|r| - 1] == 0
  {
    var m := ZigzagSteps(n);
    ZigzagTracePins(n, offset, m - 1);
    ZigzagFromLength(n, offset, 0);
    assert m % n == 0 by {
      if n >= 3 {
        ModUnique(m, 1, 0, n);
      } else {
        ModUnique(m, 2, 0, n);
      }
    }
  }

  /** The zig-zag sequence: pin 0, then for each of the ZigzagSteps(n)
      iterations p before the break the forward jump (p + offset) mod n and
      the committed pin (p + 1) mod n; all on the circle, ending on pin 0. */
  lemma {:induction false} ZigzagShape(n: int, offset: int)
    requires n > 0
    ensures var r := ZigzagTrace(n, offset);
      && |r| == 2 * ZigzagSteps(n) + 1
      && r[0] == 0
      && (forall p :: 0 <= p < ZigzagSteps(n) ==> r[2 * p + 1] == (p + offset) % n)
      && (forall p :: 0 <= p < ZigzagSteps(n) ==> r[2 * p + 2] == (p + 1) % n)
      && (forall k :: 0 <= k < |r| ==> 0 <= r[k] < n)
      && r[|r| - 1] == 0
  {
    ZigzagFromLength(n, offset, 0);
    var r := ZigzagTrace(n, offset);
    var m := ZigzagSteps(n);
    forall p | 0 <= p < m
      ensures r[2 * p + 1] == (p + offset) % n && r[2 * p + 2] == (p + 1) % n
    {
      ZigzagTracePins(n, offset, p);
    }
    var t := ZigzagFrom(n, offset, 0);
    assert r == [0] + t;
    forall k | 0 < k < |r|
      ensures 0 <= r[k] < n
    {
      ZigzagFromOnCircle(n, offset, 0, k - 1);
      assert r[k] == t[k - 1];
    }
    ZigzagTraceCloses(n, offset);
  }

  // ---------------------------------------------------------------------
  // Envelope curve, flower mandala, offset cardioid
  // ---------------------------------------------------------------------

  /** One pass of a pairing loop: appending pin i and its partner. */
  lemma {:induction false} PairsLoopStep(n: int, p: Pairing, i: nat, done: seq<int>, partner: int)
    requires 0 <= i < n && partner == Partner(n, p, i)
    ensures (done + [i] + [partner]) + PairsFrom(n, p, i + 1) == done + PairsFrom(n, p, i)
  {
    assert done + [i] + [partner] == done + [i, partner];
    AppendAssociates(done, [i, partner], PairsFrom(n, p, i + 1));
  }

  lemma {:induction false} PairsFromShape(n: int, p: Pairing, i: nat)
    requires n > 0 && i <= n
    ensures var t := PairsFrom(n, p, i);
      && |t| == 2 * (n - i) + 1
      && (forall q :: 0 <= q < |t| ==> t[q] == PairPin(n, p, 2 * i + q))
    decreases n - i
  {
    if i < n {
      PairsFromShape(n, p, i + 1);
      var t := PairsFrom(n, p, i);
      var rest := PairsFrom(n, p, i + 1);
      assert t == [i, Partner(n, p, i)] + rest;
      forall q | 0 <= q < |t|
        ensures t[q] == PairPin(n, p, 2 * i + q)
      {
        if q >= 2 {
          assert t[q] == rest[q - 2];
        }
      }
    }
  }

  /** Exactly 2n+1 pins: pin i at position 2i, its partner at 2i+1, and the
      closing pin 0; all on the circle. */
  lemma {:induction false} PairTraceShape(n: int, p: Pairing)
    requires n > 0
    ensures var r := PairTrace(n, p);
      && |r| == 2 * n + 1
      && (forall k :: 0 <= k < |r| ==> r[k] == PairPin(n, p, k))
      && (forall k :: 0 <= k < |r| ==> 0 <= r[k] < n)
      && r[0] == 0 && r[2 * n] == 0
  {
    PairsFromShape(n, p, 0);
  }

  // ---------------------------------------------------------------------
  // Full coverage
  // ---------------------------------------------------------------------

  lemma {:induction false} FlattenShape(ps: seq<(int, int)>)
    ensures var f := Flatten(ps);
      && |f| == 2 * |ps|
      && (forall k :: 0 <= k < |f| ==> f[k] == if k % 2 == 0 then ps[k / 2].0 else ps[k / 2].1)
  {
    if ps != [] {
      FlattenShape(ps[1..]);
      var f := Flatten(ps);
      var rest := Flatten(ps[1..]);
      assert f == [ps[0].0, ps[0].1] + rest;
      forall k | 0 <= k < |f|
        ensures f[k] == if k % 2 == 0 then ps[k / 2].0 else ps[k / 2].1
      {
        if k >= 2 {
          assert f[k] == rest[k - 2];
          assert ps[1..][(k - 2) / 2] == ps[k / 2];
        }
      }
    }
  }

  lemma {:induction false} FlattenAppend(ps: seq<(int, int)>, p: (int, int))
    ensures Flatten(ps + [p]) == Flatten(ps) + [p.0, p.1]
  {
    if ps == [] {
      assert ps + [p] == [p];
    } else {
      assert (ps + [p])[1..] == ps[1..] + [p];
      FlattenAppend(ps[1..], p);
    }
  }

  lemma {:induction false} RowShape(n: int, i: int, first: int)
    ensures var row := Row(n, i, first);
      && |row| == (if first >= n then 0 else n - first)
      && (forall t :: 0 <= t < |row| ==> row[t] == (i, first + t))
    decreases n - first
  {
    if first < n {
      RowShape(n, i, first + 1);
      var row := Row(n, i, first);
      assert row == [(i, first)] + Row(n, i, first + 1);
      forall t | 0 <= t < |row|
        ensures row[t] == (i, first + t)
      {
        if t > 0 {
          assert row[t] == Row(n, i, first + 1)[t - 1];
        }
      }
    }
  }

  /** The pairs from row i on: row i, then the rows after it. */
  lemma {:induction false} CoverageFromStep(n: int, i: int)
    requires 0 <= i < n
    ensures CoverageFrom(n, i) == Row(n, i, i + 1) + CoverageFrom(n, i + 1)
    ensures var row := Row(n, i, i + 1);
      |row| == n - i - 1 && forall t :: 0 <= t < |row| ==> row[t] == (i, i + 1 + t)
  {
    RowShape(n, i, i + 1);
  }

  lemma {:induction false} CoverageFromLength(n: int, i: int)
    requires 0 <= i <= n
    ensures 2 * |CoverageFrom(n, i)| == (n - i) * (n - i - 1)
    decreases n - i
  {
    if i < n {
      CoverageFromStep(n, i);
      CoverageFromLength(n, i + 1);
      assert 2 * (n - i - 1) + (n - i - 1) * (n - i - 2) == (n - i) * (n - i - 1);
    }
  }

  lemma {:induction false} CoverageFromAt(n: int, i: int, t: int)
    requires 0 <= i <= n && 0 <= t < |CoverageFrom(n, i)|
    ensures i <= CoverageFrom(n, i)[t].0 < CoverageFrom(n, i)[t].1 < n
    decreases n - i
  {
    CoverageFromStep(n, i);
    var row := Row(n, i, i + 1);
    if t >= |row| {
      CoverageFromAt(n, i + 1, t - |row|);
    }
  }

  lemma {:induction false} CoverageFromOrdered(n: int, i: int, t: int, u: int)
    requires 0 <= i <= n && 0 <= t < u < |CoverageFrom(n, i)|
    ensures LexLess(CoverageFrom(n, i)[t], CoverageFrom(n, i)[u])
    decreases n - i
  {
    CoverageFromStep(n, i);
    var row := Row(n, i, i + 1);
    if u < |row| {
    } else if t < |row| {
      CoverageFromAt(n, i + 1, u - |row|);
    } else {
      CoverageFromOrdered(n, i + 1, t - |row|, u - |row|);
    }
  }

  lemma {:induction false} CoverageFromHas(n: int, i: int, a: int, b: int)
    requires 0 <= i <= a < b < n
    ensures (a, b) in CoverageFrom(n, i)
    decreases n - i
  {
    CoverageFromStep(n, i);
    var row := Row(n, i, i + 1);
    if a == i {
      assert row[b - i - 1] == (a, b);
    } else {
      CoverageFromHas(n, i + 1, a, b);
    }
  }

  /** The pairs listed from row i on: their count, their range, strictly
      increasing lexicographic order, and every pair (a, b), i <= a < b < n. */
  lemma {:induction false} CoverageFromShape(n: int, i: int)
    requires 0 <= i <= n
    ensures var c := CoverageFrom(n, i);
      && 2 * |c| == (n - i) * (n - i - 1)
      && (forall t :: 0 <= t < |c| ==> i <= c[t].0 < c[t].1 < n)
      && (forall t, u :: 0 <= t < u < |c| ==> LexLess(c[t], c[u]))
      && (forall a, b :: i <= a < b < n ==> (a, b) in c)
  {
    CoverageFromLength(n, i);
    var c := CoverageFrom(n, i);
    forall t | 0 <= t < |c|
      ensures i <= c[t].0 < c[t].1 < n
    {
      CoverageFromAt(n, i, t);
    }
    forall t, u | 0 <= t < u < |c|
      ensures LexLess(c[t], c[u])
    {
      CoverageFromOrdered(n, i, t, u);
    }
    forall a, b | i <= a < b < n
      ensures (a, b) in c
    {
      CoverageFromHas(n, i, a, b);
    }
  }

  /** itertools.combinations(range(n), 2): n(n-1)/2 pairs, each (i, j)
      with 0 <= i < j < n listed exactly once, in lexicographic order; the
      flattened sequence has n(n-1) pins, i at even and j at odd positions. */
  lemma {:induction false} FullCoverageShape(n: int)
    requires n > 0
    ensures var c := Combinations(n);
      && 2 * |c| == n * (n - 1)
      && |Flatten(c)| == n * (n - 1)
      && (forall t :: 0 <= t < |c| ==> 0 <= c[t].0 < c[t].1 < n)
      && (forall t, u :: 0 <= t < u < |c| ==> LexLess(c[t], c[u]) && c[t] != c[u])
      && (forall a, b :: 0 <= a < b < n ==> (a, b) in c)
      && (forall k :: 0 <= k < |Flatten(c)| ==>
            Flatten(c)[k] == if k % 2 == 0 then c[k / 2].0 else c[k / 2].1)
  {
    CoverageFromShape(n, 0);
    FlattenShape(Combinations(n));
  }

  // ---------------------------------------------------------------------
  // Chaos
  // ---------------------------------------------------------------------

  lemma {:induction false} PinRangeCount(n: nat, x: int)
    ensures multiset(PinRange(n))[x] == if 0 <= x < n then 1 else 0
  {
    if n > 0 {
      assert PinRange(n) == PinRange(n - 1) + [n - 1];
      PinRangeCount(n - 1, x);
    }
  }

  lemma {:induction false} TwoOccurrences(s: seq<int>, k: nat, l: nat)
    requires k < l < |s| && s[k] == s[l]
    ensures multiset(s)[s[k]] >= 2
  {
    assert s == s[..k] + [s[k]] + s[k + 1..l] + [s[l]] + s[l + 1..];
  }

  /** The first n pins of the chaos sequence are the n pins in some order,
      each exactly once; the last pin repeats the first. */
  lemma {:induction false} ChaosIsPermutation(n: nat, shuffled: seq<int>)
    requires n > 0 && IsShuffleOfPins(shuffled, n)
    ensures |shuffled| == n
    ensures var r := ChaosSequence(shuffled);
      && |r| == n + 1 && r[n] == r[0]
      && (forall k :: 0 <= k < n ==> 0 <= r[k] < n)
      && (forall k, l :: 0 <= k < l < n ==> r[k] != r[l])
      && (forall p :: 0 <= p < n ==> p in r[..n])
  {
    var r := ChaosSequence(shuffled);
    assert r[..n] == shuffled;
    forall k | 0 <= k < n
      ensures 0 <= r[k] < n
    {
      assert r[k] in multiset(shuffled);
      PinRangeCount(n, r[k]);
    }
    forall k, l | 0 <= k < l < n
      ensures r[k] != r[l]
    {
      if r[k] == r[l] {
        TwoOccurrences(shuffled, k, l);
        PinRangeCount(n, r[k]);
        assert false;
      }
    }
    forall p | 0 <= p < n
      ensures p in r[..n]
    {
      PinRangeCount(n, p);
      assert p in multiset(shuffled);
    }
  }
}
