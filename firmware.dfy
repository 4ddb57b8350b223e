/** The plotter firmware: a stepper-driven ring of nails and a servo arm that
    wraps the string around one nail at a time.  The hardware calls (coil
    writes, delays, servo writes, the serial console) are abstracted to the
    state the firmware keeps: the ring's step position, the index into the
    half-step coil table, and the servo angle. */
module Firmware {
  import PatternSpec
  import opened ModArith
  import opened SeqUtil

  /* Ring and stepper constants. */
  const NumNails: int := 32
  const StepsPerRotation: int := 4096 * 4          // 4096 half-steps (2048 full steps) through a 4:1 reduction
  const StepsPerNail: int := 512                    // StepsPerRotation / NumNails, see DerivedConstants

  /* Servo constants. */
  const ServoMiddleAngle: int := 90
  const ServoRotationSpan: int := 60
  const ServoInsideAngle: int := ServoMiddleAngle + ServoRotationSpan / 2
  const ServoOutsideAngle: int := ServoMiddleAngle - ServoRotationSpan / 2

  /** The values the derived constants take; the nails divide the ring evenly. */
  lemma DerivedConstants()
    ensures StepsPerRotation == 16384
    ensures StepsPerNail == StepsPerRotation / NumNails && StepsPerNail * NumNails == StepsPerRotation
    ensures ServoInsideAngle == 120 && ServoOutsideAngle == 60
  {
  }

  /** The nails the firmware draws, hard-coded. */
  const DoubleBounceStarSequence: seq<int> :=
    [0, 11, 28, 7, 24, 3, 20, 31, 16, 27, 12, 23, 8, 19, 4, 15, 0]
  const DoubleBounceStarSequenceLen: int := 17

  /** The hard-coded drawing has its declared length, names only nails of
      the ring, and starts and ends at nail 0. */
  lemma StarSequenceShape()
    ensures |DoubleBounceStarSequence| == DoubleBounceStarSequenceLen
    ensures forall k :: 0 <= k < |DoubleBounceStarSequence| ==> 0 <= DoubleBounceStarSequence[k] < NumNails
    ensures DoubleBounceStarSequence[0] == 0 && DoubleBounceStarSequence[DoubleBounceStarSequenceLen - 1] == 0
  {
  }

  /** C++'s `%` on int: the remainder is smaller than the divisor in
      magnitude and takes the sign of the dividend. */
  function CRem(a: int, b: int): (r: int)
    requires b > 0
    ensures -b < r < b
    ensures a >= 0 ==> r >= 0
    ensures a <= 0 ==> r <= 0
  {
    if a >= 0 then a % b else -((-a) % b)
  }

  /** The C++ remainder is congruent to the dividend, and agrees with the
      Euclidean one on a dividend that is not negative. */
  lemma CRemIsRemainder(a: int, b: int)
    requires b > 0
    ensures (a - CRem(a, b)) % b == 0
    ensures a >= 0 ==> CRem(a, b) == a % b
  {
    var x := if a >= 0 then a else -a;
    var q := x / b;
    assert x == q * b + x % b;
    if a >= 0 {
      assert a - CRem(a, b) == q * b;
      MultipleModIsZero(q, b);
    } else {
      assert a - CRem(a, b) == (-q) * b;
      MultipleModIsZero(-q, b);
    }
  }

  function Abs(x: int): (r: nat)
    ensures r == x || r == -x
  {
    if x < 0 then -x else x
  }

  /** The signed change in ring position of rotate_ring(steps, antiClockwise):
      no movement for a count that is not positive. */
  function Delta(steps: int, antiClockwise: bool): int {
    if steps <= 0 then 0 else if antiClockwise then steps else -steps
  }

  /** The direction of every stepper step of a rotate_ring call (true is
      anticlockwise, increasing the position). */
  function Repeat(antiClockwise: bool, count: int): (r: seq<bool>)
    ensures |r| == if count <= 0 then 0 else count
    ensures forall k :: 0 <= k < |r| ==> r[k] == antiClockwise
    decreases count
  {
    if count <= 0 then [] else Repeat(antiClockwise, count - 1) + [antiClockwise]
  }

  /** The angles written to the servo while it sweeps one degree at a time
      from `from` to `to`. */
  function Sweep(from: int, to: int): seq<int>
    decreases Abs(to - from)
  {
    if from == to then []
    else
      var next := if to > from then from + 1 else from - 1;
      [next] + Sweep(next, to)
  }

  /** A sweep moves by one degree per write towards its target, stays
      between its two ends, and finishes on the target. */
  lemma {:induction false} SweepShape(from: int, to: int)
    ensures |Sweep(from, to)| == Abs(to - from)
    ensures forall k :: 0 <= k < |Sweep(from, to)| ==>
      Sweep(from, to)[k] == if to > from then from + k + 1 else from - k - 1
    ensures from != to ==> Sweep(from, to)[|Sweep(from, to)| - 1] == to
    decreases Abs(to - from)
  {
    if from != to {
      var next := if to > from then from + 1 else from - 1;
      SweepShape(next, to);
      var rest := Sweep(next, to);
      assert Sweep(from, to) == [next] + rest;
      forall k | 1 <= k < |Sweep(from, to)|
        ensures Sweep(from, to)[k] == if to > from then from + k + 1 else from - k - 1
      {
        assert Sweep(from, to)[k] == rest[k - 1];
      }
    }
  }

  /** Every angle a sweep writes lies between its start and its target, so
      a sweep between two angles of the servo's range never leaves it. */
  lemma {:induction false} SweepStaysInRange(from: int, to: int)
    requires 0 <= from <= 180 && 0 <= to <= 180
    ensures forall k :: 0 <= k < |Sweep(from, to)| ==> 0 <= Sweep(from, to)[k] <= 180
  {
    SweepShape(from, to);
  }

  /** The change rotate_ring_to_nail makes: the way from the current
      position to the nail, folded into at most half a rotation either way. */
  function NailDelta(position: int, nail: int): int {
    var diff := nail * StepsPerNail - position;
    var folded := if diff > StepsPerRotation / 2 then diff - StepsPerRotation else diff;
    if folded < -StepsPerRotation / 2 then folded + StepsPerRotation else folded
  }

  /** Turning by NailDelta lands on the nail's step position, whatever the
      position and the nail index; for a nail of the ring that is the nail's
      own position. */
  lemma NailDeltaReaches(position: int, nail: int, after: int)
    requires after == (position + NailDelta(position, nail)) % StepsPerRotation
    ensures after == (nail * StepsPerNail) % StepsPerRotation
    ensures 0 <= nail < NumNails ==> after == nail * StepsPerNail
  {
    var target := nail * StepsPerNail;
    var d := NailDelta(position, nail);
    assert position + d == target || position + d == target - StepsPerRotation || position + d == target + StepsPerRotation;
    ModAddMultiple(target, -1, StepsPerRotation);
    ModAddMultiple(target, 1, StepsPerRotation);
    if 0 <= nail < NumNails {
      ModUnique(target, 0, target, StepsPerRotation);
    }
  }

  /** From a position on the ring towards a nail of the ring, NailDelta is at
      most half a rotation, and no turn that reaches the nail is shorter. */
  lemma NailDeltaShortest(position: int, nail: int, d: int)
    requires 0 <= position < StepsPerRotation && 0 <= nail < NumNails
    requires (position + d) % StepsPerRotation == nail * StepsPerNail
    ensures Abs(NailDelta(position, nail)) <= StepsPerRotation / 2
    ensures Abs(NailDelta(position, nail)) <= Abs(d)
  {
    var delta := NailDelta(position, nail);
    var q := (position + d) / StepsPerRotation;
    assert position + d == q * StepsPerRotation + nail * StepsPerNail;
    assert position + delta == nail * StepsPerNail || position + delta == nail * StepsPerNail - StepsPerRotation
      || position + delta == nail * StepsPerNail + StepsPerRotation;
    if q >= 1 {
      MulAtLeast(q, StepsPerRotation);
    } else if q <= -1 {
      MulSign(q, StepsPerRotation);
    }
  }

  /** The controller's state: the three globals of the firmware, and ghost
      records of what it did to the hardware. */
  class Plotter {
    var ringPosition: int          // ring position in stepper steps, 0 .. StepsPerRotation - 1
    var stepIndex: int             // row of the half-step coil table written next
    var servoAngle: int            // last angle written to the servo
    ghost var ringSteps: seq<bool> // the direction of every stepper step taken
    ghost var servoWrites: seq<int>// every angle written to the servo
    ghost var plotted: seq<int>    // the nails plot_around_nail was called for

    /** The ring position is on the ring, the coil table index advances with
        it (a rotation is a whole number of 8-step coil cycles), and the servo
        angle is in the servo's range. */
    ghost predicate Valid()
      reads this
    {
      && 0 <= ringPosition < StepsPerRotation
      && stepIndex == ringPosition % 8
      && 0 <= servoAngle <= 180
    }

    /** The power-on state. */
    constructor()
      ensures Valid()
      ensures ringPosition == 0 && stepIndex == 0 && servoAngle == 90
      ensures ringSteps == [] && servoWrites == [] && plotted == []
    {
      ringPosition, stepIndex, servoAngle := 0, 0, 90;
      ringSteps, servoWrites, plotted := [], [], [];
    }

    /** rotate_ring: `steps` half-steps anticlockwise (the position grows)
        or clockwise (it shrinks, by adding a rotation less one). */
    method RotateRing(steps: int, antiClockwise: bool)
      requires Valid()
      modifies this
      ensures Valid()
      ensures ringPosition == (old(ringPosition) + Delta(steps, antiClockwise)) % StepsPerRotation
      ensures stepIndex == (old(stepIndex) + Delta(steps, antiClockwise)) % 8
      ensures ringSteps == old(ringSteps) + Repeat(antiClockwise, steps)
      ensures servoAngle == old(servoAngle) && servoWrites == old(servoWrites) && plotted == old(plotted)
    {
      ghost var start := ringPosition;
      var i := 0;
      while i < steps
        invariant 0 <= i && (steps > 0 ==> i <= steps) && (steps <= 0 ==> i == 0)
        invariant Valid()
        invariant ringPosition == (start + Delta(i, antiClockwise)) % StepsPerRotation
        invariant ringSteps == old(ringSteps) + Repeat(antiClockwise, i)
        invariant servoAngle == old(servoAngle) && servoWrites == old(servoWrites) && plotted == old(plotted)
      {
        ghost var before, index, taken := ringPosition, stepIndex, ringSteps;
        stepIndex := CRem(stepIndex + (if antiClockwise then 1 else 7), 8);
        ringPosition := CRem(ringPosition + (if antiClockwise then 1 else StepsPerRotation - 1), StepsPerRotation);
        StepperStep(start, Delta(i, antiClockwise), antiClockwise, before, index, ringPosition, stepIndex);
        assert Delta(i + 1, antiClockwise) == Delta(i, antiClockwise) + (if antiClockwise then 1 else -1);
        ringSteps := ringSteps + [antiClockwise];
        RepeatStep(old(ringSteps), antiClockwise, i, taken, ringSteps);
        i := i + 1;
      }
      assert Delta(i, antiClockwise) == Delta(steps, antiClockwise);
      CoilFollows(start, Delta(steps, antiClockwise), ringPosition);
    }

    /** moveServo: an angle outside 0..180 is refused and nothing moves;
        otherwise the arm sweeps one degree per write to the target. */
    method MoveServo(targetAngle: int)
      requires Valid()
      modifies this
      ensures Valid()
      ensures 0 <= targetAngle <= 180 ==>
        servoAngle == targetAngle && servoWrites == old(servoWrites) + Sweep(old(servoAngle), targetAngle)
      ensures !(0 <= targetAngle <= 180) ==> servoAngle == old(servoAngle) && servoWrites == old(servoWrites)
      ensures ringPosition == old(ringPosition) && stepIndex == old(stepIndex)
      ensures ringSteps == old(ringSteps) && plotted == old(plotted)
    {
      if targetAngle < 0 || targetAngle > 180 {
        return;
      }
      ghost var start := servoAngle;
      var stepDirection := if targetAngle > servoAngle then 1 else -1;
      while servoAngle != targetAngle
        invariant stepDirection == 1 ==> start <= servoAngle <= targetAngle
        invariant stepDirection == -1 ==> targetAngle <= servoAngle <= start
        invariant old(servoWrites) + Sweep(start, targetAngle) == servoWrites + Sweep(servoAngle, targetAngle)
        invariant ringPosition == old(ringPosition) && stepIndex == old(stepIndex)
        invariant ringSteps == old(ringSteps) && plotted == old(plotted)
        decreases Abs(targetAngle - servoAngle)
      {
        ghost var before := servoWrites;
        servoAngle := servoAngle + stepDirection;
        servoWrites := servoWrites + [servoAngle];
        AppendAssociates(before, [servoAngle], Sweep(servoAngle, targetAngle));
      }
    }

    /** rotate_ring_to_nail: the shorter way round to the nail's position. */
    method RotateRingToNail(nailIdx: int)
      requires Valid()
      modifies this
      ensures Valid()
      ensures ringPosition == (nailIdx * StepsPerNail) % StepsPerRotation
      ensures 0 <= nailIdx < NumNails ==> ringPosition == nailIdx * StepsPerNail
      ensures var d := NailDelta(old(ringPosition), nailIdx); ringSteps == old(ringSteps) + Repeat(d > 0, Abs(d))
      ensures servoAngle == old(servoAngle) && servoWrites == old(servoWrites) && plotted == old(plotted)
    {
      var targetPos := nailIdx * StepsPerNail;
      var diff := targetPos - ringPosition;
      if diff > StepsPerRotation / 2 {
        diff := diff - StepsPerRotation;
      }
      if diff < -StepsPerRotation / 2 {
        diff := diff + StepsPerRotation;
      }
      assert diff == NailDelta(ringPosition, nailIdx);
      RotateRing(Abs(diff), diff > 0);
      assert Delta(Abs(diff), diff > 0) == diff;
      NailDeltaReaches(old(ringPosition), nailIdx, ringPosition);
    }

    /** plot_around_nail: to the nail, arm out, on to the next nail, arm in. */
    method PlotAroundNail(nailIdx: int)
      requires Valid()
      modifies this
      ensures Valid()
      ensures ringPosition == (CRem(nailIdx + 1, NumNails) * StepsPerNail) % StepsPerRotation
      ensures 0 <= nailIdx < NumNails ==> ringPosition == ((nailIdx + 1) % NumNails) * StepsPerNail
      ensures servoAngle == ServoInsideAngle
      ensures ringSteps == old(ringSteps) + PlotSteps(old(ringPosition), nailIdx)
      ensures servoWrites == old(servoWrites) + PlotWrites(old(servoAngle))
      ensures plotted == old(plotted) + [nailIdx]
    {
      var next := CRem(nailIdx + 1, NumNails);
      RotateRingToNail(nailIdx);
      ghost var turned := ringSteps;
      MoveServo(ServoOutsideAngle);
      ghost var swung := servoWrites;
      RotateRingToNail(next);
      ghost var second := NailDelta((nailIdx * StepsPerNail) % StepsPerRotation, next);
      AppendAssociates(old(ringSteps), turned[|old(ringSteps)|..], Repeat(second > 0, Abs(second)));
      MoveServo(ServoInsideAngle);
      AppendAssociates(old(servoWrites), swung[|old(servoWrites)|..], Sweep(ServoOutsideAngle, ServoInsideAngle));
      plotted := plotted + [nailIdx];
      if 0 <= nailIdx {
        CRemIsRemainder(nailIdx + 1, NumNails);
      }
    }

    /** The drawing loop over the first `len` nails of a drawing:
        plot_around_nail for each of them after the first, in order.  The ring
        ends one nail past the last of them, with the arm inside. */
    method DrawSequence(nails: seq<int>, len: int)
      requires Valid() && len <= |nails|
      modifies this
      ensures Valid()
      ensures plotted == old(plotted) + (if len > 1 then nails[1..len] else [])
      ensures len > 1 ==> servoAngle == ServoInsideAngle
      ensures len > 1 ==> ringPosition == (CRem(nails[len - 1] + 1, NumNails) * StepsPerNail) % StepsPerRotation
      ensures len <= 1 ==> ringPosition == old(ringPosition) && servoAngle == old(servoAngle)
    {
      var i := 1;
      while i < len
        invariant 1 <= i && (i == 1 || i <= len)
        invariant Valid()
        invariant plotted == old(plotted) + (if i > 1 then nails[1..i] else [])
        invariant i > 1 ==> servoAngle == ServoInsideAngle
        invariant i > 1 ==> ringPosition == (CRem(nails[i - 1] + 1, NumNails) * StepsPerNail) % StepsPerRotation
        invariant i == 1 ==> ringPosition == old(ringPosition) && servoAngle == old(servoAngle)
      {
        ghost var before := plotted;
        PlotAroundNail(nails[i]);
        PlottedStep(old(plotted), nails, i, before, plotted);
        i := i + 1;
      }
    }

    /** The drawing of loop(): the hard-coded sequence, which leaves the
        ring one nail past nail 0 with the arm inside. */
    method DrawStarSequence()
      requires Valid()
      modifies this
      ensures Valid()
      ensures plotted == old(plotted) + DoubleBounceStarSequence[1..]
      ensures ringPosition == StepsPerNail && servoAngle == ServoInsideAngle
    {
      DrawSequence(DoubleBounceStarSequence, DoubleBounceStarSequenceLen);
      assert DoubleBounceStarSequence[DoubleBounceStarSequenceLen - 1] == 0;
    }

    /** One pass of loop() up to its idle wait: the arm goes inside, the ring
        turns to the first nail after 0 (nail 11) for the string to be tied
        on, and then the whole star sequence is drawn. */
    method Loop()
      requires Valid()
      modifies this
      ensures Valid()
      ensures plotted == old(plotted) + DoubleBounceStarSequence[1..]
      ensures ringPosition == StepsPerNail && servoAngle == ServoInsideAngle
    {
      MoveServo(ServoInsideAngle);
      RotateRingToNail(DoubleBounceStarSequence[1]);
      assert ringPosition == 11 * StepsPerNail && servoAngle == ServoInsideAngle;
      DrawStarSequence();
    }
  }

  /** The stepper steps of plot_around_nail from a ring position. */
  function PlotSteps(position: int, nailIdx: int): seq<bool> {
    var first := NailDelta(position, nailIdx);
    var second := NailDelta((nailIdx * StepsPerNail) % StepsPerRotation, CRem(nailIdx + 1, NumNails));
    Repeat(first > 0, Abs(first)) + Repeat(second > 0, Abs(second))
  }

  /** The servo angles of plot_around_nail from a servo angle: out, then in. */
  function PlotWrites(angle: int): seq<int> {
    Sweep(angle, ServoOutsideAngle) + Sweep(ServoOutsideAngle, ServoInsideAngle)
  }

  /** One pass of rotate_ring's loop keeps the ring position on the ring and
      the coil index in step with it, and moves the position by one step. */
  lemma StepperStep(start: int, offset: int, antiClockwise: bool, before: int, index: int, after: int, next: int)
    requires 0 <= before < StepsPerRotation && index == before % 8
    requires before == (start + offset) % StepsPerRotation
    requires after == CRem(before + (if antiClockwise then 1 else StepsPerRotation - 1), StepsPerRotation)
    requires next == CRem(index + (if antiClockwise then 1 else 7), 8)
    ensures 0 <= after < StepsPerRotation && next == after % 8
    ensures after == (start + offset + (if antiClockwise then 1 else -1)) % StepsPerRotation
  {
    RingStep(start + offset, antiClockwise, before, after);
    CoilStep(before, after, index, antiClockwise, next);
  }

  /** The coil index, kept equal to the position modulo 8, ends where the
      signed change puts it from the starting index. */
  lemma CoilFollows(start: int, delta: int, position: int)
    requires position == (start + delta) % StepsPerRotation
    ensures position % 8 == (start % 8 + delta) % 8
  {
    ModAddLeft(start, delta, 8);
    ModOfRotation(start + delta);
  }

  /** Recording one more step in the same direction. */
  lemma RepeatStep(start: seq<bool>, antiClockwise: bool, i: nat, before: seq<bool>, after: seq<bool>)
    requires before == start + Repeat(antiClockwise, i) && after == before + [antiClockwise]
    ensures after == start + Repeat(antiClockwise, i + 1)
  {
    AppendAssociates(start, Repeat(antiClockwise, i), [antiClockwise]);
  }

  lemma RingStep(x: int, antiClockwise: bool, before: int, after: int)
    requires before == x % StepsPerRotation
    requires after == (before + (if antiClockwise then 1 else StepsPerRotation - 1)) % StepsPerRotation
    ensures after == (x + (if antiClockwise then 1 else -1)) % StepsPerRotation
  {
    ModAddLeft(x, if antiClockwise then 1 else StepsPerRotation - 1, StepsPerRotation);
    if !antiClockwise {
      ModAddMultiple(x - 1, 1, StepsPerRotation);
    }
  }

  /** The coil index follows the ring position modulo 8. */
  lemma CoilStep(before: int, after: int, index: int, antiClockwise: bool, next: int)
    requires 0 <= before < StepsPerRotation && index == before % 8
    requires after == (before + (if antiClockwise then 1 else StepsPerRotation - 1)) % StepsPerRotation
    requires next == (index + (if antiClockwise then 1 else 7)) % 8
    ensures next == after % 8
  {
    var x := before + (if antiClockwise then 1 else StepsPerRotation - 1);
    ModAddLeft(before, if antiClockwise then 1 else 7, 8);
    if !antiClockwise {
      ModAddMultiple(before + 7, 2047, 8);
    }
    ModOfRotation(x);
  }

  /** Recording one more plotted nail of a drawing. */
  lemma PlottedStep(start: seq<int>, nails: seq<int>, i: nat, before: seq<int>, after: seq<int>)
    requires 1 <= i < |nails|
    requires before == start + (if i > 1 then nails[1..i] else []) && after == before + [nails[i]]
    ensures after == start + nails[1..i + 1]
  {
    assert nails[1..i + 1] == (if i > 1 then nails[1..i] else []) + [nails[i]];
    AppendAssociates(start, if i > 1 then nails[1..i] else [], [nails[i]]);
  }

  /** Reducing modulo a rotation keeps the residue modulo 8. */
  lemma ModOfRotation(x: int)
    ensures (x % StepsPerRotation) % 8 == x % 8
  {
    ModAddMultiple(x % StepsPerRotation, (x / StepsPerRotation) * 2048, 8);
    assert x == x % StepsPerRotation + ((x / StepsPerRotation) * 2048) * 8;
  }
}
