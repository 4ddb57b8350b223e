/** Reference definitions of the pin sequences produced by the pattern
    generators of the string-art visualiser.  Pin indices live on a circle of
    `n` pins; every sum is reduced modulo `n` (Python's `%` and Dafny's `%`
    agree for a positive divisor). */
module PatternSpec {

  /** The jump a stepping generator adds to the running pin at iteration i. */
  datatype Schedule =
    | Constant(skip: int)                  // star/skip, sierpinski style
    | Alternate(even: int, odd: int)       // double bounce, inward/outward, half & quarter
    | Cycle3(first: int, second: int)      // triple star: first, second, first + second
    | Growing(start: int, increase: int)   // progressive spiral: start, start + increase, ...

  function JumpAt(s: Schedule, i: nat): int {
    match s
    case Constant(skip) => skip
    case Alternate(a, b) => if i % 2 == 0 then a else b
    case Cycle3(a, b) => [a, b, a + b][i % 3]
    case Growing(start, inc) => start + i * inc
  }

  /** The pin reached after k steps of schedule s, starting from pin 0. */
  function Walk(n: int, s: Schedule, k: nat): (p: int)
    requires n > 0
    ensures 0 <= p < n
  {
    if k == 0 then 0 else (Walk(n, s, k - 1) + JumpAt(s, k - 1)) % n
  }

  /** The pins appended by iterations i, i+1, ..., cap-1 of a stepping loop
      whose running pin is `current`: each iteration appends the next pin and
      the loop breaks after appending pin 0 at an iteration index above
      `guard`. */
  function TraceFrom(n: int, s: Schedule, guard: int, cap: nat, i: nat, current: int): seq<int>
    requires n > 0
    decreases cap - i
  {
    if i >= cap then []
    else
      var next := (current + JumpAt(s, i)) % n;
      if next == 0 && i > guard then [next]
      else [next] + TraceFrom(n, s, guard, cap, i + 1, next)
  }

  /** The whole sequence of a stepping generator: pin 0, then the walk. */
  function StepTrace(n: int, s: Schedule, guard: int, cap: nat): seq<int>
    requires n > 0
  {
    [0] + TraceFrom(n, s, guard, cap, 0, 0)
  }

  /** Pins appended by zig-zag iterations i, ..., 2n-1.  The source keeps
      the committed pin in a variable that starts at 0 and goes up by one
      modulo n each iteration, so before iteration i it is i mod n.
      `2 * i > n` is the source's `i > NUM_PINS / 2` with true division. */
  function ZigzagFrom(n: int, offset: int, i: nat): seq<int>
    requires n > 0
    decreases 2 * n - i
  {
    if i >= 2 * n then []
    else
      var forward := (i + offset) % n;
      var next := (i + 1) % n;
      if next == 0 && 2 * i > n then [forward, next]
      else [forward, next] + ZigzagFrom(n, offset, i + 1)
  }

  function ZigzagTrace(n: int, offset: int): seq<int>
    requires n > 0
  {
    [0] + ZigzagFrom(n, offset, 0)
  }

  /** The three closed-form generators pair every pin i with a partner. */
  datatype Pairing =
    | Envelope(offset: int)
    | Flower
    | Cardioid(multiplier: int)

  function Partner(n: int, p: Pairing, i: int): int
    requires n > 0
  {
    match p
    case Envelope(offset) => (n - 1 - i + offset) % n
    case Flower => (i + n / 2) % n
    case Cardioid(m) => (i * m) % n
  }

  /** i, Partner(i), i+1, Partner(i+1), ..., and the closing pin 0. */
  function PairsFrom(n: int, p: Pairing, i: nat): seq<int>
    requires n > 0
    decreases n - i
  {
    if i >= n then [0] else [i, Partner(n, p, i)] + PairsFrom(n, p, i + 1)
  }

  function PairTrace(n: int, p: Pairing): seq<int>
    requires n > 0
  {
    PairsFrom(n, p, 0)
  }

  /** Pin k of a closed-form pairing sequence of length 2n+1. */
  function PairPin(n: int, p: Pairing, k: nat): int
    requires n > 0
  {
    if k >= 2 * n then 0 else if k % 2 == 0 then k / 2 else Partner(n, p, k / 2)
  }

  /** The pairs (i, j), j = first, ..., n-1, in increasing order of j. */
  function Row(n: int, i: int, first: int): seq<(int, int)>
    decreases n - first
  {
    if first >= n then [] else [(i, first)] + Row(n, i, first + 1)
  }

  function CoverageFrom(n: int, i: int): seq<(int, int)>
    decreases n - i
  {
    if i >= n then [] else Row(n, i, i + 1) + CoverageFrom(n, i + 1)
  }

  /** The 2-combinations of 0..n-1, as Python's itertools.combinations lists them. */
  function Combinations(n: int): seq<(int, int)> {
    CoverageFrom(n, 0)
  }

  function Flatten(ps: seq<(int, int)>): seq<int> {
    if ps == [] then [] else [ps[0].0, ps[0].1] + Flatten(ps[1..])
  }

  predicate LexLess(p: (int, int), q: (int, int)) {
    p.0 < q.0 || (p.0 == q.0 && p.1 < q.1)
  }

  function PinRange(n: nat): seq<int> {
    seq(n, i => i)
  }

  /** What random.shuffle guarantees of its result on list(range(n)): n
      entries holding every pin once. */
  predicate IsShuffleOfPins(perm: seq<int>, n: nat) {
    |perm| == n && multiset(perm) == multiset(PinRange(n))
  }

  /** The chaos sequence: the shuffled pins, closed by repeating the first. */
  function ChaosSequence(shuffled: seq<int>): seq<int>
    requires |shuffled| > 0
  {
    shuffled + [shuffled[0]]
  }
}
