/** The visualiser's playlist: entries of (name, generator, parameter list),
    their expansion into one job per parameter, how a parameter becomes the
    generator's arguments and its on-screen text, and the order of waits,
    renderings and failures that the main loop produces. */
module Playlist {
  import opened PatternSpec
  import PatternLemmas
  import opened Decimal

  /** The thirteen pattern_* generators. */
  datatype Generator =
    | StarSkip | EnvelopeCurve | ZigzagLayer | FlowerMandala | ChaosRandom
    | DoubleBounce | SierpinskiStyle | OffsetCardioid | ProgressiveSpiral
    | InwardOutward | TripleStar | HalfAndQuarter | FullCoverage

  /** The default values of a generator's parameters, in declaration order:
      flower, chaos and full coverage take none, the others one or two. */
  function Defaults(g: Generator): (d: seq<int>)
    ensures |d| <= 2
    ensures d == [] <==> g.FlowerMandala? || g.ChaosRandom? || g.FullCoverage?
  {
    match g
    case StarSkip => [13]
    case EnvelopeCurve => [1]
    case ZigzagLayer => [12]
    case FlowerMandala => []
    case ChaosRandom => []
    case DoubleBounce => [11, 10]
    case SierpinskiStyle => [3]
    case OffsetCardioid => [2]
    case ProgressiveSpiral => [1, 1]
    case InwardOutward => [1, 15]
    case TripleStar => [3, 8]
    case HalfAndQuarter => [16, 8]
    case FullCoverage => []
  }

  /** One value of an entry's parameter list: None, a tuple, or a scalar. */
  datatype Param = NoParams | Tuple(values: seq<int>) | Scalar(value: int)

  /** The positional arguments of the call: none for None, the spread tuple,
      or the scalar alone. */
  function Arguments(p: Param): (args: seq<int>)
    ensures p.NoParams? ==> args == []
    ensures p.Tuple? ==> args == p.values
    ensures p.Scalar? ==> args == [p.value]
  {
    match p
    case NoParams => []
    case Tuple(vs) => vs
    case Scalar(v) => [v]
  }

  /** A call with more positional arguments than parameters raises TypeError. */
  datatype CallError = TooManyArguments(given: nat, accepted: nat)

  datatype Result<T> = Ok(value: T) | Err(error: CallError)

  /** Binds positional arguments to the parameters; the remaining parameters
      take their defaults. */
  function Bind(g: Generator, args: seq<int>): (r: Result<seq<int>>)
    ensures r.Ok? <==> |args| <= |Defaults(g)|
    ensures r.Err? ==> r.error == TooManyArguments(|args|, |Defaults(g)|)
    ensures r.Ok? ==> |r.value| == |Defaults(g)|
  {
    var d := Defaults(g);
    if |args| > |d| then Err(TooManyArguments(|args|, |d|))
    else Ok(args + d[|args|..])
  }

  /** The bound arguments: the given ones first, then the defaults of the
      parameters left over. */
  lemma {:induction false} BindValues(g: Generator, args: seq<int>)
    requires |args| <= |Defaults(g)|
    ensures forall k :: 0 <= k < |args| ==> Bind(g, args).value[k] == args[k]
    ensures forall k :: |args| <= k < |Defaults(g)| ==> Bind(g, args).value[k] == Defaults(g)[k]
  {
  }

  /** The pin sequence the call returns.  `shuffled` is what random.shuffle
      leaves in list(range(n)); only the chaos generator looks at it. */
  function Generate(n: int, g: Generator, args: seq<int>, shuffled: seq<int>): (r: Result<seq<int>>)
    requires n > 0 && |shuffled| == n
    ensures r.Ok? <==> |args| <= |Defaults(g)|
    ensures r.Err? ==> r.error == TooManyArguments(|args|, |Defaults(g)|)
  {
    match Bind(g, args)
    case Err(e) => Err(e)
    case Ok(a) =>
      Ok(match g
         case StarSkip => StepTrace(n, Constant(a[0]), -1, 2 * n)
         case EnvelopeCurve => PairTrace(n, Envelope(a[0]))
         case ZigzagLayer => ZigzagTrace(n, a[0])
         case FlowerMandala => PairTrace(n, Flower)
         case ChaosRandom => ChaosSequence(shuffled)
         case DoubleBounce => StepTrace(n, Alternate(a[0], a[1]), 1, 2 * n)
         case SierpinskiStyle => StepTrace(n, Constant(a[0]), 1, 2 * n)
         case OffsetCardioid => PairTrace(n, Cardioid(a[0]))
         case ProgressiveSpiral => StepTrace(n, Growing(a[0], a[1]), n, 4 * n)
         case InwardOutward => StepTrace(n, Alternate(a[0], a[1]), 1, 2 * n)
         case TripleStar => StepTrace(n, Cycle3(a[0], a[1]), 2, 3 * n)
         case HalfAndQuarter => StepTrace(n, Alternate(a[0], a[1]), 1, 2 * n)
         case FullCoverage => Flatten(Combinations(n)))
  }

  /** The longest sequence each generator can return on n pins. */
  function MaxLength(n: int, g: Generator): int {
    match g
    case StarSkip => n + 1
    case ChaosRandom => n + 1
    case EnvelopeCurve => 2 * n + 1
    case FlowerMandala => 2 * n + 1
    case OffsetCardioid => 2 * n + 1
    case ZigzagLayer => 4 * n + 1
    case DoubleBounce => 2 * n + 1
    case SierpinskiStyle => 2 * n + 1
    case InwardOutward => 2 * n + 1
    case HalfAndQuarter => 2 * n + 1
    case TripleStar => 3 * n + 1
    case ProgressiveSpiral => 4 * n + 1
    case FullCoverage => n * (n - 1)
  }

  /** Every pin is on the ring and the sequence fits its bound; every
      generator but chaos starts at pin 0, and every one but chaos and full
      coverage also ends there (full coverage needs two pins for a pair). */
  predicate Shaped(n: int, g: Generator, s: seq<int>) {
    && |s| <= MaxLength(n, g)
    && (forall k :: 0 <= k < |s| ==> 0 <= s[k] < n)
    && (g != ChaosRandom && (g != FullCoverage || n >= 2) ==> |s| > 0 && s[0] == 0)
    && (g != ChaosRandom && g != FullCoverage ==> s[|s| - 1] == 0)
  }

  lemma {:induction false} ConstantStepShape(n: int, g: Generator, args: seq<int>, shuffled: seq<int>)
    requires n > 0 && IsShuffleOfPins(shuffled, n)
    requires |args| <= |Defaults(g)|
    requires g.StarSkip? || g.SierpinskiStyle?
    ensures Shaped(n, g, Generate(n, g, args, shuffled).value)
  {
    var a := Bind(g, args).value;
    var s := Generate(n, g, args, shuffled).value;
    match g
    case StarSkip =>
      assert s == StepTrace(n, Constant(a[0]), -1, 2 * n);
      PatternLemmas.StepTraceShape(n, Constant(a[0]), -1, 2 * n);
      PatternLemmas.StarSkipCloses(n, a[0]);
    case SierpinskiStyle =>
      assert s == StepTrace(n, Constant(a[0]), 1, 2 * n);
      PatternLemmas.StepTraceShape(n, Constant(a[0]), 1, 2 * n);
      PatternLemmas.SierpinskiCloses(n, a[0]);
    case _ =>
  }

  lemma {:induction false} AlternateStepShape(n: int, g: Generator, args: seq<int>, shuffled: seq<int>)
    requires n > 0 && IsShuffleOfPins(shuffled, n)
    requires |args| <= |Defaults(g)|
    requires g.DoubleBounce? || g.InwardOutward? || g.HalfAndQuarter?
    ensures Shaped(n, g, Generate(n, g, args, shuffled).value)
  {
    var a := Bind(g, args).value;
    var s := Generate(n, g, args, shuffled).value;
    match g
    case DoubleBounce =>
      assert s == StepTrace(n, Alternate(a[0], a[1]), 1, 2 * n);
      PatternLemmas.StepTraceShape(n, Alternate(a[0], a[1]), 1, 2 * n);
      PatternLemmas.AlternateCloses(n, a[0], a[1]);
    case InwardOutward =>
      assert s == StepTrace(n, Alternate(a[0], a[1]), 1, 2 * n);
      PatternLemmas.StepTraceShape(n, Alternate(a[0], a[1]), 1, 2 * n);
      PatternLemmas.AlternateCloses(n, a[0], a[1]);
    case HalfAndQuarter =>
      assert s == StepTrace(n, Alternate(a[0], a[1]), 1, 2 * n);
      PatternLemmas.StepTraceShape(n, Alternate(a[0], a[1]), 1, 2 * n);
      PatternLemmas.AlternateCloses(n, a[0], a[1]);
    case _ =>
  }

  lemma {:induction false} LongSteppingShape(n: int, g: Generator, args: seq<int>, shuffled: seq<int>)
    requires n > 0 && IsShuffleOfPins(shuffled, n)
    requires |args| <= |Defaults(g)|
    requires g.TripleStar? || g.ProgressiveSpiral?
    ensures Shaped(n, g, Generate(n, g, args, shuffled).value)
  {
    var a := Bind(g, args).value;
    var s := Generate(n, g, args, shuffled).value;
    match g
    case TripleStar =>
      assert s == StepTrace(n, Cycle3(a[0], a[1]), 2, 3 * n);
      PatternLemmas.StepTraceShape(n, Cycle3(a[0], a[1]), 2, 3 * n);
      PatternLemmas.Cycle3Closes(n, a[0], a[1]);
    case ProgressiveSpiral =>
      assert s == StepTrace(n, Growing(a[0], a[1]), n, 4 * n);
      PatternLemmas.StepTraceShape(n, Growing(a[0], a[1]), n, 4 * n);
      PatternLemmas.GrowingCloses(n, a[0], a[1]);
    case _ =>
  }

  lemma {:induction false} ClosedFormShape(n: int, g: Generator, args: seq<int>, shuffled: seq<int>)
    requires n > 0 && IsShuffleOfPins(shuffled, n)
    requires |args| <= |Defaults(g)|
    requires g.EnvelopeCurve? || g.FlowerMandala? || g.OffsetCardioid? || g.ZigzagLayer?
    ensures Shaped(n, g, Generate(n, g, args, shuffled).value)
  {
    var a := Bind(g, args).value;
    var s := Generate(n, g, args, shuffled).value;
    match g
    case EnvelopeCurve =>
      assert s == PairTrace(n, Envelope(a[0]));
      PatternLemmas.PairTraceShape(n, Envelope(a[0]));
    case FlowerMandala =>
      assert s == PairTrace(n, Flower);
      PatternLemmas.PairTraceShape(n, Flower);
    case OffsetCardioid =>
      assert s == PairTrace(n, Cardioid(a[0]));
      PatternLemmas.PairTraceShape(n, Cardioid(a[0]));
    case ZigzagLayer =>
      assert s == ZigzagTrace(n, a[0]);
      PatternLemmas.ZigzagShape(n, a[0]);
    case _ =>
  }

  lemma {:induction false} EnumerationShape(n: int, g: Generator, args: seq<int>, shuffled: seq<int>)
    requires n > 0 && IsShuffleOfPins(shuffled, n)
    requires |args| <= |Defaults(g)|
    requires g.ChaosRandom? || g.FullCoverage?
    ensures Shaped(n, g, Generate(n, g, args, shuffled).value)
  {
    var a := Bind(g, args).value;
    var s := Generate(n, g, args, shuffled).value;
    match g
    case ChaosRandom =>
      PatternLemmas.ChaosIsPermutation(n, shuffled);
      assert s == ChaosSequence(shuffled);
    case FullCoverage =>
      assert s == Flatten(Combinations(n));
      PatternLemmas.FullCoverageShape(n);
    case _ =>
  }

  lemma {:induction false} GeneratedShape(n: int, g: Generator, args: seq<int>, shuffled: seq<int>)
    requires n > 0 && IsShuffleOfPins(shuffled, n)
    requires |args| <= |Defaults(g)|
    ensures Shaped(n, g, Generate(n, g, args, shuffled).value)
  {
    if g.StarSkip? || g.SierpinskiStyle? {
      ConstantStepShape(n, g, args, shuffled);
    } else if g.DoubleBounce? || g.InwardOutward? || g.HalfAndQuarter? {
      AlternateStepShape(n, g, args, shuffled);
    } else if g.TripleStar? || g.ProgressiveSpiral? {
      LongSteppingShape(n, g, args, shuffled);
    } else if g.EnvelopeCurve? || g.FlowerMandala? || g.OffsetCardioid? || g.ZigzagLayer? {
      ClosedFormShape(n, g, args, shuffled);
    } else {
      EnumerationShape(n, g, args, shuffled);
    }
  }

  /** The text shown for a parameter: "Domyślne" for None, else str(param).
      Its first character tells the three kinds apart. */
  function Display(p: Param): (s: string)
    ensures |s| > 0
    ensures p.NoParams? <==> s[0] == 'D'
    ensures p.Tuple? <==> s[0] == '('
  {
    match p
    case NoParams => "Domyślne"
    case Tuple(vs) => TupleToString(vs)
    case Scalar(v) => IntToStringChars(v, 0); IntToString(v)
  }

  /** Distinct parameters are shown differently: the label's parameter text
      identifies the parameter. */
  lemma {:induction false} DisplayDistinguishes(p: Param, q: Param)
    requires Display(p) == Display(q)
    ensures p == q
  {
    if p.Scalar? && q.Scalar? {
      IntToStringInjective(p.value, q.value);
    } else if p.Tuple? && q.Tuple? {
      TupleToStringInjective(p.values, q.values);
    }
  }

  /** One line of SEQUENCE_LIST. */
  datatype Entry = Entry(name: string, generator: Generator, params: seq<Param>)

  /** One call of a generator, with the parameter it is given. */
  datatype Job = Job(name: string, generator: Generator, param: Param)

  function JobsOf(e: Entry): (jobs: seq<Job>)
    ensures |jobs| == |e.params|
    ensures forall p :: 0 <= p < |e.params| ==> jobs[p] == Job(e.name, e.generator, e.params[p])
  {
    seq(|e.params|, p requires 0 <= p < |e.params| => Job(e.name, e.generator, e.params[p]))
  }

  /** The jobs of the nested loops over entries and their parameters. */
  function Expand(es: seq<Entry>): seq<Job> {
    if es == [] then [] else Expand(es[..|es| - 1]) + JobsOf(es[|es| - 1])
  }

  /** The total length of the entries' parameter lists. */
  function ParamCount(es: seq<Entry>): nat {
    if es == [] then 0 else ParamCount(es[..|es| - 1]) + |es[|es| - 1].params|
  }

  lemma {:induction false} ExpandLength(es: seq<Entry>)
    ensures |Expand(es)| == ParamCount(es)
  {
    if es != [] {
      ExpandLength(es[..|es| - 1]);
    }
  }

  lemma {:induction false} ParamCountStep(es: seq<Entry>, e: nat)
    requires e < |es|
    ensures ParamCount(es[..e + 1]) == ParamCount(es[..e]) + |es[e].params|
  {
    assert es[..e + 1][..e] == es[..e];
  }

  lemma {:induction false} ExpandStep(es: seq<Entry>, e: nat)
    requires e < |es|
    ensures Expand(es[..e + 1]) == Expand(es[..e]) + JobsOf(es[e])
  {
    assert es[..e + 1][..e] == es[..e];
  }

  lemma {:induction false} ExpandPrefix(es: seq<Entry>, e: nat)
    requires e <= |es|
    ensures Expand(es[..e]) <= Expand(es)
    decreases |es| - e
  {
    if e == |es| {
      assert es[..e] == es;
    } else {
      ExpandStep(es, e);
      ExpandPrefix(es, e + 1);
    }
  }

  /** Job number ParamCount(es[..e]) + p is parameter p of entry e: entries
      in order, and each entry's parameters in order. */
  lemma {:induction false} ExpandAt(es: seq<Entry>, e: nat, p: nat)
    requires e < |es| && p < |es[e].params|
    ensures ParamCount(es[..e]) + p < |Expand(es)|
    ensures Expand(es)[ParamCount(es[..e]) + p] == Job(es[e].name, es[e].generator, es[e].params[p])
  {
    ExpandStep(es, e);
    ExpandPrefix(es, e + 1);
    ExpandLength(es[..e]);
  }

  /** Entry e's jobs are the ParamCount(es[..e]) ... ParamCount(es[..e+1]) - 1
      of the expansion. */
  lemma {:induction false} EntryJobs(es: seq<Entry>, e: nat)
    requires e < |es|
    ensures ParamCount(es[..e + 1]) == ParamCount(es[..e]) + |es[e].params| <= |Expand(es)|
    ensures Expand(es)[ParamCount(es[..e])..ParamCount(es[..e + 1])] == JobsOf(es[e])
  {
    ParamCountStep(es, e);
    ExpandStep(es, e);
    ExpandPrefix(es, e + 1);
    ExpandLength(es[..e]);
    ExpandLength(es[..e + 1]);
    var before, upTo := Expand(es[..e]), Expand(es[..e + 1]);
    assert Expand(es)[..|upTo|] == upTo;
    assert upTo[|before|..] == JobsOf(es[e]);
  }

  /** NUM_PINS: the nails on the visualised ring. */
  const NumPins: int := 32

  /** The playlist as configured: the double bounce with (7, 15) and (11, 17). */
  const SequenceList: seq<Entry> :=
    [Entry("5. Double Bounce", DoubleBounce, [Tuple([7, 15]), Tuple([11, 17])])]

  lemma {:induction false} SequenceListJobs()
    ensures Expand(SequenceList) ==
      [Job("5. Double Bounce", DoubleBounce, Tuple([7, 15])),
       Job("5. Double Bounce", DoubleBounce, Tuple([11, 17]))]
  {
    assert SequenceList[..0] == [];
    ExpandStep(SequenceList, 0);
    assert SequenceList[..1] == SequenceList;
  }

  /** What the main loop shows, in order. */
  datatype Event =
    | Prompt(name: string, shown: string)               // the key-press wait before a job
    | Render(name: string, shown: string, pins: seq<int>)
    | Crash(name: string, error: CallError)             // an uncaught TypeError ends the run

  predicate Fits(job: Job) {
    |Arguments(job.param)| <= |Defaults(job.generator)|
  }

  predicate AllShuffles(shuffles: seq<seq<int>>, n: nat) {
    forall k :: 0 <= k < |shuffles| ==> IsShuffleOfPins(shuffles[k], n)
  }

  /** Every shuffled list has one entry per pin: all the generators need. */
  predicate AllSized(shuffles: seq<seq<int>>, n: nat) {
    forall k :: 0 <= k < |shuffles| ==> |shuffles[k]| == n
  }

  lemma {:induction false} ShufflesAreSized(shuffles: seq<seq<int>>, n: nat)
    requires AllShuffles(shuffles, n)
    ensures AllSized(shuffles, n)
  {
  }

  /** The pins a job's call returns. */
  function PinsOf(n: int, job: Job, shuffled: seq<int>): seq<int>
    requires n > 0 && |shuffled| == n && Fits(job)
  {
    Generate(n, job.generator, Arguments(job.param), shuffled).value
  }

  /** The rendering of a job, or the TypeError its call raises. */
  function Outcome(n: int, job: Job, shuffled: seq<int>): Event
    requires n > 0 && |shuffled| == n
  {
    if Fits(job) then Render(job.name, Display(job.param), PinsOf(n, job, shuffled))
    else Crash(job.name, TooManyArguments(|Arguments(job.param)|, |Defaults(job.generator)|))
  }

  /** The outcome of every job's call, in job order. */
  function Outcomes(n: int, jobs: seq<Job>, shuffles: seq<seq<int>>): (outs: seq<Event>)
    requires n > 0 && |shuffles| == |jobs| && AllSized(shuffles, n)
    ensures |outs| == |jobs|
    ensures forall k :: 0 <= k < |jobs| ==> outs[k] == Outcome(n, jobs[k], shuffles[k])
  {
    seq(|jobs|, k requires 0 <= k < |jobs| => Outcome(n, jobs[k], shuffles[k]))
  }

  /** The parameter text of every job, in job order. */
  function Texts(jobs: seq<Job>): (texts: seq<string>)
    ensures |texts| == |jobs|
    ensures forall k :: 0 <= k < |jobs| ==> texts[k] == Display(jobs[k].param)
  {
    seq(|jobs|, k requires 0 <= k < |jobs| => Display(jobs[k].param))
  }

  /** Events of jobs k, k+1, ... given their outcomes and parameter texts: a wait before each job
      but the first, its outcome, and nothing after a failure.  The wait
      shows the upcoming job's name with the previous job's parameter text. */
  function Replay(jobs: seq<Job>, outs: seq<Event>, texts: seq<string>, k: nat): seq<Event>
    requires |outs| == |jobs| == |texts| && k <= |jobs|
    decreases |jobs| - k
  {
    if k == |jobs| then []
    else
      var prompt := if k == 0 then [] else [Prompt(jobs[k].name, texts[k - 1])];
      if outs[k].Crash? then prompt + [outs[k]]
      else prompt + [outs[k]] + Replay(jobs, outs, texts, k + 1)
  }

  function Playback(n: int, jobs: seq<Job>, shuffles: seq<seq<int>>): seq<Event>
    requires n > 0 && |shuffles| == |jobs| && AllSized(shuffles, n)
  {
    Replay(jobs, Outcomes(n, jobs, shuffles), Texts(jobs), 0)
  }

  /** The ghost record a run of the main loop is checked against: every
      job's outcome and parameter text, and the events from every job on
      (tails[k] is Replay from job k).  The quantifiers fire only where an
      outcome, a text or a replay is named, which keeps the generators'
      definitions and Replay's unfolding out of proofs that only pass the
      record along. */
  ghost predicate Tape(n: int, jobs: seq<Job>, shuffles: seq<seq<int>>, outs: seq<Event>, texts: seq<string>,
                       tails: seq<seq<Event>>) {
    && n > 0 && |shuffles| == |jobs| && |outs| == |jobs| && |texts| == |jobs| && |tails| == |jobs| + 1
    && AllSized(shuffles, n)
    && (forall k {:trigger Outcome(n, jobs[k], shuffles[k])} :: 0 <= k < |jobs| ==> outs[k] == Outcome(n, jobs[k], shuffles[k]))
    && (forall k {:trigger Display(jobs[k].param)} :: 0 <= k < |jobs| ==> texts[k] == Display(jobs[k].param))
    && (forall k {:trigger Replay(jobs, outs, texts, k)} :: 0 <= k <= |jobs| ==> tails[k] == Replay(jobs, outs, texts, k))
    && tails[|jobs|] == []
  }

  /** The record of a run and the run's events in terms of it. */
  lemma {:induction false} TapeOf(n: int, jobs: seq<Job>, shuffles: seq<seq<int>>)
    returns (outs: seq<Event>, texts: seq<string>, tails: seq<seq<Event>>)
    requires n > 0 && |shuffles| == |jobs| && AllSized(shuffles, n)
    ensures Tape(n, jobs, shuffles, outs, texts, tails)
    ensures Playback(n, jobs, shuffles) == tails[0]
  {
    outs, texts := Outcomes(n, jobs, shuffles), Texts(jobs);
    tails := seq(|jobs| + 1, k requires 0 <= k <= |jobs| => Replay(jobs, outs, texts, k));
    assert tails[0] == Replay(jobs, outs, texts, 0);
    assert tails[|jobs|] == Replay(jobs, outs, texts, |jobs|);
  }

  /** A job's outcome in terms of what its call returned. */
  lemma {:induction false} OutcomeOfCall(n: int, job: Job, shuffled: seq<int>, result: Result<seq<int>>)
    requires n > 0 && |shuffled| == n
    requires result == Generate(n, job.generator, Arguments(job.param), shuffled)
    ensures result.Ok? <==> Fits(job)
    ensures Outcome(n, job, shuffled) ==
      if result.Ok? then Render(job.name, Display(job.param), result.value) else Crash(job.name, result.error)
  {
  }

  /** The events of job k onwards, one job at a time. */
  lemma {:induction false} ReplayNext(jobs: seq<Job>, outs: seq<Event>, texts: seq<string>, k: nat)
    requires |outs| == |jobs| == |texts| && k < |jobs|
    ensures Replay(jobs, outs, texts, k) ==
      (if k == 0 then [] else [Prompt(jobs[k].name, texts[k - 1])])
      + [outs[k]]
      + (if outs[k].Crash? then [] else Replay(jobs, outs, texts, k + 1))
  {
  }

  lemma {:induction false} ReplayAt(jobs: seq<Job>, outs: seq<Event>, texts: seq<string>, k: nat, j: nat)
    requires |outs| == |jobs| == |texts|
    requires 1 <= k <= j < |jobs|
    requires forall i :: k <= i < j ==> !outs[i].Crash?
    ensures 2 * (j - k) + 1 < |Replay(jobs, outs, texts, k)|
    ensures Replay(jobs, outs, texts, k)[2 * (j - k)] == Prompt(jobs[j].name, texts[j - 1])
    ensures Replay(jobs, outs, texts, k)[2 * (j - k) + 1] == outs[j]
    decreases j - k
  {
    ReplayNext(jobs, outs, texts, k);
    if j > k {
      assert !outs[k].Crash?;
      ReplayAt(jobs, outs, texts, k + 1, j);
      var rest := Replay(jobs, outs, texts, k + 1);
      assert Replay(jobs, outs, texts, k)[2 * (j - k)] == rest[2 * (j - k - 1)];
      assert Replay(jobs, outs, texts, k)[2 * (j - k) + 1] == rest[2 * (j - k - 1) + 1];
    }
  }

  lemma {:induction false} ReplayLength(jobs: seq<Job>, outs: seq<Event>, texts: seq<string>, k: nat, f: nat)
    requires |outs| == |jobs| == |texts|
    requires 1 <= k <= f <= |jobs|
    requires forall i :: k <= i < f ==> !outs[i].Crash?
    requires f < |jobs| ==> outs[f].Crash?
    ensures |Replay(jobs, outs, texts, k)| == 2 * (f - k) + (if f < |jobs| then 2 else 0)
    decreases f - k
  {
    if k < |jobs| {
      ReplayNext(jobs, outs, texts, k);
      if k < f {
        assert !outs[k].Crash?;
        ReplayLength(jobs, outs, texts, k + 1, f);
      }
    }
  }

  /** The length of Replay from the first job when jobs 0..f-1 do not fail
      and job f (if any) does. */
  lemma {:induction false} ReplayOrderLength(jobs: seq<Job>, outs: seq<Event>, texts: seq<string>, f: nat)
    requires |outs| == |jobs| == |texts| && f <= |jobs|
    requires forall i :: 0 <= i < f ==> !outs[i].Crash?
    requires f < |jobs| ==> outs[f].Crash?
    ensures |Replay(jobs, outs, texts, 0)| == (if f < |jobs| then 2 * f + 1 else if f == 0 then 0 else 2 * f - 1)
  {
    if |jobs| > 0 {
      ReplayNext(jobs, outs, texts, 0);
      if f > 0 {
        ReplayLength(jobs, outs, texts, 1, f);
      }
    }
  }

  /** Where job k's outcome and the wait before it land in Replay from the
      first job, when none of jobs 0..k-1 fails. */
  lemma {:induction false} ReplayOrderAt(jobs: seq<Job>, outs: seq<Event>, texts: seq<string>, k: nat)
    requires |outs| == |jobs| == |texts| && k < |jobs|
    requires forall i :: 0 <= i < k ==> !outs[i].Crash?
    ensures 2 * k < |Replay(jobs, outs, texts, 0)|
    ensures Replay(jobs, outs, texts, 0)[2 * k] == outs[k]
    ensures k >= 1 ==> Replay(jobs, outs, texts, 0)[2 * k - 1] == Prompt(jobs[k].name, texts[k - 1])
  {
    ReplayNext(jobs, outs, texts, 0);
    if k > 0 {
      assert !outs[0].Crash?;
      var rest := Replay(jobs, outs, texts, 1);
      assert Replay(jobs, outs, texts, 0) == [outs[0]] + rest;
      ReplayAt(jobs, outs, texts, 1, k);
    }
  }

  /** Replay from the first job when jobs 0..f-1 do not fail and job f (if
      any) does: the length, and where each outcome and each wait lands. */
  lemma {:induction false} ReplayOrder(jobs: seq<Job>, outs: seq<Event>, texts: seq<string>, f: nat)
    requires |outs| == |jobs| == |texts| && f <= |jobs|
    requires forall i :: 0 <= i < f ==> !outs[i].Crash?
    requires f < |jobs| ==> outs[f].Crash?
    ensures var ev := Replay(jobs, outs, texts, 0);
      && |ev| == (if f < |jobs| then 2 * f + 1 else if f == 0 then 0 else 2 * f - 1)
      && (forall k :: 0 <= k < |jobs| && k <= f ==> ev[2 * k] == outs[k])
      && (forall k :: 1 <= k < |jobs| && k <= f ==> ev[2 * k - 1] == Prompt(jobs[k].name, texts[k - 1]))
  {
    ReplayOrderLength(jobs, outs, texts, f);
    forall k | 0 <= k < |jobs| && k <= f
      ensures 2 * k < |Replay(jobs, outs, texts, 0)|
      ensures Replay(jobs, outs, texts, 0)[2 * k] == outs[k]
      ensures k >= 1 ==> Replay(jobs, outs, texts, 0)[2 * k - 1] == Prompt(jobs[k].name, texts[k - 1])
    {
      ReplayOrderAt(jobs, outs, texts, k);
    }
  }

  /** The order of events when jobs 0..f-1 succeed and job f (if any) fails:
      job k is rendered at position 2k, the wait before job k >= 1 comes at
      position 2k-1, a failing job ends the run, and a run without failure
      has one wait fewer than jobs. */
  lemma {:induction false} PlaybackOrder(n: int, jobs: seq<Job>, shuffles: seq<seq<int>>, f: nat)
    requires n > 0 && |shuffles| == |jobs| && AllSized(shuffles, n)
    requires f <= |jobs|
    requires forall i :: 0 <= i < f ==> Fits(jobs[i])
    requires f < |jobs| ==> !Fits(jobs[f])
    ensures var ev := Playback(n, jobs, shuffles);
      && |ev| == (if f < |jobs| then 2 * f + 1 else if f == 0 then 0 else 2 * f - 1)
      && (forall k :: 0 <= k < f ==>
            ev[2 * k] == Render(jobs[k].name, Display(jobs[k].param), PinsOf(n, jobs[k], shuffles[k])))
      && (forall k :: 1 <= k <= f && k < |jobs| ==>
            ev[2 * k - 1] == Prompt(jobs[k].name, Display(jobs[k - 1].param)))
      && (f < |jobs| ==>
            ev[2 * f] == Crash(jobs[f].name, TooManyArguments(|Arguments(jobs[f].param)|, |Defaults(jobs[f].generator)|)))
  {
    var outs := Outcomes(n, jobs, shuffles);
    var texts := Texts(jobs);
    ReplayOrder(jobs, outs, texts, f);
  }
}
