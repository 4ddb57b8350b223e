/** The visualiser's main loop: for every entry and every value of its
    parameter list, wait for a key press (except before the first job), call
    the generator with the parameter spread into its arguments, and render
    the returned pins.  Drawing and the key-polling loop are events here. */
module Playback {
  import opened PatternSpec
  import opened Playlist
  import opened Decimal
  import Patterns
  import opened SeqUtil

  /** A call `func(*args)`: binds the arguments, then runs the generator. */
  method RunGenerator(n: int, g: Generator, args: seq<int>, shuffled: seq<int>) returns (r: Result<seq<int>>)
    requires n > 0 && |shuffled| == n
    ensures r == Generate(n, g, args, shuffled)
  {
    var bound := Bind(g, args);
    if bound.Err? {
      return Err(bound.error);
    }
    var a := bound.value;
    var pins: seq<int>;
    match g {
      case StarSkip => pins := Patterns.StarSkip(n, a[0]);
      case EnvelopeCurve => pins := Patterns.EnvelopeCurve(n, a[0]);
      case ZigzagLayer => pins := Patterns.ZigzagLayer(n, a[0]);
      case FlowerMandala => pins := Patterns.FlowerMandala(n);
      case ChaosRandom => pins := Patterns.ChaosRandom(n, shuffled);
      case DoubleBounce => pins := Patterns.DoubleBounce(n, a[0], a[1]);
      case SierpinskiStyle => pins := Patterns.SierpinskiStyle(n, a[0]);
      case OffsetCardioid => pins := Patterns.OffsetCardioid(n, a[0]);
      case ProgressiveSpiral => pins := Patterns.ProgressiveSpiral(n, a[0], a[1]);
      case InwardOutward => pins := Patterns.InwardOutward(n, a[0], a[1]);
      case TripleStar => pins := Patterns.TripleStar(n, a[0], a[1]);
      case HalfAndQuarter => pins := Patterns.HalfAndQuarter(n, a[0], a[1]);
      case FullCoverage => pins := Patterns.FullCoverage(n);
    }
    r := Ok(pins);
  }

  /** The case split on the parameter: None calls the generator with no
      arguments and is shown as "Domyślne"; a tuple is spread into the
      arguments; anything else is the single argument.  Both are shown as
      str(param). */
  method Dispatch(n: int, g: Generator, param: Param, shuffled: seq<int>)
    returns (result: Result<seq<int>>, display: string)
    requires n > 0 && |shuffled| == n
    ensures result == Generate(n, g, Arguments(param), shuffled)
    ensures display == Display(param)
  {
    if param.NoParams? {
      result := RunGenerator(n, g, [], shuffled);
      display := "Domyślne";
    } else if param.Tuple? {
      result := RunGenerator(n, g, param.values, shuffled);
      display := TupleToString(param.values);
    } else {
      result := RunGenerator(n, g, [param.value], shuffled);
      display := IntToString(param.value);
    }
  }

  /** One pass of the inner loop body: the wait unless this is the first
      job, the call, and the rendering.  `ok` is false when the call raised,
      which ends the run.  The events are those Replay gives job `done`. */
  method PlayJob(n: int, ghost jobs: seq<Job>, ghost outs: seq<Event>, ghost texts: seq<string>,
                 ghost tails: seq<seq<Event>>, shuffles: seq<seq<int>>, done: nat,
                 name: string, generator: Generator, param: Param,
                 firstRun: bool, paramDisplay: string)
    returns (step: seq<Event>, ok: bool, display: string)
    requires Tape(n, jobs, shuffles, outs, texts, tails)
    requires done < |jobs| && jobs[done] == Job(name, generator, param)
    requires firstRun <==> done == 0
    requires done > 0 ==> paramDisplay == texts[done - 1]
    ensures ok <==> !outs[done].Crash?
    ensures ok ==> display == texts[done]
    ensures ok ==> step + tails[done + 1] == tails[done]
    ensures !ok ==> step == tails[done]
  {
    assert outs[done] == Outcome(n, jobs[done], shuffles[done]);
    assert texts[done] == Display(jobs[done].param);
    assert tails[done] == Replay(jobs, outs, texts, done);
    assert tails[done + 1] == Replay(jobs, outs, texts, done + 1);
    ReplayNext(jobs, outs, texts, done);
    var prompt: seq<Event> := [];
    if !firstRun {
      prompt := [Prompt(name, paramDisplay)];
    }
    var result;
    result, display := Dispatch(n, generator, param, shuffles[done]);
    OutcomeOfCall(n, jobs[done], shuffles[done], result);
    if result.Err? {
      return prompt + [Crash(name, result.error)], false, display;
    }
    step := prompt + [Render(name, display, result.value)];
    ok := true;
  }

  /** The inner loop over one entry's parameter list; its jobs are start ...
      start + |entry.params| - 1 of the expanded playlist.  `stopped`
      reports a raised call. */
  method PlayEntry(n: int, ghost jobs: seq<Job>, ghost outs: seq<Event>, ghost texts: seq<string>,
                   ghost tails: seq<seq<Event>>, shuffles: seq<seq<int>>,
                   entry: Entry, start: nat, firstRun0: bool, paramDisplay0: string)
    returns (step: seq<Event>, done: nat, firstRun: bool, paramDisplay: string, stopped: bool)
    requires Tape(n, jobs, shuffles, outs, texts, tails)
    requires start + |entry.params| <= |jobs| && jobs[start..start + |entry.params|] == JobsOf(entry)
    requires firstRun0 <==> start == 0
    requires start > 0 ==> paramDisplay0 == texts[start - 1]
    ensures stopped ==> step == tails[start]
    ensures !stopped ==> done == start + |entry.params|
    ensures !stopped ==> step + tails[done] == tails[start]
    ensures !stopped ==> (firstRun <==> done == 0)
    ensures !stopped && done > 0 ==> paramDisplay == texts[done - 1]
  {
    step, done, firstRun, paramDisplay, stopped := [], start, firstRun0, paramDisplay0, false;
    var name, generator, paramsList := entry.name, entry.generator, entry.params;
    for p := 0 to |paramsList|
      invariant done == start + p
      invariant firstRun <==> done == 0
      invariant done > 0 ==> paramDisplay == texts[done - 1]
      invariant step + tails[done] == tails[start]
    {
      var param := paramsList[p];
      assert jobs[done] == JobsOf(entry)[p];
      var events, ok, display := PlayJob(n, jobs, outs, texts, tails, shuffles, done, name, generator, param, firstRun, paramDisplay);
      if !ok {
        step := step + events;
        stopped := true;
        return;
      }
      AppendAssociates(step, events, tails[done + 1]);
      step := step + events;
      paramDisplay := display;
      firstRun := false;
      done := done + 1;
    }
  }

  /** The nested loops of main(), checked against the record of the run:
      outs[j] and texts[j] are job j's outcome and parameter text, tails[j]
      the events from job j on. */
  method RunEntries(n: int, ghost jobs: seq<Job>, ghost outs: seq<Event>, ghost texts: seq<string>,
                    ghost tails: seq<seq<Event>>, entries: seq<Entry>, shuffles: seq<seq<int>>)
    returns (events: seq<Event>)
    requires Tape(n, jobs, shuffles, outs, texts, tails) && jobs == Expand(entries)
    ensures events == tails[0]
  {
    ExpandLength(entries);
    events := [];
    var firstRun := true;
    var paramDisplay := "";
    var done := 0;
    for e := 0 to |entries|
      invariant done == ParamCount(entries[..e]) <= |jobs|
      invariant firstRun <==> done == 0
      invariant done > 0 ==> paramDisplay == texts[done - 1]
      invariant events + tails[done] == tails[0]
    {
      EntryJobs(entries, e);
      var step, stopped;
      ghost var start := done;
      step, done, firstRun, paramDisplay, stopped :=
        PlayEntry(n, jobs, outs, texts, tails, shuffles, entries[e], done, firstRun, paramDisplay);
      if stopped {
        AppendAssociates(events, step, []);
        events := events + step;
        return;
      }
      AppendAssociates(events, step, tails[done]);
      events := events + step;
    }
    assert entries[..|entries|] == entries;
  }

  /** main() over a playlist.  `shuffles[j]` is what random.shuffle produces
      during job j; a TypeError from a call ends the run. */
  method RunPlaylist(n: int, entries: seq<Entry>, shuffles: seq<seq<int>>) returns (events: seq<Event>)
    requires n > 0 && |shuffles| == |Expand(entries)| && AllShuffles(shuffles, n)
    ensures events == Playback(n, Expand(entries), shuffles)
  {
    ghost var jobs := Expand(entries);
    ShufflesAreSized(shuffles, n);
    ghost var outs, texts, tails := TapeOf(n, jobs, shuffles);
    events := RunEntries(n, jobs, outs, texts, tails, entries, shuffles);
  }
}
