# String-art sequence generator and plotter, in Dafny

This project models the two halves of a string-art system.

**The visualiser** (`src/string_visualizer.py`):
- Thirteen pattern generators. Each returns the list of pin indices a string visits on a ring of `NUM_PINS` pins.
- The playlist of (name, generator, parameter list) entries.
- The main loop. It expands the playlist into one job per parameter value and calls each generator with that parameter. It waits for a key press before every job but the first, and renders the result.

**The plotter firmware** (`src/main.cpp`):
- A stepper motor turns a ring of 32 nails.
- A servo arm swings the string in and out.
- The firmware wraps the string around the nails of a hard-coded double-bounce star sequence.

Every generator is an imperative method, and twelve of them build their list with a loop as the source does. The chaos generator has no loop in the source or the model: it appends the first shuffled pin to the shuffled list.
- Each method is proved equal to a reference function (`PatternSpec`).
- What each pattern looks like is proved about that function (`PatternLemmas`): the range, the length, the first and last pin, where each pin lands, and closure.
- The pin count is a parameter `n > 0`. The configured ring is `Playlist.NumPins` = 32.

The main loop is a method over the nested entry/parameter loops. It is proved to produce exactly the event list given by `Playlist.Playback`, a recursive definition of the events: a wait before every job but the first, then the rendering or the failure of each call. `Playlist.PlaybackOrder` then says where every rendering and every wait lands in that list.

The firmware is a class `Plotter`. Its fields are the firmware's three globals:
- the ring's step position;
- the coil-table index;
- the servo angle.

It also has ghost records of every stepper step taken, every angle written to the servo, and every nail plotted around. Its methods are the firmware functions, with loops where the firmware has them.

`CrossCheck` proves that the firmware's hard-coded nail list is the visualiser's double bounce with jumps (11, 17) on 32 pins. That is the second job of the configured playlist.

Modules:
- `ModArith` holds the arithmetic facts about `%` that the proofs need.
- `Decimal` holds Python's `str()` of integers and tuples, used for the parameter text.

Points where the code's behaviour is easy to misread:
- **Stop guards.** The guard of the stepping generators compares the loop index `i`, not the number of steps taken. The double bounce, sierpinski, inward/outward and half & quarter generators ignore a return to pin 0 up to and including the third pin of the sequence (`i > 1`; the leading 0 is the first). The triple star ignores it up to the fourth pin of the sequence (`i > 2`). The progressive spiral ignores it up to pin `NUM_PINS + 2` of the sequence (`i > NUM_PINS`).
- **Parameter arity.** A parameter value that does not fill all of a generator's parameters is legal: the rest take their Python defaults. Only a value with too many items fails, and it fails when its job is reached, with the TypeError ending the run. Jobs before it are still rendered.
- **Wait label.** The label of a wait shows the upcoming job's name with the previous job's parameter text (`param_display` still holds it).
- **Zig-zag stop.** The zig-zag test `i > NUM_PINS / 2` uses true division, modelled as `2 * i > n`. For `n >= 3` the loop stops at `i = n - 1` (length `2n + 1`). For `n` of 1 or 2 it runs all `2n` iterations (length `4n + 1`).

## Model

| member | source | states |
|---|---|---|
| Patterns.StarSkip | src/string_visualizer.py:26-36 | the loop builds exactly the reference trace of a constant jump `skip` that stops at the first return to pin 0 (no index guard), within 2·N iterations |
| Patterns.EnvelopeCurve | src/string_visualizer.py:38-47 | the loop builds exactly the pairing trace i, (N−1−i+offset) mod N for i < N, closed by 0 |
| Patterns.ZigzagLayer | src/string_visualizer.py:49-60 | the loop with its running `current` builds exactly the reference zig-zag trace, including the break when `current` is 0 and `i > N/2` |
| Patterns.FlowerMandala | src/string_visualizer.py:62-70 | the loop builds exactly the pairing trace i, (i + N//2) mod N, closed by 0 |
| Patterns.ChaosRandom | src/string_visualizer.py:72-77 | the result is the shuffled pins with the first one repeated at the end |
| Patterns.DoubleBounce | src/string_visualizer.py:79-91 | the loop builds exactly the trace of jumps alternating jump_a (even i) and jump_b (odd i), stopping on pin 0 only when i > 1, within 2·N iterations |
| Patterns.SierpinskiStyle | src/string_visualizer.py:93-102 | the loop builds exactly the constant-jump trace that stops on pin 0 only when i > 1 |
| Patterns.OffsetCardioid | src/string_visualizer.py:104-112 | the loop builds exactly the pairing trace i, (i·multiplier) mod N, closed by 0 |
| Patterns.ProgressiveSpiral | src/string_visualizer.py:114-125 | the loop, whose jump grows by step_increase after every step, builds exactly the growing-jump trace that stops on pin 0 only when i > N, within 4·N iterations |
| Patterns.InwardOutward | src/string_visualizer.py:127-139 | the loop builds exactly the alternating trace of in_step and out_step with the i > 1 guard |
| Patterns.TripleStar | src/string_visualizer.py:141-153 | the loop builds exactly the trace cycling skip_1, skip_2, skip_1+skip_2 that stops on pin 0 only when i > 2, within 3·N iterations |
| Patterns.HalfAndQuarter | src/string_visualizer.py:155-167 | the loop builds exactly the alternating trace of skip_half and skip_quarter with the i > 1 guard |
| Patterns.FullCoverage | src/string_visualizer.py:169-175 | the loop over the combinations builds exactly the flattened list of all pairs (i, j), i < j, in lexicographic order |
| PatternLemmas.StepTraceShape | src/string_visualizer.py:28-35 | a stepping trace starts at 0, has 1 to cap+1 pins, pin k is the walk after k steps, every pin is on the ring, no pin 0 appears past the guard before the end, and a trace cut short ends on pin 0 |
| PatternLemmas.FirstReturnStops | src/string_visualizer.py:32-34 | if the walk is on pin 0 after k steps past the guard and within the cap, the trace has stopped by then, on pin 0 |
| PatternLemmas.TraceFromAt | src/string_visualizer.py:30-35 | each pin the loop appends from iteration i on is the walk's position after that many steps; no earlier pin 0 past the guard |
| PatternLemmas.TraceFromLength | src/string_visualizer.py:30-35 | the loop ends either at the cap or right after appending pin 0 past the guard |
| PatternLemmas.ConstantWalk | src/string_visualizer.py:30-31 | after k steps of a constant jump the pin is k·skip mod N |
| PatternLemmas.AlternateWalk | src/string_visualizer.py:83-88 | after k alternating steps the pin is (⌈k/2⌉·a + ⌊k/2⌋·b) mod N |
| PatternLemmas.Cycle3Walk | src/string_visualizer.py:145-149 | after k steps of the triple star the pin is ((k div 3)·(2·s1+2·s2) + [0, s1, s1+s2][k mod 3]) mod N |
| PatternLemmas.GrowingWalk | src/string_visualizer.py:118-122 | after k growing steps the pin is (k·start + increase·k(k−1)/2) mod N |
| PatternLemmas.GrowingJumpNext | src/string_visualizer.py:122 | the jump of iteration i+1 is the jump of iteration i plus step_increase |
| PatternLemmas.StarSkipCloses | src/string_visualizer.py:26-36 | every star/skip sequence ends on pin 0 and has at most N+1 pins |
| PatternLemmas.SierpinskiCloses | src/string_visualizer.py:93-102 | every sierpinski sequence ends on pin 0 and has at most 2·N+1 pins |
| PatternLemmas.AlternateCloses | src/string_visualizer.py:79-91 | every alternating-jump sequence ends on pin 0 and has at most 2·N+1 pins |
| PatternLemmas.Cycle3Closes | src/string_visualizer.py:141-153 | every triple-star sequence ends on pin 0 and has at most 3·N+1 pins |
| PatternLemmas.GrowingCloses | src/string_visualizer.py:114-125 | every progressive spiral ends on pin 0 and has at most 4·N+1 pins; for N ≥ 2 it has at most 2·N+1 |
| PatternLemmas.ZigzagShape | src/string_visualizer.py:49-60 | the zig-zag has 2·steps+1 pins (steps = N for N ≥ 3, else 2N), starts and ends on 0, pin 2p+1 is (p+offset) mod N, pin 2p+2 is (p+1) mod N, and all pins are on the ring |
| PatternLemmas.ZigzagTracePins | src/string_visualizer.py:53-57 | iteration p appends the forward pin (p+offset) mod N and then the committed pin (p+1) mod N |
| PatternLemmas.ZigzagTraceCloses | src/string_visualizer.py:58-59 | the zig-zag stops exactly when the committed pin wraps to 0 after the middle, so its last pin is 0 |
| PatternLemmas.PairTraceShape | src/string_visualizer.py:38-47 | a pairing sequence has exactly 2·N+1 pins, pin 2i is i, pin 2i+1 is i's partner, and the last pin is 0 |
| PatternLemmas.FullCoverageShape | src/string_visualizer.py:169-175 | the combinations are N(N−1)/2 pairs with 0 ≤ i < j < N, strictly increasing in lexicographic order, containing every such pair, so the flattened sequence has N(N−1) pins |
| PatternLemmas.CoverageFromShape | src/string_visualizer.py:172 | the pairs from row i on lie in i ≤ a < b < N, are in lexicographic order, and include every such pair |
| PatternLemmas.ChaosIsPermutation | src/string_visualizer.py:72-77 | the chaos sequence has N+1 pins, all on the ring, the first N pairwise distinct and covering every pin, and the last equal to the first |
| Playlist.Defaults | src/string_visualizer.py:26-155 | the default arguments of each generator in declaration order; flower, chaos and full coverage take none, every other generator one or two |
| Playlist.Bind | src/string_visualizer.py:306 | binding succeeds exactly when there are no more arguments than parameters, fills every parameter, and otherwise raises TypeError with both counts |
| Playlist.BindValues | src/string_visualizer.py:306 | the given arguments fill the leading parameters and the rest keep their defaults |
| Playlist.Generate | src/string_visualizer.py:302-310 | a call returns a sequence exactly when the arguments fit the generator, and otherwise fails with TooManyArguments |
| Playlist.GeneratedShape | src/string_visualizer.py:26-175 | every successful call's sequence lies on the ring and within its generator's length bound; all but chaos start on pin 0 (full coverage needs N ≥ 2) and all but chaos and full coverage end on 0 |
| Playlist.ConstantStepShape | src/string_visualizer.py:26-36 | star/skip and sierpinski calls meet the shape above |
| Playlist.AlternateStepShape | src/string_visualizer.py:79-91 | double bounce, inward/outward and half & quarter calls meet the shape above |
| Playlist.LongSteppingShape | src/string_visualizer.py:114-153 | triple star and progressive spiral calls meet the shape above |
| Playlist.ClosedFormShape | src/string_visualizer.py:38-70 | envelope, flower, cardioid and zig-zag calls meet the shape above |
| Playlist.EnumerationShape | src/string_visualizer.py:169-175 | chaos and full coverage calls meet the shape above |
| Playlist.Display | src/string_visualizer.py:302-310 | param_display is "Domyślne" for None and str(param) otherwise; its first character ("D", "(", or a digit or "-") tells None, a tuple and a scalar apart |
| Playlist.DisplayDistinguishes | src/string_visualizer.py:302-310 | equal parameter texts come from equal parameters, so the label identifies the parameter |
| Decimal.IntRoundTrip | src/string_visualizer.py:310 | reading back str(v) gives v |
| Decimal.IntToStringInjective | src/string_visualizer.py:310 | distinct integers have distinct str() texts |
| Decimal.NatRoundTrip | src/string_visualizer.py:310 | reading back the decimal digits of v gives v |
| Decimal.TupleToStringInjective | src/string_visualizer.py:307 | str() of a tuple lists its values: distinct tuples, including the one-element form "(7,)", have distinct texts |
| Playlist.ExpandLength | src/string_visualizer.py:284-287 | the expansion has exactly as many jobs as the parameter lists have values in total |
| Playlist.ExpandAt | src/string_visualizer.py:284-287 | job number (values of earlier entries) + p is parameter p of entry e: entry order, then parameter order |
| Playlist.EntryJobs | src/string_visualizer.py:284-287 | entry e's jobs form one contiguous block of the expansion, right after those of the earlier entries |
| Playlist.SequenceListJobs | src/string_visualizer.py:183-199 | the configured playlist expands to two double-bounce jobs, (7, 15) then (11, 17) |
| Playlist.OutcomeOfCall | src/string_visualizer.py:302-310 | a job renders its call's result with its parameter text exactly when the call succeeds, and otherwise ends in the call's TypeError |
| Playlist.ReplayOrder | src/string_visualizer.py:282-334 | when jobs before f succeed and job f fails (or there is none), the run has 2f+1 events (2f−1 with no failure), job k's outcome is at 2k and the wait before job k at 2k−1 |
| Playlist.PlaybackOrder | src/string_visualizer.py:282-334 | in the run of a playlist, successful jobs are rendered at even positions with their parameter text, each wait names the upcoming job with the previous job's parameter text, and a TypeError is the last event |
| Playback.RunGenerator | src/string_visualizer.py:303-309 | a call runs the generator's method on the bound arguments and returns what Generate specifies |
| Playback.Dispatch | src/string_visualizer.py:302-310 | the case split on None / tuple / scalar calls the generator as Arguments says and sets param_display to Display(param) |
| Playback.PlayJob | src/string_visualizer.py:289-334 | one job's events are the record's events for that job, its call raised exactly when its outcome is a Crash, and param_display becomes its text |
| Playback.PlayEntry | src/string_visualizer.py:287-334 | the inner loop over one entry's values produces the record's events for its block of jobs, keeping first_run and param_display in step |
| Playback.RunEntries | src/string_visualizer.py:282-334 | the nested loops produce exactly the whole run's events |
| Playback.RunPlaylist | src/string_visualizer.py:282-334 | main() over any playlist and any shuffles produces exactly Playback of the expanded jobs |
| Firmware.DerivedConstants | src/main.cpp:12-23 | 16384 steps per rotation, 512 steps per nail (the ring divides evenly), inside angle 120 and outside angle 60 |
| Firmware.StarSequenceShape | src/main.cpp:30-31 | the hard-coded drawing has 17 nails, all on the 32-nail ring, starting and ending at nail 0 |
| Firmware.CRem | src/main.cpp:47-48 | C++ `%`: the remainder is smaller than the divisor in magnitude and has the dividend's sign |
| Firmware.CRemIsRemainder | src/main.cpp:47-48 | the C++ remainder is congruent to the dividend and equals the Euclidean one for a dividend that is not negative |
| Firmware.Repeat | src/main.cpp:40-48 | a run of `steps` stepper steps in one direction: as many steps as requested (none for a count that is not positive), all the same way |
| Firmware.SweepShape | src/main.cpp:61-66 | the servo sweep writes one angle per degree between start and target, moving one degree per write, and ends on the target |
| Firmware.SweepStaysInRange | src/main.cpp:55-66 | a sweep between two angles in 0..180 never writes an angle outside 0..180 |
| Firmware.NailDeltaReaches | src/main.cpp:78-85 | turning by the folded difference lands on nail·512 mod 16384, which is nail·512 for a nail of the ring |
| Firmware.NailDeltaShortest | src/main.cpp:81-83 | from a position on the ring to a nail of the ring the folded difference is at most half a rotation, and no turn reaching the nail is shorter |
| Firmware.Plotter.constructor | src/main.cpp:16-28 | the power-on state: ring position 0, coil index 0, servo at 90 degrees |
| Firmware.Plotter.RotateRing | src/main.cpp:39-52 | the ring position ends at (old ± steps) mod 16384, the coil index at (old ± steps) mod 8 and still equal to the position mod 8, exactly `steps` steps in the given direction are taken, and the servo is untouched |
| Firmware.Plotter.MoveServo | src/main.cpp:54-69 | a target outside 0..180 changes nothing; otherwise the arm writes the one-degree sweep to the target and ends on it, and the ring is untouched |
| Firmware.Plotter.RotateRingToNail | src/main.cpp:78-86 | the ring ends at nail·512 (mod a rotation for any index), after exactly the folded number of steps in the direction of its sign |
| Firmware.Plotter.PlotAroundNail | src/main.cpp:88-93 | the ring ends at the next nail, ((nail+1) mod 32)·512, the arm ends inside at 120, and the steps and servo writes are those of the four moves in order |
| Firmware.Plotter.DrawSequence | src/main.cpp:145-150 | plot_around_nail is called on entries 1 .. len−1 in order, leaving the ring one nail past the last of them with the arm inside |
| Firmware.Plotter.DrawStarSequence | src/main.cpp:145-150 | drawing the hard-coded sequence plots around its 16 nails after the first, in order, and leaves the ring at nail 1 (step 512) with the arm inside |
| Firmware.Plotter.Loop | src/main.cpp:131-151 | from any valid state, the arm is moved inside, the ring turned to nail 11 (step 5632), and the whole star sequence drawn: its 16 nails after the first are plotted in order, leaving the ring at nail 1 (step 512) with the arm inside |
| CrossCheck.FirmwareSequenceIsDoubleBounce | src/main.cpp:30 | the firmware's nail list is exactly the visualiser's double bounce with jumps 11 and 17 on 32 pins |
| CrossCheck.PlaylistDrawsFirmwareSequence | src/string_visualizer.py:190 | the playlist's second job, (11, 17), generates exactly the firmware's nail list, whatever the shuffle |

## Left out

- `get_pin_coords`, `draw_pins` and `draw_sequence`: floating-point geometry and turtle drawing calls. A rendering is an event carrying the pins it draws.
- `setup_turtle`, `display_sequence_name`'s label text, `screen.update`/`exitonclick` and the console `print`s: GUI and console output. A wait is an event carrying the name and parameter text its label shows.
- The key-press polling loop and `handle_key_press`: the event loop is outside the model. A wait is one event, and it always ends.
- `random.shuffle`: each job's shuffled list is an input. Playback only needs it to have `NUM_PINS` entries. The chaos permutation property assumes it is a permutation of the pins.
- Patterns.ChaosRandom: the uniform distribution of the shuffle is not modelled, only that the result is a permutation.
- Parameter values other than `None`, integers and tuples of integers (strings, floats, lists): the configured playlist uses none of them.
- The commented-out playlist entries: expansion and playback are proved for any entry list. The configured list is `Playlist.SequenceList`.
- Arduino I/O (`digitalWrite` of the coil table, `delay`, `delayMicroseconds`, `myServo.write`, `Serial`), `wait_for_user_confirm`, `setup()`'s calibration moves, the console messages and the confirmation wait in `loop()`, and its final idle loop: hardware and console. The servo writes and stepper steps are ghost records instead.
- `step_delay_microseconds` and the servo delays: timing only.
- Firmware.Plotter.RotateRingToNail: `nail_idx * 512` overflowing a 32-bit int (only for indices beyond ±2^22) is not modelled; integers are unbounded.
- Firmware.Plotter.DrawSequence: the stepper steps and servo writes of the whole drawing are not stated. PlotAroundNail states them for each nail.
- Firmware.Plotter.DrawStarSequence: as for DrawSequence, only the plotted nails and the final ring and arm state are stated.
- Firmware.Plotter.Loop: as for DrawSequence, only the plotted nails and the final ring and arm state are stated; the state after the two setup moves (arm at 120, ring at step 5632) is established inside its body.
