/** The drawing the firmware hard-codes is the visualiser's double bounce
    with jumps 11 and 17 on the same 32-nail ring, the second job of the
    configured playlist. */
module CrossCheck {
  import opened PatternSpec
  import opened Playlist
  import PatternLemmas
  import Firmware

  /** The double bounce walk with jumps 11 and 17 on 32 pins is the
      firmware's sequence, nail for nail. */
  lemma FirmwareSequenceIsDoubleBounce()
    ensures StepTrace(NumPins, Alternate(11, 17), 1, 2 * NumPins) == Firmware.DoubleBounceStarSequence
    ensures NumPins == Firmware.NumNails
  {
    var s := Alternate(11, 17);
    assert Walk(NumPins, s, 1) == 11;
    assert Walk(NumPins, s, 2) == 28;
    assert Walk(NumPins, s, 3) == 7;
    assert Walk(NumPins, s, 4) == 24;
    assert Walk(NumPins, s, 5) == 3;
    assert Walk(NumPins, s, 6) == 20;
    assert Walk(NumPins, s, 7) == 31;
    assert Walk(NumPins, s, 8) == 16;
    assert Walk(NumPins, s, 9) == 27;
    assert Walk(NumPins, s, 10) == 12;
    assert Walk(NumPins, s, 11) == 23;
    assert Walk(NumPins, s, 12) == 8;
    assert Walk(NumPins, s, 13) == 19;
    assert Walk(NumPins, s, 14) == 4;
    assert Walk(NumPins, s, 15) == 15;
    assert Walk(NumPins, s, 16) == 0;
    PatternLemmas.StepTraceShape(NumPins, s, 1, 2 * NumPins);
    var r := StepTrace(NumPins, s, 1, 2 * NumPins);
    assert r[|r| - 1] == Walk(NumPins, s, |r| - 1);
    assert |r| == 17;
    forall k | 0 <= k < 17
      ensures r[k] == Firmware.DoubleBounceStarSequence[k]
    {
      assert r[k] == Walk(NumPins, s, k);
    }
  }

  /** The playlist's second job, whatever the shuffle, renders exactly the
      firmware's sequence. */
  lemma PlaylistDrawsFirmwareSequence(shuffled: seq<int>)
    requires |shuffled| == NumPins
    ensures Expand(SequenceList)[1].param == Tuple([11, 17])
    ensures Generate(NumPins, Expand(SequenceList)[1].generator, Arguments(Expand(SequenceList)[1].param), shuffled)
      == Ok(Firmware.DoubleBounceStarSequence)
  {
    SequenceListJobs();
    FirmwareSequenceIsDoubleBounce();
  }
}
