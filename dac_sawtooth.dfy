/** The DAC sawtooth thread: after configuring channel 0 for 12-bit output
    it writes a value that climbs by DAC_STEPS per period and falls back to
    0 once it would pass DAC_MAX_VALUE.

    The DAC driver is an oracle: setup and every write are given as their
    return codes. The forever loop is observed for as many periods as there
    are write replies. */
module DacSawtooth {
  import opened Base

  const DAC_STEPS: nat := 100
  const DAC_MAX_VALUE: nat := 4095
  /** Writes per sawtooth period: the values 0, 100, ..., 4000. */
  const PERIOD: nat := 41

  /** How the thread ended, or that it is still writing. */
  datatype Exit = NotReady | SetupFailed | WriteFailed | Running

  /** The step at the end of a period: add DAC_STEPS in `uint32`
      arithmetic, and reset to 0 when the sum exceeds DAC_MAX_VALUE. */
  function NextOutput(v: uint32): (next: uint32)
    ensures next <= DAC_MAX_VALUE
    ensures v + DAC_STEPS <= DAC_MAX_VALUE ==> next == v + DAC_STEPS
    ensures DAC_MAX_VALUE < v + DAC_STEPS < TWO_32 ==> next == 0
  {
    var sum := Wrap32(v + DAC_STEPS);
    if sum > DAC_MAX_VALUE then 0 else sum
  }

  /** The value of write `n` (0-based) of the sawtooth, in closed form. */
  function SawtoothValue(n: nat): (v: uint32)
    ensures v <= 4000 && v % DAC_STEPS == 0
  {
    (n % PERIOD) * DAC_STEPS
  }

  /** The stepping rule carries each write's value to the next one's. */
  lemma SawtoothStep(n: nat)
    ensures NextOutput(SawtoothValue(n)) == SawtoothValue(n + 1)
  {
    if n % PERIOD == PERIOD - 1 {
      assert (n + 1) % PERIOD == 0;
    } else {
      assert (n + 1) % PERIOD == n % PERIOD + 1;
    }
  }

  /** Every value stays in the 12-bit range, is a multiple of DAC_STEPS, and
      the highest one, 4000, is reached. */
  lemma SawtoothRange(n: nat)
    ensures 0 <= SawtoothValue(n) <= DAC_MAX_VALUE && SawtoothValue(n) % DAC_STEPS == 0
    ensures SawtoothValue(PERIOD - 1) == 4000
  {
  }

  /** The sequence repeats every PERIOD writes, and no shorter shift makes
      it start over. */
  lemma SawtoothPeriod(n: nat, p: nat)
    ensures SawtoothValue(n + PERIOD) == SawtoothValue(n)
    ensures 0 < p < PERIOD ==> SawtoothValue(p) != SawtoothValue(0)
  {
    assert (n + PERIOD) % PERIOD == n % PERIOD;
  }

  /** dac_sawtooth: check the device, set up the channel, then write the
      current value and step it until a write fails; `writeReplies` are the
      replies of the writes, in order. */
  method DacSawtooth(ready: bool, setupRc: int, writeReplies: seq<int>)
    returns (exit: Exit, written: seq<uint32>)
    ensures !ready ==> exit == NotReady && written == []
    ensures ready && setupRc < 0 ==> exit == SetupFailed && written == []
    ensures ready && setupRc >= 0 ==>
      && |written| == CallsUntilNegative(writeReplies)
      && (forall n :: 0 <= n < |written| ==> written[n] == SawtoothValue(n))
      && (exit == WriteFailed <==> exists j :: 0 <= j < |writeReplies| && writeReplies[j] < 0)
      && (exit == Running <==> forall j :: 0 <= j < |writeReplies| ==> writeReplies[j] >= 0)
  {
    written := [];
    var outputValue: uint32 := 0;
    if !ready {
      return NotReady, [];
    }
    if setupRc < 0 {
      return SetupFailed, [];
    }
    CallsUntilNegativeMeaning(writeReplies);
    var k := 0;
    while k < |writeReplies|
      invariant 0 <= k <= |writeReplies|
      invariant outputValue == SawtoothValue(k)
      invariant |written| == k
      invariant forall n :: 0 <= n < k ==> written[n] == SawtoothValue(n)
      invariant forall j :: 0 <= j < k ==> writeReplies[j] >= 0
    {
      written := written + [outputValue];
      if writeReplies[k] < 0 {
        assert FirstNegative(writeReplies) == k;
        return WriteFailed, written;
      }
      SawtoothStep(k);
      outputValue := Wrap32(outputValue + DAC_STEPS);
      if outputValue > DAC_MAX_VALUE {
        outputValue := 0;
      }
      k := k + 1;
    }
    exit := Running;
  }
}
