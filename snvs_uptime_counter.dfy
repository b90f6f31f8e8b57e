/** The RTC-backed uptime counter thread: validate the persisted record's
    header, show the uptime made of the stored ticks plus the RTC's current
    ticks, then once per period store that sum back.

    The EEPROM and the SNVS RTC are oracles: each read is given as its
    return code and the value it delivered, each write as its return code.
    `counter_ticks_to_us` is the parameter `toUs`. The forever loop is
    observed for the passes given. */
module SnvsUptimeCounter {
  import opened Base

  const UPTIME_COUNTER_MAGIC: uint32 := 0xEE_9703
  const UPTIME_COUNTER_EMPTY: uint32 := 0xFFFF_FFFF
  const USEC_PER_SEC: nat := 1_000_000

  /** The persisted record: a header word and the accumulated RTC ticks. */
  datatype Values = Values(magic: uint32, ticks: uint32)

  /** One counter_get_value call: its return code and the raw counter value. */
  datatype CounterRead = CounterRead(rc: int, raw: uint32)

  /** One pass of the forever loop: the counter read, and the reply of the
      EEPROM write that follows a successful read. */
  datatype Pass = Pass(read: CounterRead, writeRc: int)

  /** How the thread ended, or that it is still counting. */
  datatype Exit = NoDevice | ReadFailed | BadHeader | CounterFailed | WriteFailed | Running

  /** The header check: an empty EEPROM starts from zero ticks, one with the
      counter's magic is resumed, anything else is refused. */
  function Start(stored: Values): (r: Option<Values>)
    ensures r.Some? ==> r.value.magic == UPTIME_COUNTER_MAGIC
    ensures stored.magic == UPTIME_COUNTER_EMPTY ==> r == Some(Values(UPTIME_COUNTER_MAGIC, 0))
    ensures stored.magic == UPTIME_COUNTER_MAGIC ==> r == Some(stored)
    ensures r.None? <==> stored.magic != UPTIME_COUNTER_EMPTY && stored.magic != UPTIME_COUNTER_MAGIC
  {
    if stored.magic == UPTIME_COUNTER_EMPTY then Some(Values(UPTIME_COUNTER_MAGIC, 0))
    else if stored.magic != UPTIME_COUNTER_MAGIC then None
    else Some(stored)
  }

  /** The elapsed ticks of a counter reading: as read when the RTC counts
      up, `top - raw` in `uint32` arithmetic when it counts down. */
  function Normalize(countingUp: bool, top: uint32, raw: uint32): (now: uint32)
    ensures countingUp ==> now == raw
    ensures !countingUp && raw <= top ==> now == top - raw && now <= top
    ensures !countingUp && raw > top ==> now == TWO_32 + top - raw
  {
    if countingUp then raw else Wrap32(top - raw)
  }

  /** The ticks stored on a pass: the ticks found at start plus the RTC's
      current ticks, in `uint32` arithmetic. */
  function Accumulate(oldTicks: uint32, now: uint32): (ticks: uint32)
    ensures oldTicks + now < TWO_32 ==> ticks == oldTicks + now && oldTicks <= ticks
    ensures oldTicks + now >= TWO_32 ==> ticks == oldTicks + now - TWO_32 && ticks < oldTicks
  {
    Wrap32(oldTicks + now)
  }

  /** The uptime shown at boot: `counter_ticks_to_us` of the ticks, whole
      seconds cast to a 32-bit `int`, then C's truncating `/` and `%`. */
  function BootDisplay(totalUsec: uint64): (c: Clock)
  {
    var totalSec := ToInt32(totalUsec / USEC_PER_SEC);
    Clock(CDiv(totalSec, 3600), CDiv(CRem(totalSec, 3600), 60))
  }

  /** A second count whose `int` cast is non-negative is shown as whole
      hours and the minutes left over of that `int`; a count that fits the
      `int` is the one cast. */
  lemma BootDisplayInRange(totalUsec: uint64)
    requires 0 <= ToInt32(totalUsec / USEC_PER_SEC)
    ensures 0 <= BootDisplay(totalUsec).minutes < 60 && 0 <= BootDisplay(totalUsec).hours
    ensures var s := ToInt32(totalUsec / USEC_PER_SEC); var c := BootDisplay(totalUsec);
      c.hours * 3600 + c.minutes * 60 <= s < c.hours * 3600 + c.minutes * 60 + 60
    ensures totalUsec / USEC_PER_SEC < 0x8000_0000 ==> ToInt32(totalUsec / USEC_PER_SEC) == totalUsec / USEC_PER_SEC
  {
  }

  /** A second count past the `int` range wraps to a negative `int`, and
      then hours and minutes are both shown non-positive. */
  lemma BootDisplayWrapped(totalUsec: uint64)
    requires 0x8000_0000 <= (totalUsec / USEC_PER_SEC) % TWO_32
    ensures BootDisplay(totalUsec).hours <= 0 && -60 < BootDisplay(totalUsec).minutes <= 0
    ensures var s := ToInt32(totalUsec / USEC_PER_SEC); var c := BootDisplay(totalUsec);
      s < 0 && c.hours * 3600 + c.minutes * 60 - 60 < s <= c.hours * 3600 + c.minutes * 60
  {
  }

  /** Index of the first pass that ends the loop: a failed counter read or
      a failed write; `|passes|` when there is none. */
  function FirstHalt(passes: seq<Pass>): (i: nat)
    ensures i <= |passes|
    ensures forall j :: 0 <= j < i ==> passes[j].read.rc == 0 && passes[j].writeRc >= 0
    ensures i < |passes| ==> passes[i].read.rc != 0 || passes[i].writeRc < 0
  {
    if passes == [] then 0
    else if passes[0].read.rc != 0 || passes[0].writeRc < 0 then 0
    else 1 + FirstHalt(passes[1..])
  }

  /** Number of writes the loop makes: every pass up to the halting one,
      and the halting one too when its counter read succeeded. */
  function WritesMade(passes: seq<Pass>): (n: nat)
    ensures n <= |passes|
  {
    var h := FirstHalt(passes);
    if h < |passes| && passes[h].read.rc == 0 then h + 1 else h
  }

  /** The record written on pass `n`: the magic kept, the ticks found at
      start plus that pass's elapsed ticks. */
  function RecordOn(start: Values, countingUp: bool, top: uint32, p: Pass): (r: Values)
    ensures r.magic == start.magic
  {
    Values(start.magic, Accumulate(start.ticks, Normalize(countingUp, top, p.read.raw)))
  }

  /** uptime_counter: check both devices, read and validate the record,
      show the uptime, then on each pass read the RTC and store the ticks
      found at start plus the current ticks, until a read or write fails. */
  method SnvsUptimeCounter(
    devicesReady: bool, readRc: int, stored: Values, countingUp: bool, top: uint32,
    boot: CounterRead, toUs: uint32 -> uint64, passes: seq<Pass>)
    returns (exit: Exit, shown: Option<Clock>, written: seq<Values>)
    ensures !devicesReady ==> exit == NoDevice && shown == None && written == []
    ensures devicesReady && readRc < 0 ==> exit == ReadFailed && shown == None && written == []
    ensures devicesReady && readRc >= 0 && Start(stored).None? ==>
      exit == BadHeader && shown == None && written == []
    ensures devicesReady && readRc >= 0 && Start(stored).Some? && boot.rc != 0 ==>
      exit == CounterFailed && shown == None && written == []
    ensures devicesReady && readRc >= 0 && Start(stored).Some? && boot.rc == 0 ==>
      var start := Start(stored).value;
      && shown == Some(BootDisplay(toUs(Accumulate(start.ticks, Normalize(countingUp, top, boot.raw)))))
      && |written| == WritesMade(passes)
      && (forall n :: 0 <= n < |written| ==> written[n] == RecordOn(start, countingUp, top, passes[n]))
      && (exit == Running <==> FirstHalt(passes) == |passes|)
      && (FirstHalt(passes) < |passes| ==>
            exit == if passes[FirstHalt(passes)].read.rc != 0 then CounterFailed else WriteFailed)
  {
    written := [];
    if !devicesReady {
      return NoDevice, None, [];
    }
    if readRc < 0 {
      return ReadFailed, None, [];
    }
    var start := Start(stored);
    if start.None? {
      return BadHeader, None, [];
    }
    var values := start.value;
    var oldTicks := values.ticks;
    var nowTicks := Normalize(countingUp, top, boot.raw);
    if boot.rc != 0 {
      return CounterFailed, None, [];
    }
    shown := Some(BootDisplay(toUs(Accumulate(oldTicks, nowTicks))));
    var k := 0;
    while k < |passes|
      invariant 0 <= k <= |passes|
      invariant values.magic == start.value.magic
      invariant |written| == k
      invariant forall n :: 0 <= n < k ==> written[n] == RecordOn(start.value, countingUp, top, passes[n])
      invariant forall j :: 0 <= j < k ==> passes[j].read.rc == 0 && passes[j].writeRc >= 0
    {
      var rc := passes[k].read.rc;
      nowTicks := Normalize(countingUp, top, passes[k].read.raw);
      if rc != 0 {
        assert FirstHalt(passes) == k;
        return CounterFailed, shown, written;
      }
      values := values.(ticks := Accumulate(oldTicks, nowTicks));
      written := written + [values];
      if passes[k].writeRc < 0 {
        assert FirstHalt(passes) == k;
        return WriteFailed, shown, written;
      }
      k := k + 1;
    }
    assert FirstHalt(passes) == |passes|;
    exit := Running;
  }
}
