/** The EEPROM uptime counter thread: validate the persisted record's
    header, show the stored uptime, then write the record back once per
    period while adding the period to its seconds.

    The EEPROM is an oracle: the read is given as its status and the record
    it returned, each write as its reply. The forever loop is observed for
    as many periods as there are write replies. */
module UptimeCounter {
  import opened Base

  /** Seconds between two writes. */
  const SLEEP_TIME_S: nat := 60
  const UPTIME_COUNTER_MAGIC: uint32 := 0xA3EE_9703
  const UPTIME_COUNTER_EMPTY: uint32 := 0xFFFF_FFFF

  /** The persisted record: a header word and the uptime in seconds. */
  datatype Values = Values(magic: uint32, seconds: uint64)

  /** How the thread ended, or that it is still counting. */
  datatype Exit = NotReady | ReadFailed | BadHeader | WriteFailed | Running

  /** The header check: an empty EEPROM starts a fresh record, one with the
      counter's magic is resumed, anything else is refused. */
  function Start(stored: Values): (r: Option<Values>)
    ensures r.Some? ==> r.value.magic == UPTIME_COUNTER_MAGIC
    ensures stored.magic == UPTIME_COUNTER_EMPTY ==> r == Some(Values(UPTIME_COUNTER_MAGIC, 0))
    ensures stored.magic == UPTIME_COUNTER_MAGIC ==> r == Some(stored)
    ensures r.None? <==> stored.magic != UPTIME_COUNTER_EMPTY && stored.magic != UPTIME_COUNTER_MAGIC
  {
    if stored.magic == UPTIME_COUNTER_EMPTY then Some(Values(UPTIME_COUNTER_MAGIC, 0))
    else if stored.magic != UPTIME_COUNTER_MAGIC then None
    else Some(stored)
  }

  /** Hours and minutes shown for an uptime of `seconds`. */
  function Display(seconds: uint64): (c: Clock)
    ensures 0 <= c.hours && 0 <= c.minutes < 60
    ensures c.hours * 3600 + c.minutes * 60 <= seconds < c.hours * 3600 + c.minutes * 60 + 60
  {
    Clock(seconds / 3600, (seconds % 3600) / 60)
  }

  /** The record carried by write `n` (0-based) of a run started at `start`:
      the seconds field is a `uint64` and wraps around. */
  function RecordAt(start: Values, n: nat): (r: Values)
    ensures r.magic == start.magic
    ensures start.seconds + SLEEP_TIME_S * n < TWO_64 ==> r.seconds == start.seconds + SLEEP_TIME_S * n
  {
    Values(start.magic, Wrap64(start.seconds + SLEEP_TIME_S * n))
  }

  /** Each write carries the previous one's record with one period added. */
  lemma NextRecord(start: Values, n: nat)
    ensures RecordAt(start, n + 1) == RecordAt(start, n).(seconds := Wrap64(RecordAt(start, n).seconds + SLEEP_TIME_S))
  {
    WrapAfterAdd64(start.seconds + SLEEP_TIME_S * n, SLEEP_TIME_S);
  }

  /** uptime_counter: check the device, read and validate the record, show
      the uptime, then write the record and add a period until a write
      fails; `writeReplies` are the replies of the writes, in order. */
  method UptimeCounter(ready: bool, readStatus: int, stored: Values, writeReplies: seq<int>)
    returns (exit: Exit, shown: Option<Clock>, written: seq<Values>)
    ensures !ready ==> exit == NotReady && shown == None && written == []
    ensures ready && readStatus != 0 ==> exit == ReadFailed && shown == None && written == []
    ensures ready && readStatus == 0 && Start(stored).None? ==>
      exit == BadHeader && shown == None && written == []
    ensures ready && readStatus == 0 && Start(stored).Some? ==>
      && shown == Some(Display(Start(stored).value.seconds))
      && |written| == CallsUntilNonZero(writeReplies)
      && (forall n :: 0 <= n < |written| ==> written[n] == RecordAt(Start(stored).value, n))
      && (exit == WriteFailed <==> exists j :: 0 <= j < |writeReplies| && writeReplies[j] != 0)
      && (exit == Running <==> forall j :: 0 <= j < |writeReplies| ==> writeReplies[j] == 0)
  {
    written := [];
    if !ready {
      return NotReady, None, [];
    }
    if readStatus != 0 {
      return ReadFailed, None, [];
    }
    var start := Start(stored);
    if start.None? {
      return BadHeader, None, [];
    }
    var values := start.value;
    shown := Some(Display(values.seconds));
    CallsUntilNonZeroMeaning(writeReplies);
    var k := 0;
    while k < |writeReplies|
      invariant 0 <= k <= |writeReplies|
      invariant values == RecordAt(start.value, k)
      invariant |written| == k
      invariant forall n :: 0 <= n < k ==> written[n] == RecordAt(start.value, n)
      invariant forall j :: 0 <= j < k ==> writeReplies[j] == 0
    {
      written := written + [values];
      if writeReplies[k] != 0 {
        assert FirstNonZero(writeReplies) == k;
        return WriteFailed, shown, written;
      }
      NextRecord(start.value, k);
      values := values.(seconds := Wrap64(values.seconds + SLEEP_TIME_S));
      k := k + 1;
    }
    exit := Running;
  }
}
