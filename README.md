# Selective-call tone engine, uptime counters and DAC sawtooth — a Dafny model

This project models the demo threads of an embedded board-support collection
that carry real logic, and proves properties of the model.

**Selective-call tone engine** (`audio_selcall.dfy`, module `AudioSelcall`).
This is the main part:
- A static slab of `NUM_BLOCKS` (4) audio blocks.
- `fill_buf`, which copies a mono tone into both channels of an interleaved
  stereo block.
- The priming of the blocks with tone 697, the first block write and the I2S
  trigger.
- `play_tone`, which refills all four blocks and then writes them
  round-robin until the tone's deadline, stopping at the first failed write.
- The forever sequencer, which plays 852, 1393, 1020, 2100 and 1153 Hz and
  then pauses.

The engine is a `class Engine`:
- `slab` holds the four distinct block arrays.
- `txBlock` holds the handles taken from the slab.
- `calls` logs every call made on the audio sink: the codec start, each
  block write with the block's contents when `i2s_write` is called, and the
  trigger.
- `schedule` logs every tone the sequencer played, with the value
  `play_tone` returned, and every pause.

The slab allocator, `i2s_write`, `i2s_trigger` and
`audio_codec_start_output` are oracles. Each call of the first three is
handed the reply the driver gives; `audio_codec_start_output` returns
nothing and is only logged. The 100 ms deadline of a tone window is represented by the
window's reply script, which holds one reply per write issued before the
deadline expires.

**EEPROM uptime counter** (`uptime_counter.dfy`, module `UptimeCounter`).
The thread:
- validates the header of the persisted record (an empty EEPROM starts a
  fresh record, a foreign one is refused);
- shows hours and minutes;
- writes the record once per 60 s period, adding 60 to its `uint64`
  seconds.

**RTC uptime counter** (`snvs_uptime_counter.dfy`, module `SnvsUptimeCounter`).
The thread:
- performs the same header validation with its own magic;
- turns a down-counting RTC value into elapsed ticks (`top - raw`);
- shows the boot uptime through `counter_ticks_to_us`, a cast to `int` and
  C's truncating `/` and `%`;
- stores `old_ticks + now_ticks` in `uint32` arithmetic on every pass.

**DAC sawtooth** (`dac_sawtooth.dfy`, module `DacSawtooth`). The output value
climbs by 100 per period and resets to 0 once it would pass 4095.

`base.dfy` (module `Base`) holds what these share:
- the machine integer types and explicit 32/64-bit wrap-around;
- the conversion to a 32-bit `int`;
- C's truncating division;
- the scans that say how many calls a loop makes before the first failing
  reply.

Every forever loop is observed for a finite prefix. The loop runs while scripted
replies remain. A counter or DAC run that uses them all ends with the exit
`Running`; `Audio` ends with `Sequencing` once it has reached the sequencer.

## Model

| member | source | states |
|---|---|---|
| AudioSelcall.Filled | app/common/modules/audio_selcall/audio_selcall.c:39-47 | the block fill_buf leaves: the tone on both channels, then the rest of the block as it was; the length of the block is kept |
| AudioSelcall.Interleave | app/common/modules/audio_selcall/audio_selcall.c:39-47 | a stereo block made from a tone holds two samples per mono sample |
| AudioSelcall.FillBuf | app/common/modules/audio_selcall/audio_selcall.c:39-47 | after fill_buf the block is the tone interleaved on both channels followed by the block's own untouched remainder; only indices below 2*len are written |
| AudioSelcall.FilledFrames | app/common/modules/audio_selcall/audio_selcall.c:41-46 | after a fill, left sample 2i and right sample 2i+1 both equal origin[i] for every i, the length is kept, and every index from 2*len on is unchanged |
| AudioSelcall.DeinterleaveRoundTrip | app/common/modules/audio_selcall/audio_selcall.c:39-47 | de-interleaving the left or the right channel of a filled block gives back the tone exactly |
| AudioSelcall.FillIdempotent | app/common/modules/audio_selcall/audio_selcall.c:39-47 | filling a block twice with the same tone gives the same contents as filling it once |
| AudioSelcall.RefillOverwrites | app/common/modules/audio_selcall/audio_selcall.c:142-143 | refilling with a tone of the same length erases every trace of the earlier tone |
| AudioSelcall.FillWholeBlock | app/common/modules/audio_selcall/audio_selcall.c:33-47 | a tone of length L fills a block of exactly 2L samples (BLOCK_SIZE) completely, leaving nothing of the old contents |
| AudioSelcall.Advance | app/common/modules/audio_selcall/audio_selcall.c:152 | the cursor step always lands in [0, NUM_BLOCKS) |
| AudioSelcall.CursorAfter | app/common/modules/audio_selcall/audio_selcall.c:139-152 | the block index idx after k writes of a window, always in [0, NUM_BLOCKS) |
| AudioSelcall.CursorIsModulo | app/common/modules/audio_selcall/audio_selcall.c:139-152 | starting from idx = 0, after k steps the cursor is k mod NUM_BLOCKS |
| AudioSelcall.CursorReturns | app/common/modules/audio_selcall/audio_selcall.c:152 | after NUM_BLOCKS more steps the cursor is back where it was |
| AudioSelcall.ToneResult | app/common/modules/audio_selcall/audio_selcall.c:140-156 | play_tone's return value for a window's replies; what it means is stated by ToneResultMeaning |
| AudioSelcall.ToneResultMeaning | app/common/modules/audio_selcall/audio_selcall.c:140-156 | play_tone's result is negative exactly when some write failed, and is then the first failing write's reply; otherwise it is the last write's reply, or 0 when no write was issued |
| AudioSelcall.WindowCalls | app/common/modules/audio_selcall/audio_selcall.c:146-153 | the writes of one play_tone window, never more than the window has replies; their order and stopping point are stated by WindowOrder and WindowStopsAtFailure |
| AudioSelcall.WindowOrder | app/common/modules/audio_selcall/audio_selcall.c:146-153 | write k of a window sends block CursorAfter(k) (0, 1, 2, 3, 0, ...) with the filled samples and gets reply k, and every write before the last one succeeded |
| AudioSelcall.WindowStopsAtFailure | app/common/modules/audio_selcall/audio_selcall.c:147-151 | when write i is the first to fail, exactly i+1 writes are issued and play_tone returns that write's reply |
| AudioSelcall.FullRingWindow | app/common/modules/audio_selcall/audio_selcall.c:146-153 | a window of four successful writes sends blocks 0..3 once each, in order, and leaves the cursor at 0 |
| AudioSelcall.PassSteps | app/common/modules/audio_selcall/audio_selcall.c:201-221 | the six steps of one pass of the forever loop: five tones with play_tone's results, then the pause |
| AudioSelcall.PassCalls | app/common/modules/audio_selcall/audio_selcall.c:201-221 | the sink calls of one pass of the forever loop: the writes of the 852, 1393, 1020, 2100 and 1153 windows, in that order |
| AudioSelcall.ScheduleOf | app/common/modules/audio_selcall/audio_selcall.c:200-222 | the steps of a run of passes, pass after pass; its length and indexing are stated by ScheduleLength and ScheduleIndex |
| AudioSelcall.ScheduleOfExtend | app/common/modules/audio_selcall/audio_selcall.c:200-222 | one more pass extends the schedule by exactly that pass's six steps |
| AudioSelcall.CallsOf | app/common/modules/audio_selcall/audio_selcall.c:200-222 | the sink calls of a run of passes: for each pass, the writes of its five tone windows in the order the tones are played |
| AudioSelcall.CallsOfExtend | app/common/modules/audio_selcall/audio_selcall.c:200-222 | one more pass extends the sink calls by exactly that pass's five windows of writes |
| AudioSelcall.ScheduleLength | app/common/modules/audio_selcall/audio_selcall.c:200-222 | every pass of the forever loop contributes exactly six steps |
| AudioSelcall.PassStepAt | app/common/modules/audio_selcall/audio_selcall.c:201-221 | step j of a pass plays the j-th tone of 852, 1393, 1020, 2100, 1153 with its play_tone result, and step 5 is the pause |
| AudioSelcall.ScheduleIndex | app/common/modules/audio_selcall/audio_selcall.c:200-222 | step 6c+j of the whole schedule is step j of pass c |
| AudioSelcall.ScheduleOrder | app/common/modules/audio_selcall/audio_selcall.c:200-222 | in every pass c, the tones are played in the fixed order and then the pause follows, whatever the results; a failed tone skips no later tone |
| AudioSelcall.Engine.constructor | app/common/modules/audio_selcall/audio_selcall.c:56-61 | the slab holds NUM_BLOCKS distinct fresh regions of BLOCK_SIZE (2*len samples), nothing taken yet, empty logs |
| AudioSelcall.Engine.SlabAlloc | app/common/modules/audio_selcall/audio_selcall.c:170 | a successful allocation hands out the next region of the slab as the next tx_block entry; a failed one changes nothing |
| AudioSelcall.Engine.I2sWrite | app/common/modules/audio_selcall/audio_selcall.c:147 | logs the write of the block together with the block's contents when i2s_write is called, and returns the sink's reply |
| AudioSelcall.Engine.I2sTrigger | app/common/modules/audio_selcall/audio_selcall.c:194 | logs the trigger and returns the sink's reply |
| AudioSelcall.Engine.CodecStartOutput | app/common/modules/audio_selcall/audio_selcall.c:182 | logs the codec start |
| AudioSelcall.Engine.RefillAll | app/common/modules/audio_selcall/audio_selcall.c:142-143 | before any write, all NUM_BLOCKS blocks hold the new tone on both channels |
| AudioSelcall.Engine.StreamWindow | app/common/modules/audio_selcall/audio_selcall.c:145-156 | the calls issued are exactly the window's round-robin writes up to and including the first failure, and the value returned is ToneResult of the window |
| AudioSelcall.Engine.PlayTone | app/common/modules/audio_selcall/audio_selcall.c:136-157 | play_tone leaves every block holding the tone, appends exactly its window's writes to the sink log, and returns ToneResult |
| AudioSelcall.Engine.PlayPass | app/common/modules/audio_selcall/audio_selcall.c:201-221 | one pass plays the five tones in order, each regardless of the previous result; the sink log grows by the five windows' writes and the schedule by the pass's six steps |
| AudioSelcall.Engine.RunSequencer | app/common/modules/audio_selcall/audio_selcall.c:200-222 | after any number of passes the sink log and the schedule are the concatenation of the passes' writes and steps; the blocks hold tone 1153 after at least one pass, and with no passes they keep the tone they held |
| AudioSelcall.Engine.Prime | app/common/modules/audio_selcall/audio_selcall.c:169-176 | blocks are taken in index order and each is filled with tone 697; every allocation before the stop succeeded, the loop succeeds exactly when all NUM_BLOCKS blocks were taken, and otherwise the allocation at the stop failed and the later blocks are untouched |
| AudioSelcall.Engine.Audio | app/common/modules/audio_selcall/audio_selcall.c:160-223 | a failed allocation stops before any sink call; otherwise codec start, then a write of block 0 (holding tone 697), then the trigger; a failed write or trigger stops before sequencing; otherwise the sink log after those three calls and the schedule are exactly the sequencer's |
| UptimeCounter.Start | app/common/modules/uptime_counter/uptime_counter.c:56-63 | an empty header (0xFFFFFFFF) becomes {0xA3EE9703, 0 s}, a record with the magic is kept unchanged, any other header is refused; an accepted record always carries the magic |
| UptimeCounter.Display | app/common/modules/uptime_counter/uptime_counter.c:65-66 | minutes < 60 and hours*3600 + minutes*60 <= seconds < hours*3600 + minutes*60 + 60 |
| UptimeCounter.RecordAt | app/common/modules/uptime_counter/uptime_counter.c:68-78 | the n-th write keeps the magic and carries seconds0 + 60n (wrapping in uint64 only past 2^64) |
| UptimeCounter.NextRecord | app/common/modules/uptime_counter/uptime_counter.c:77 | each written record is the previous one with the uint64 seconds advanced by exactly 60 |
| UptimeCounter.UptimeCounter | app/common/modules/uptime_counter/uptime_counter.c:40-81 | a not-ready device, a failed read or a refused header ends the thread with no write; otherwise the uptime is shown, write n carries RecordAt(start, n), the writes stop right after the first failed one, and the thread ends with WriteFailed exactly when a write failed |
| SnvsUptimeCounter.Start | app/src/uptime_counter.c:83-90 | an empty header becomes {0xEE9703, 0 ticks}, a record with the magic is kept unchanged, any other header is refused; an accepted record always carries the magic |
| SnvsUptimeCounter.Normalize | app/src/uptime_counter.c:95-97 | an up-counting value is used as read; a down-counting one becomes top - raw in uint32, which lies in [0, top] when raw <= top and is TWO_32 + top - raw otherwise |
| SnvsUptimeCounter.Accumulate | app/src/uptime_counter.c:119 | the stored ticks are old + now when that fits in 32 bits (and then not below old), and old + now - 2^32 below old otherwise |
| SnvsUptimeCounter.BootDisplay | app/src/uptime_counter.c:104-106 | the hours and minutes shown at boot, from the microsecond count through the int cast and C's / and %; its range is stated by BootDisplayInRange and BootDisplayWrapped |
| SnvsUptimeCounter.BootDisplayInRange | app/src/uptime_counter.c:104-106 | whenever the int cast s of the seconds is non-negative (also for counts of 2^32 or more), minutes are in [0, 60) and hours*3600 + minutes*60 <= s < hours*3600 + minutes*60 + 60; a count below 2^31 is s itself |
| SnvsUptimeCounter.BootDisplayWrapped | app/src/uptime_counter.c:105-106 | when the cast to int wraps to a negative count, hours <= 0, minutes are in (-60, 0], and the count lies in (h*3600 + m*60 - 60, h*3600 + m*60] |
| SnvsUptimeCounter.FirstHalt | app/src/uptime_counter.c:108-129 | every pass before the returned index read the counter and wrote successfully, and the pass at that index has a failed read or write |
| SnvsUptimeCounter.WritesMade | app/src/uptime_counter.c:108-129 | the number of EEPROM writes the loop makes, never more than the passes observed: one per pass up to the first halt, plus the failing write when the halt is a failed write |
| SnvsUptimeCounter.RecordOn | app/src/uptime_counter.c:119-122 | every record written keeps the header's magic |
| SnvsUptimeCounter.SnvsUptimeCounter | app/src/uptime_counter.c:61-132 | a missing device, failed read, refused header or failed boot counter read ends the thread with no write; otherwise the boot uptime is shown from old_ticks + now_ticks, write n stores the magic and Accumulate(old_ticks, that pass's ticks), a failed counter read ends the loop before its write, a failed write ends it right after, and the exit names which one |
| DacSawtooth.NextOutput | app/common/modules/dac_sawtooth/dac_sawtooth.c:60-62 | the next value never exceeds 4095; it is v + 100 when that fits and 0 when the sum exceeds 4095 |
| DacSawtooth.SawtoothValue | app/common/modules/dac_sawtooth/dac_sawtooth.c:36-62 | every write's value is at most 4000 and a multiple of 100 |
| DacSawtooth.SawtoothStep | app/common/modules/dac_sawtooth/dac_sawtooth.c:60-62 | the stepping rule takes write n's value to write n+1's, so the closed form (n mod 41)*100 is the stepped sequence starting at 0 |
| DacSawtooth.SawtoothRange | app/common/modules/dac_sawtooth/dac_sawtooth.c:52-62 | every value written lies in [0, 4095] and is a multiple of 100, and the peak 4000 is reached |
| DacSawtooth.SawtoothPeriod | app/common/modules/dac_sawtooth/dac_sawtooth.c:51-63 | the sequence 0, 100, ..., 4000, 0, ... repeats every 41 writes, and no shorter shift starts it over |
| DacSawtooth.DacSawtooth | app/common/modules/dac_sawtooth/dac_sawtooth.c:32-66 | a not-ready device or failed setup means no write; otherwise write n sends SawtoothValue(n), the first failed write is the last one made, and the thread ends with WriteFailed exactly when a write failed |
| Base.Wrap32 | app/src/uptime_counter.c:119 | the uint32 wrap of an arithmetic result (also top - raw at app/src/uptime_counter.c:96 and output_value += DAC_STEPS at dac_sawtooth.c:60); its effect is stated by Normalize, Accumulate and NextOutput |
| Base.Wrap64 | app/common/modules/uptime_counter/uptime_counter.c:77 | the uint64 wrap of values.seconds += 60; WrapAfterAdd64 states that step-by-step wrapping equals one wrapped sum |
| Base.ToInt32 | app/src/uptime_counter.c:105 | the cast to a 32-bit int agrees with the value modulo 2^32 and keeps values below 2^31 |
| Base.CDiv | app/src/uptime_counter.c:106 | C division truncates toward zero: for a >= 0 the quotient is non-negative with a remainder in [0, b), for a < 0 it is non-positive with a remainder in (-b, 0] |
| Base.CRem | app/src/uptime_counter.c:106 | C's remainder satisfies a == (a/b)*b + a%b and takes the dividend's sign, with magnitude below b |
| Base.WrapAfterAdd64 | app/common/modules/uptime_counter/uptime_counter.c:77 | adding in uint64 step by step gives the same result as one wrapped sum |
| Base.FirstNegative | app/common/modules/audio_selcall/audio_selcall.c:169-176 | the first negative reply's index: every earlier reply is non-negative and the one at the index (if any) is negative |
| Base.CallsUntilNegative | app/common/modules/audio_selcall/audio_selcall.c:146-153 | the number of calls of a loop that returns right after a negative reply (the i2s_write calls of a window, and the dac_write_value calls of dac_sawtooth.c:51-56), never more than the replies; its meaning is stated by CallsUntilNegativeMeaning |
| Base.CallsUntilNegativeMeaning | app/common/modules/audio_selcall/audio_selcall.c:146-153 | a loop that returns on a negative reply makes calls up to and including the first negative reply, and all of them when there is none |
| Base.FirstNonZero | app/common/modules/uptime_counter/uptime_counter.c:69-73 | the index of the write at which the EEPROM loop stops: every earlier reply is zero and the one at the index (if any) is not |
| Base.CallsUntilNonZero | app/common/modules/uptime_counter/uptime_counter.c:68-78 | the number of EEPROM writes the loop makes, never more than the replies; its meaning is stated by CallsUntilNonZeroMeaning |
| Base.CallsUntilNonZeroMeaning | app/common/modules/uptime_counter/uptime_counter.c:68-78 | a loop that returns on a non-zero reply makes calls up to and including the first non-zero reply, and all of them when there is none |

Notes on the code that the model follows:
- `audio` ignores the result of `init_audio`. Its fatal exits are a failed
  slab allocation, a failed first write and a failed trigger.
- Only block 0 is written before the trigger.
- `play_tone` refills all four blocks with its tone on every call.
- The blocks are written without checking a tone's length against the
  block: `fill_buf` reads SELCALL_TONE_LEN samples of every tone it is
  given, and BLOCK_SIZE is twice that. The model takes both as assumptions;
  `Engine.Valid` states them.

## Left out

- `init_audio` (codec and I2S configuration): driver calls whose effects are not visible. Its result is ignored by `audio` anyway.
- Internals of the slab allocator, `i2s_write`, `i2s_trigger` and `audio_codec_start_output`, and the DMA completion that recycles blocks: the model handles them as oracles with scripted replies. The `K_FOREVER` wait inside the allocator is not modelled; an allocation simply succeeds or fails.
- Wall-clock time:
  - `sys_timepoint_calc`/`sys_timepoint_expired` become the length of each window's reply script.
  - The 10 ms settle, the sequencer's 1 s pause, the counters' 60 s sleeps and the DAC's 200 ms sleep are not modelled. The sequencer's pause is a logged step.
- The `WB_UP` rounding of the slab's block stride: each region is modelled as exactly BLOCK_SIZE bytes (2*SELCALL_TONE_LEN samples). The padding is never read or written.
- The driver's later transmission of a written block: `i2s_write` hands the block over, and the driver transmits it afterwards. The model logs the block's contents at the call. A following `play_tone` refills all four blocks, so it may overwrite blocks that are still queued; the model does not capture what is then actually sent.
- The tone tables (`selcall_tones.h` is not part of this model): each tone is an arbitrary `seq<int16>` of a common length, given to the constructor.
- `CONFIG_PHYTEC_KIT_TESTING`: the model takes the default build, in which `audio_codec_start_output` is called.
- Logging and `printk`, including the fact that every sequencer failure message names tone 852.
- `counter_start`, the device lookup helpers and `device_is_ready`: each lookup becomes a ready flag. `counter_ticks_to_us` is the parameter `toUs`. `counter_is_counting_up` and `counter_get_top_value` are the device constants `countingUp` and `top`.
- The byte layout, packing and endianness of the persisted EEPROM records: a record is a value with a magic field and a counter field.
- Thread definitions, stacks and priorities (`K_THREAD_DEFINE`), and the other demo threads of the repository (LED, button, UART, USB, display, camera, watchdog, main).
- PlayTone and the methods above it need each tone to have exactly SELCALL_TONE_LEN samples (the model's `toneLen`). The code never checks this: `fill_buf` reads SELCALL_TONE_LEN samples of every tone it is given, and the model takes that length as an assumption on the tone table.
- A missing DAC: `dac` comes from `DEVICE_DT_GET_OR_NULL`, and the not-ready path's log message reads `dac->name`, so a NULL device would fault there rather than return. Logging is not modelled; DacSawtooth treats a missing device like one that is not ready and returns NotReady.
