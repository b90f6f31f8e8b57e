/** The selective-call tone streaming engine: a slab of NUM_BLOCKS fixed
    audio blocks, the filler that spreads a mono tone over both stereo
    channels of a block, the stream driver that feeds the blocks to the I2S
    sink in round-robin order until the tone's deadline, and the sequencer
    that plays the fixed five-tone pattern forever.

    The I2S/codec sink and the kernel slab allocator are oracles: each call
    is given the reply the driver returns and is recorded in `Engine.calls`.
    The 100 ms deadline of a tone window is represented by the window's reply
    script: it holds one reply for every write that is issued before the
    deadline expires. */
module AudioSelcall {
  import opened Base

  const NUM_BLOCKS: nat := 4
  const NUMBER_OF_CHANNELS: nat := 2

  /** The selective-call pattern, in the order the sequencer plays it. */
  const SEQUENCE: seq<nat> := [852, 1393, 1020, 2100, 1153]

  /** One tone table: SELCALL_TONE_LEN signed 16-bit samples. */
  type Tone = seq<int16>

  /** The six tone tables the engine plays, by frequency in Hz. */
  datatype ToneTable = ToneTable(
    tone697: Tone, tone852: Tone, tone1393: Tone, tone1020: Tone, tone2100: Tone, tone1153: Tone)

  /** Every tone table is `toneLen` samples long. */
  ghost predicate ToneTableOk(tones: ToneTable, toneLen: nat) {
    && |tones.tone697| == toneLen && |tones.tone852| == toneLen
    && |tones.tone1393| == toneLen && |tones.tone1020| == toneLen
    && |tones.tone2100| == toneLen && |tones.tone1153| == toneLen
  }

  // ---------------------------------------------------------------------
  // Buffer filler
  // ---------------------------------------------------------------------

  /** A mono tone laid out as interleaved stereo samples: sample `i` of the
      tone at positions `2*i` (left) and `2*i+1` (right). */
  function Interleave(tone: Tone): (block: seq<int16>)
    ensures |block| == NUMBER_OF_CHANNELS * |tone|
  {
    seq(2 * |tone|, k requires 0 <= k < 2 * |tone| => tone[k / 2])
  }

  /** The block `block` after `fill_buf` has written `tone` into it. */
  function Filled(block: seq<int16>, tone: Tone): (filled: seq<int16>)
    requires 2 * |tone| <= |block|
    ensures |filled| == |block|
  {
    Interleave(tone) + block[2 * |tone|..]
  }

  /** The left channel of an interleaved block. */
  function LeftChannel(block: seq<int16>): seq<int16> {
    seq(|block| / 2, i requires 0 <= i < |block| / 2 => block[2 * i])
  }

  /** The right channel of an interleaved block. */
  function RightChannel(block: seq<int16>): seq<int16> {
    seq(|block| / 2, i requires 0 <= i < |block| / 2 => block[2 * i + 1])
  }

  /** fill_buf: copies each mono sample of `origin` into both channels. */
  method FillBuf(block: array<int16>, origin: Tone)
    requires 2 * |origin| <= block.Length
    modifies block
    ensures block[..] == Filled(old(block[..]), origin)
  {
    for i := 0 to |origin|
      invariant forall k :: 0 <= k < 2 * i ==> block[k] == origin[k / 2]
      invariant forall k :: 2 * i <= k < block.Length ==> block[k] == old(block[k])
    {
      block[2 * i] := origin[i];
      block[2 * i + 1] := origin[i];
    }
    assert block[..] == Filled(old(block[..]), origin) by {
      forall k | 0 <= k < block.Length
        ensures block[..][k] == Filled(old(block[..]), origin)[k]
      {
        if k < 2 * |origin| {
          assert Filled(old(block[..]), origin)[k] == Interleave(origin)[k];
        }
      }
    }
  }

  /** After a fill, left and right sample of every frame equal the tone's
      sample, and the rest of the block is what it was. */
  lemma FilledFrames(block: seq<int16>, tone: Tone)
    requires 2 * |tone| <= |block|
    ensures |Filled(block, tone)| == |block|
    ensures forall i :: 0 <= i < |tone| ==>
      Filled(block, tone)[2 * i] == tone[i] && Filled(block, tone)[2 * i + 1] == tone[i]
    ensures forall k :: 2 * |tone| <= k < |block| ==> Filled(block, tone)[k] == block[k]
  {
    var f := Filled(block, tone);
    forall i | 0 <= i < |tone|
      ensures f[2 * i] == tone[i] && f[2 * i + 1] == tone[i]
    {
      assert f[2 * i] == Interleave(tone)[2 * i];
      assert f[2 * i + 1] == Interleave(tone)[2 * i + 1];
    }
  }

  /** De-interleaving either channel gives back the tone. */
  lemma DeinterleaveRoundTrip(tone: Tone)
    ensures LeftChannel(Interleave(tone)) == tone
    ensures RightChannel(Interleave(tone)) == tone
  {
    var b := Interleave(tone);
    assert |b| / 2 == |tone|;
    forall i | 0 <= i < |tone|
      ensures LeftChannel(b)[i] == tone[i] && RightChannel(b)[i] == tone[i]
    {
      assert b[2 * i] == tone[(2 * i) / 2];
      assert b[2 * i + 1] == tone[(2 * i + 1) / 2];
    }
  }

  /** Filling a block twice with the same tone leaves what filling once does. */
  lemma FillIdempotent(block: seq<int16>, tone: Tone)
    requires 2 * |tone| <= |block|
    ensures Filled(Filled(block, tone), tone) == Filled(block, tone)
  {
    var f := Filled(block, tone);
    assert f[2 * |tone|..] == block[2 * |tone|..];
  }

  /** A fill overwrites everything an earlier fill of the same length wrote:
      the block's earlier tone leaves no trace. */
  lemma RefillOverwrites(block: seq<int16>, first: Tone, second: Tone)
    requires |first| == |second| && 2 * |first| <= |block|
    ensures Filled(Filled(block, first), second) == Filled(block, second)
  {
    var f := Filled(block, first);
    assert f[2 * |second|..] == block[2 * |second|..];
  }

  /** A tone fills a block of exactly twice its length with no sample of the
      earlier contents left. */
  lemma FillWholeBlock(block: seq<int16>, tone: Tone)
    requires |block| == 2 * |tone|
    ensures Filled(block, tone) == Interleave(tone)
  {
    assert block[2 * |tone|..] == [];
  }

  // ---------------------------------------------------------------------
  // Stream driver: cursor, writes issued, value returned
  // ---------------------------------------------------------------------

  /** The cursor step of play_tone: the next block of the ring. */
  function Advance(idx: nat): (next: nat)
    ensures next < NUM_BLOCKS
  {
    (idx + 1) % NUM_BLOCKS
  }

  /** The cursor after `k` steps from block 0. */
  function CursorAfter(k: nat): (idx: nat)
    ensures idx < NUM_BLOCKS
  {
    if k == 0 then 0 else Advance(CursorAfter(k - 1))
  }

  /** After `k` writes the cursor is `k mod NUM_BLOCKS`. */
  lemma {:induction false} CursorIsModulo(k: nat)
    ensures CursorAfter(k) == k % NUM_BLOCKS
  {
    if k > 0 {
      CursorIsModulo(k - 1);
    }
  }

  /** After NUM_BLOCKS more writes the cursor is back where it was. */
  lemma CursorReturns(k: nat)
    ensures CursorAfter(k + NUM_BLOCKS) == CursorAfter(k)
  {
    CursorIsModulo(k);
    CursorIsModulo(k + NUM_BLOCKS);
  }

  /** The value play_tone returns for a window whose writes get the replies
      in `window`: the first negative reply, else the last reply, else 0. */
  function ToneResult(window: seq<int>): int {
    var n := CallsUntilNegative(window);
    if n == 0 then 0 else window[n - 1]
  }

  /** play_tone fails exactly when one of its writes fails, and then with
      that write's error; otherwise it returns the last write's reply, or 0
      when the deadline allowed no write. */
  lemma ToneResultMeaning(window: seq<int>)
    ensures ToneResult(window) < 0 <==> exists j :: 0 <= j < |window| && window[j] < 0
    ensures ToneResult(window) < 0 ==> ToneResult(window) == window[FirstNegative(window)]
    ensures ToneResult(window) >= 0 ==>
      ToneResult(window) == if window == [] then 0 else window[|window| - 1]
  {
    CallsUntilNegativeMeaning(window);
  }

  /** One i2s_write call as the sink sees it, or one of its other calls. */
  datatype SinkCall =
    | StartOutput
    | Write(block: array<int16>, samples: seq<int16>, reply: int)
    | Trigger(reply: int)

  /** The writes play_tone issues in a window, blocks taken round-robin. */
  function WindowCalls(blocks: seq<array<int16>>, samples: seq<int16>, window: seq<int>): (r: seq<SinkCall>)
    requires |blocks| == NUM_BLOCKS
    ensures |r| <= |window|
  {
    seq(CallsUntilNegative(window), k requires 0 <= k < CallsUntilNegative(window) =>
      Write(blocks[k % NUM_BLOCKS], samples, window[k]))
  }

  /** Successive writes of a window target blocks 0, 1, 2, 3, 0, ... of the
      ring, each sends the filled samples, and a write exists exactly for
      every reply up to and including the first failing one. */
  lemma WindowOrder(blocks: seq<array<int16>>, samples: seq<int16>, window: seq<int>, k: nat)
    requires |blocks| == NUM_BLOCKS
    requires k < |WindowCalls(blocks, samples, window)|
    ensures WindowCalls(blocks, samples, window)[k] == Write(blocks[CursorAfter(k)], samples, window[k])
    ensures k + 1 < |WindowCalls(blocks, samples, window)| ==> window[k] >= 0
  {
    CallsUntilNegativeMeaning(window);
    CursorIsModulo(k);
  }

  /** A window with a failing write stops right after it: later replies are
      never asked for and the failure is what play_tone returns. */
  lemma WindowStopsAtFailure(blocks: seq<array<int16>>, samples: seq<int16>, window: seq<int>, i: nat)
    requires |blocks| == NUM_BLOCKS
    requires i < |window| && window[i] < 0
    requires forall j :: 0 <= j < i ==> window[j] >= 0
    ensures |WindowCalls(blocks, samples, window)| == i + 1
    ensures ToneResult(window) == window[i]
  {
    CallsUntilNegativeMeaning(window);
    assert window[i] < 0;
  }

  /** A window of four successful writes sends each block once, in ring
      order, and leaves the cursor back at block 0. */
  lemma FullRingWindow(blocks: seq<array<int16>>, samples: seq<int16>, window: seq<int>)
    requires |blocks| == NUM_BLOCKS && |window| == NUM_BLOCKS
    requires forall j :: 0 <= j < |window| ==> window[j] >= 0
    ensures |WindowCalls(blocks, samples, window)| == NUM_BLOCKS
    ensures forall k :: 0 <= k < NUM_BLOCKS ==> WindowCalls(blocks, samples, window)[k].block == blocks[k]
    ensures CursorAfter(NUM_BLOCKS) == 0
  {
    CallsUntilNegativeMeaning(window);
    CursorIsModulo(NUM_BLOCKS);
  }

  // ---------------------------------------------------------------------
  // Tone sequencer
  // ---------------------------------------------------------------------

  /** What the sequencer does: play a tone (with play_tone's result) or pause. */
  datatype Step = Played(freq: nat, result: int) | Pause

  /** The reply scripts of the five tone windows of one sequencer pass. */
  datatype PassReplies = PassReplies(
    w852: seq<int>, w1393: seq<int>, w1020: seq<int>, w2100: seq<int>, w1153: seq<int>)
  {
    /** The window of the `j`-th tone of the pass. */
    function Window(j: nat): seq<int>
      requires j < |SEQUENCE|
    {
      [w852, w1393, w1020, w2100, w1153][j]
    }
  }

  /** The steps of one pass of the forever loop. */
  function PassSteps(p: PassReplies): (steps: seq<Step>)
    ensures |steps| == 6
  {
    [ Played(852, ToneResult(p.w852)), Played(1393, ToneResult(p.w1393)),
      Played(1020, ToneResult(p.w1020)), Played(2100, ToneResult(p.w2100)),
      Played(1153, ToneResult(p.w1153)), Pause ]
  }

  /** The steps of passes `passes`, in order. */
  function ScheduleOf(passes: seq<PassReplies>): seq<Step> {
    if passes == [] then []
    else ScheduleOf(passes[..|passes| - 1]) + PassSteps(passes[|passes| - 1])
  }

  /** Six steps per pass. */
  lemma {:induction false} ScheduleLength(passes: seq<PassReplies>)
    ensures |ScheduleOf(passes)| == 6 * |passes|
  {
    if passes != [] {
      ScheduleLength(passes[..|passes| - 1]);
    }
  }

  /** Step `j` of a pass is the `j`-th tone of the pattern with its result,
      and the last step is the pause. */
  lemma PassStepAt(p: PassReplies, j: nat)
    requires j < 6
    ensures j < |SEQUENCE| ==> PassSteps(p)[j] == Played(SEQUENCE[j], ToneResult(p.Window(j)))
    ensures j == |SEQUENCE| ==> PassSteps(p)[j] == Pause
  {
  }

  /** Indexing a concatenation to the left of the seam. */
  lemma IndexAppendLeft<T>(a: seq<T>, b: seq<T>, k: nat)
    requires k < |a|
    ensures (a + b)[k] == a[k]
  {
  }

  /** Indexing a concatenation to the right of the seam. */
  lemma IndexAppend<T>(a: seq<T>, b: seq<T>, k: nat)
    requires |a| <= k < |a| + |b|
    ensures (a + b)[k] == b[k - |a|]
  {
  }

  /** Step `6 * c + j` of the schedule is step `j` of pass `c`. */
  lemma {:induction false} ScheduleIndex(passes: seq<PassReplies>, c: nat, j: nat)
    requires c < |passes| && j < 6
    ensures |ScheduleOf(passes)| == 6 * |passes|
    ensures ScheduleOf(passes)[6 * c + j] == PassSteps(passes[c])[j]
  {
    var init := passes[..|passes| - 1];
    var last := PassSteps(passes[|passes| - 1]);
    ScheduleLength(init);
    assert ScheduleOf(passes) == ScheduleOf(init) + last;
    assert |last| == 6;
    if c < |init| {
      ScheduleIndex(init, c, j);
      assert init[c] == passes[c];
      IndexAppendLeft(ScheduleOf(init), last, 6 * c + j);
    } else {
      IndexAppend(ScheduleOf(init), last, 6 * c + j);
    }
  }

  /** Every pass plays the five tones in the fixed order and then pauses,
      whatever the tones' results: a failed tone skips no later tone. */
  lemma ScheduleOrder(passes: seq<PassReplies>, c: nat, j: nat)
    requires c < |passes| && j < 6
    ensures |ScheduleOf(passes)| == 6 * |passes|
    ensures j < |SEQUENCE| ==>
      ScheduleOf(passes)[6 * c + j] == Played(SEQUENCE[j], ToneResult(passes[c].Window(j)))
    ensures j == |SEQUENCE| ==> ScheduleOf(passes)[6 * c + j] == Pause
  {
    ScheduleIndex(passes, c, j);
    PassStepAt(passes[c], j);
  }

  /** The sink calls of one pass: the five tone windows in order. */
  function PassCalls(blocks: seq<array<int16>>, tones: ToneTable, p: PassReplies): seq<SinkCall>
    requires |blocks| == NUM_BLOCKS
  {
    WindowCalls(blocks, Interleave(tones.tone852), p.w852)
      + WindowCalls(blocks, Interleave(tones.tone1393), p.w1393)
      + WindowCalls(blocks, Interleave(tones.tone1020), p.w1020)
      + WindowCalls(blocks, Interleave(tones.tone2100), p.w2100)
      + WindowCalls(blocks, Interleave(tones.tone1153), p.w1153)
  }

  /** Appending two pieces one after the other appends their concatenation. */
  lemma AppendTwo<T>(s: seq<T>, a: seq<T>, b: seq<T>)
    ensures s + a + b == s + (a + b)
  {
  }

  /** Appending five pieces one after the other appends their concatenation. */
  lemma AppendFive<T>(s: seq<T>, a: seq<T>, b: seq<T>, c: seq<T>, d: seq<T>, e: seq<T>)
    ensures s + a + b + c + d + e == s + (a + b + c + d + e)
  {
  }

  /** The sink calls of passes `passes`, in order. */
  function CallsOf(blocks: seq<array<int16>>, tones: ToneTable, passes: seq<PassReplies>): seq<SinkCall>
    requires |blocks| == NUM_BLOCKS
  {
    if passes == [] then []
    else CallsOf(blocks, tones, passes[..|passes| - 1]) + PassCalls(blocks, tones, passes[|passes| - 1])
  }

  /** One more pass extends the sink calls by that pass's calls. */
  lemma CallsOfExtend(blocks: seq<array<int16>>, tones: ToneTable, passes: seq<PassReplies>, c: nat, log: seq<SinkCall>)
    requires |blocks| == NUM_BLOCKS && c < |passes|
    ensures log + CallsOf(blocks, tones, passes[..c]) + PassCalls(blocks, tones, passes[c])
      == log + CallsOf(blocks, tones, passes[..c + 1])
  {
    assert passes[..c + 1][..c] == passes[..c];
    AppendTwo(log, CallsOf(blocks, tones, passes[..c]), PassCalls(blocks, tones, passes[c]));
  }

  /** One more pass extends the schedule by that pass's steps. */
  lemma ScheduleOfExtend(passes: seq<PassReplies>, c: nat, sched: seq<Step>)
    requires c < |passes|
    ensures sched + ScheduleOf(passes[..c]) + PassSteps(passes[c]) == sched + ScheduleOf(passes[..c + 1])
  {
    assert passes[..c + 1][..c] == passes[..c];
    AppendTwo(sched, ScheduleOf(passes[..c]), PassSteps(passes[c]));
  }

  // ---------------------------------------------------------------------
  // The engine: slab, tx_block handles, sink log, sequencer log
  // ---------------------------------------------------------------------

  /** Why the `audio` thread stopped, or that it is still sequencing. */
  datatype Stop = AllocFailed | FirstWriteFailed | TriggerFailed | Sequencing

  class Engine {
    /** SELCALL_TONE_LEN: the number of samples of every tone table. */
    const toneLen: nat
    /** The tone tables, by frequency. */
    const tones: ToneTable
    /** The NUM_BLOCKS regions of tx_0_mem_slab, BLOCK_SIZE bytes each. */
    const slab: seq<array<int16>>
    /** tx_block: the handles taken from the slab so far, in index order. */
    var txBlock: seq<array<int16>>
    /** Every call the engine made on the sink, in order. */
    var calls: seq<SinkCall>
    /** Every tone played and pause taken by the sequencer, in order. */
    var schedule: seq<Step>

    ghost predicate Valid()
      reads this`txBlock
    {
      && |slab| == NUM_BLOCKS
      && slab[0] != slab[1] && slab[0] != slab[2] && slab[0] != slab[3]
      && slab[1] != slab[2] && slab[1] != slab[3] && slab[2] != slab[3]
      && slab[0].Length == 2 * toneLen && slab[1].Length == 2 * toneLen
      && slab[2].Length == 2 * toneLen && slab[3].Length == 2 * toneLen
      && ToneTableOk(tones, toneLen)
      && |txBlock| <= NUM_BLOCKS
      && txBlock == slab[..|txBlock|]
    }

    /** Every block of the slab holds `tone` on both channels. */
    ghost predicate HoldsTone(tone: Tone)
      reads slab
      requires |slab| == NUM_BLOCKS
    {
      && slab[0][..] == Interleave(tone) && slab[1][..] == Interleave(tone)
      && slab[2][..] == Interleave(tone) && slab[3][..] == Interleave(tone)
    }

    /** The static slab: NUM_BLOCKS distinct regions of BLOCK_SIZE bytes,
        that is 2 * SELCALL_TONE_LEN samples; nothing taken yet. */
    constructor (toneLen: nat, tones: ToneTable)
      requires ToneTableOk(tones, toneLen)
      ensures Valid()
      ensures this.toneLen == toneLen && this.tones == tones
      ensures forall i :: 0 <= i < NUM_BLOCKS ==> fresh(slab[i])
      ensures txBlock == [] && calls == [] && schedule == []
    {
      this.toneLen := toneLen;
      this.tones := tones;
      var b0 := new int16[2 * toneLen];
      var b1 := new int16[2 * toneLen];
      var b2 := new int16[2 * toneLen];
      var b3 := new int16[2 * toneLen];
      slab := [b0, b1, b2, b3];
      txBlock := [];
      calls := [];
      schedule := [];
    }

    /** k_mem_slab_alloc: on a non-negative reply the next region of the slab
        becomes tx_block's next handle. */
    method SlabAlloc(reply: int) returns (ret: int)
      requires Valid() && |txBlock| < NUM_BLOCKS
      modifies this`txBlock
      ensures Valid() && ret == reply
      ensures txBlock == if reply < 0 then old(txBlock) else old(txBlock) + [slab[|old(txBlock)|]]
    {
      if reply >= 0 {
        txBlock := txBlock + [slab[|txBlock|]];
      }
      ret := reply;
    }

    /** i2s_write of one block: the sink takes its BLOCK_SIZE bytes and
        answers `reply`. */
    method I2sWrite(block: array<int16>, reply: int) returns (ret: int)
      modifies this`calls
      ensures ret == reply
      ensures calls == old(calls) + [Write(block, block[..], reply)]
    {
      calls := calls + [Write(block, block[..], reply)];
      ret := reply;
    }

    /** i2s_trigger(START). */
    method I2sTrigger(reply: int) returns (ret: int)
      modifies this`calls
      ensures ret == reply && calls == old(calls) + [Trigger(reply)]
    {
      calls := calls + [Trigger(reply)];
      ret := reply;
    }

    /** audio_codec_start_output. */
    method CodecStartOutput()
      modifies this`calls
      ensures calls == old(calls) + [StartOutput]
    {
      calls := calls + [StartOutput];
    }

    /** The refill at the head of play_tone: fill_buf on each of the
        NUM_BLOCKS blocks, in index order. */
    method RefillAll(tone: Tone)
      requires Valid() && |txBlock| == NUM_BLOCKS && |tone| == toneLen
      modifies slab
      ensures Valid()
      ensures HoldsTone(tone)
    {
      for i := 0 to NUM_BLOCKS
        invariant forall k :: 0 <= k < i ==> slab[k][..] == Interleave(tone)
      {
        ghost var was := slab[i][..];
        FillBuf(txBlock[i], tone);
        FillWholeBlock(was, tone);
      }
    }

    /** The write loop of play_tone: block `idx` is written and the cursor
        advances round-robin until the deadline or the first failed write. */
    method StreamWindow(tone: Tone, window: seq<int>) returns (ret: int)
      requires Valid() && |txBlock| == NUM_BLOCKS && HoldsTone(tone)
      modifies this`calls
      ensures Valid()
      ensures calls == old(calls) + WindowCalls(slab, Interleave(tone), window)
      ensures ret == ToneResult(window)
    {
      var idx := 0;
      ret := 0;
      var k := 0;
      while k < |window|
        invariant 0 <= k <= |window|
        invariant idx == k % NUM_BLOCKS
        invariant forall j :: 0 <= j < k ==> window[j] >= 0
        invariant ret == if k == 0 then 0 else window[k - 1]
        invariant calls == old(calls) + seq(k, j requires 0 <= j < k =>
          Write(slab[j % NUM_BLOCKS], Interleave(tone), window[j]))
      {
        ret := I2sWrite(txBlock[idx], window[k]);
        if ret < 0 {
          WindowStopsAtFailure(slab, Interleave(tone), window, k);
          assert calls == old(calls) + WindowCalls(slab, Interleave(tone), window);
          return;
        }
        idx := Advance(idx);
        k := k + 1;
      }
      CallsUntilNegativeMeaning(window);
      assert calls == old(calls) + WindowCalls(slab, Interleave(tone), window);
    }

    /** play_tone: refill every block with `tone`, then write the blocks
        round-robin until the deadline, stopping at the first failed write. */
    method PlayTone(tone: Tone, window: seq<int>) returns (ret: int)
      requires Valid() && |txBlock| == NUM_BLOCKS && |tone| == toneLen
      modifies this`calls, slab
      ensures Valid()
      ensures HoldsTone(tone)
      ensures calls == old(calls) + WindowCalls(slab, Interleave(tone), window)
      ensures ret == ToneResult(window)
    {
      RefillAll(tone);
      ret := StreamWindow(tone, window);
    }

    /** One pass of the forever loop: the five tones in order, each whatever
        the previous one returned, then the pause. */
    method PlayPass(p: PassReplies)
      requires Valid() && |txBlock| == NUM_BLOCKS
      modifies this`calls, this`schedule, slab
      ensures Valid()
      ensures HoldsTone(tones.tone1153)
      ensures calls == old(calls) + PassCalls(slab, tones, p)
      ensures schedule == old(schedule) + PassSteps(p)
    {
      ghost var w0 := WindowCalls(slab, Interleave(tones.tone852), p.w852);
      ghost var w1 := WindowCalls(slab, Interleave(tones.tone1393), p.w1393);
      ghost var w2 := WindowCalls(slab, Interleave(tones.tone1020), p.w1020);
      ghost var w3 := WindowCalls(slab, Interleave(tones.tone2100), p.w2100);
      ghost var w4 := WindowCalls(slab, Interleave(tones.tone1153), p.w1153);
      var r852 := PlayTone(tones.tone852, p.w852);
      var r1393 := PlayTone(tones.tone1393, p.w1393);
      var r1020 := PlayTone(tones.tone1020, p.w1020);
      var r2100 := PlayTone(tones.tone2100, p.w2100);
      var r1153 := PlayTone(tones.tone1153, p.w1153);
      schedule := schedule + [Played(852, r852), Played(1393, r1393), Played(1020, r1020),
        Played(2100, r2100), Played(1153, r1153), Pause];
      AppendFive(old(calls), w0, w1, w2, w3, w4);
    }

    /** The forever loop of `audio`, observed for the passes in `passes`. */
    method RunSequencer(passes: seq<PassReplies>, ghost current: Tone)
      requires Valid() && |txBlock| == NUM_BLOCKS && HoldsTone(current)
      modifies this`calls, this`schedule, slab
      ensures Valid()
      ensures HoldsTone(if passes == [] then current else tones.tone1153)
      ensures calls == old(calls) + CallsOf(slab, tones, passes)
      ensures schedule == old(schedule) + ScheduleOf(passes)
    {
      var c := 0;
      while c < |passes|
        invariant 0 <= c <= |passes|
        invariant Valid() && |txBlock| == NUM_BLOCKS
        invariant HoldsTone(if c == 0 then current else tones.tone1153)
        invariant calls == old(calls) + CallsOf(slab, tones, passes[..c])
        invariant schedule == old(schedule) + ScheduleOf(passes[..c])
      {
        PlayPass(passes[c]);
        CallsOfExtend(slab, tones, passes, c, old(calls));
        ScheduleOfExtend(passes, c, old(schedule));
        c := c + 1;
      }
      assert passes[..c] == passes;
    }

    /** The priming loop of `audio`: take block `i` from the slab and fill it
        with tone 697, for i = 0 .. NUM_BLOCKS-1; a failed allocation stops it. */
    method Prime(allocReplies: seq<int>) returns (ok: bool)
      requires Valid() && txBlock == []
      requires |allocReplies| == NUM_BLOCKS
      modifies this`txBlock, slab
      ensures Valid()
      ensures forall j :: 0 <= j < |txBlock| ==> allocReplies[j] >= 0
      ensures ok <==> |txBlock| == NUM_BLOCKS
      ensures !ok ==> allocReplies[|txBlock|] < 0
      ensures forall k :: 0 <= k < |txBlock| ==> slab[k][..] == Interleave(tones.tone697)
      ensures forall k :: |txBlock| <= k < NUM_BLOCKS ==> slab[k][..] == old(slab[k][..])
    {
      for i := 0 to NUM_BLOCKS
        invariant Valid() && |txBlock| == i
        invariant forall j :: 0 <= j < i ==> allocReplies[j] >= 0
        invariant forall k :: 0 <= k < i ==> slab[k][..] == Interleave(tones.tone697)
        invariant forall k :: i <= k < NUM_BLOCKS ==> slab[k][..] == old(slab[k][..])
      {
        var ret := SlabAlloc(allocReplies[i]);
        if ret < 0 {
          return false;
        }
        ghost var was := slab[i][..];
        FillBuf(txBlock[i], tones.tone697);
        FillWholeBlock(was, tones.tone697);
      }
      ok := true;
    }

    /** `audio` after init_audio: take and prime every block with tone 697,
        start the codec output, write block 0, trigger the stream, and then
        run the sequencer; any failing step before sequencing ends the thread. */
    method Audio(allocReplies: seq<int>, firstWrite: int, trigger: int, passes: seq<PassReplies>)
      returns (stop: Stop)
      requires Valid() && txBlock == [] && calls == [] && schedule == []
      requires |allocReplies| == NUM_BLOCKS
      modifies this`txBlock, this`calls, this`schedule, slab
      ensures Valid()
      ensures FirstNegative(allocReplies) < NUM_BLOCKS ==>
        && stop == AllocFailed && calls == [] && schedule == []
        && txBlock == slab[..FirstNegative(allocReplies)]
        && (forall k :: 0 <= k < |txBlock| ==> slab[k][..] == Interleave(tones.tone697))
      ensures FirstNegative(allocReplies) == NUM_BLOCKS ==>
        && txBlock == slab && |calls| >= 2
        && calls[..2] == [StartOutput, Write(slab[0], Interleave(tones.tone697), firstWrite)]
      ensures FirstNegative(allocReplies) == NUM_BLOCKS && firstWrite < 0 ==>
        stop == FirstWriteFailed && |calls| == 2 && schedule == [] && HoldsTone(tones.tone697)
      ensures FirstNegative(allocReplies) == NUM_BLOCKS && firstWrite >= 0 ==>
        |calls| >= 3 && calls[2] == Trigger(trigger)
      ensures FirstNegative(allocReplies) == NUM_BLOCKS && firstWrite >= 0 && trigger < 0 ==>
        stop == TriggerFailed && |calls| == 3 && schedule == [] && HoldsTone(tones.tone697)
      ensures FirstNegative(allocReplies) == NUM_BLOCKS && firstWrite >= 0 && trigger >= 0 ==>
        && stop == Sequencing
        && calls[3..] == CallsOf(slab, tones, passes)
        && schedule == ScheduleOf(passes)
        && HoldsTone(if passes == [] then tones.tone697 else tones.tone1153)
    {
      var ok := Prime(allocReplies);
      FirstNegativeUnique(allocReplies, |txBlock|);
      if !ok {
        return AllocFailed;
      }
      CodecStartOutput();
      var ret := I2sWrite(txBlock[0], firstWrite);
      if ret < 0 {
        return FirstWriteFailed;
      }
      ret := I2sTrigger(trigger);
      if ret < 0 {
        return TriggerFailed;
      }
      RunSequencer(passes, tones.tone697);
      stop := Sequencing;
    }
  }
}
