/** Machine integer types, an Option type, and the scans over scripted driver
    replies that the thread loops of this model share. */
module Base {

  type int16 = x: int | -0x8000 <= x < 0x8000
  type int32 = x: int | -0x8000_0000 <= x < 0x8000_0000
  type uint32 = x: int | 0 <= x < 0x1_0000_0000
  type uint64 = x: int | 0 <= x < 0x1_0000_0000_0000_0000

  const TWO_32: int := 0x1_0000_0000
  const TWO_64: int := 0x1_0000_0000_0000_0000

  /** Unsigned 32-bit wrap-around of an arithmetic result. */
  function Wrap32(x: int): uint32 { x % TWO_32 }

  /** Unsigned 64-bit wrap-around of an arithmetic result. */
  function Wrap64(x: int): uint64 { x % TWO_64 }

  /** Conversion of an unsigned value to a 32-bit `int`. C leaves the result
      of converting an out-of-range value to the implementation; this model
      takes the usual modular (two's complement) conversion. */
  function ToInt32(x: nat): (r: int32)
    ensures r % TWO_32 == x % TWO_32
    ensures x < 0x8000_0000 ==> r == x
  {
    var low := x % TWO_32;
    if low < 0x8000_0000 then low else low - TWO_32
  }

  /** Wrapping once more after an addition does not change the result. */
  lemma WrapAfterAdd64(a: int, b: int)
    ensures Wrap64(Wrap64(a) + b) == Wrap64(a + b)
  {
    var q := a / TWO_64;
    assert a == q * TWO_64 + Wrap64(a);
    assert Wrap64(a) + b == (a + b) - q * TWO_64;
    ModShift64(a + b, q);
  }

  lemma ModShift64(x: int, q: int)
    ensures (x - q * TWO_64) % TWO_64 == x % TWO_64
  {
    var r := x % TWO_64;
    var d := x / TWO_64;
    assert x == d * TWO_64 + r;
    assert x - q * TWO_64 == (d - q) * TWO_64 + r;
  }

  datatype Option<T> = None | Some(value: T)

  /** Quotient of C's `/` on integers: truncated toward zero. */
  function CDiv(a: int, b: int): (q: int)
    requires b > 0
    ensures a >= 0 ==> 0 <= q && 0 <= a - q * b < b
    ensures a < 0 ==> q <= 0 && -b < a - q * b <= 0
  {
    if a >= 0 then a / b else -((-a) / b)
  }

  /** Remainder of C's `%` on integers: the sign of the dividend. */
  function CRem(a: int, b: int): (r: int)
    requires b > 0
    ensures a == CDiv(a, b) * b + r
    ensures a >= 0 ==> 0 <= r < b
    ensures a < 0 ==> -b < r <= 0
  {
    a - CDiv(a, b) * b
  }

  /** An uptime as shown to the user. */
  datatype Clock = Clock(hours: int, minutes: int)

  /** Index of the first negative reply in `w`, or `|w|` when there is none. */
  function FirstNegative(w: seq<int>): (i: nat)
    ensures i <= |w|
    ensures forall j :: 0 <= j < i ==> w[j] >= 0
    ensures i < |w| ==> w[i] < 0
  {
    if w == [] then 0 else if w[0] < 0 then 0 else 1 + FirstNegative(w[1..])
  }

  /** The first negative reply is the only index with no negative reply
      before it and a negative reply (or the end) at it. */
  lemma FirstNegativeUnique(w: seq<int>, i: nat)
    requires i <= |w|
    requires forall j :: 0 <= j < i ==> w[j] >= 0
    requires i < |w| ==> w[i] < 0
    ensures FirstNegative(w) == i
  {
  }

  /** Index of the first non-zero reply in `w`, or `|w|` when there is none. */
  function FirstNonZero(w: seq<int>): (i: nat)
    ensures i <= |w|
    ensures forall j :: 0 <= j < i ==> w[j] == 0
    ensures i < |w| ==> w[i] != 0
  {
    if w == [] then 0 else if w[0] != 0 then 0 else 1 + FirstNonZero(w[1..])
  }

  /** Number of calls made by a loop that issues one call per reply of `w`
      and returns right after the first call whose reply is negative. */
  function CallsUntilNegative(w: seq<int>): (n: nat)
    ensures n <= |w|
  {
    var i := FirstNegative(w);
    if i < |w| then i + 1 else |w|
  }

  /** The loop asks for every reply before the last one it asks for, and
      those were all non-negative; it stops early exactly when some reply
      is negative, and then the last call made is the first such one. */
  lemma CallsUntilNegativeMeaning(w: seq<int>)
    ensures forall j :: 0 <= j && j + 1 < CallsUntilNegative(w) ==> w[j] >= 0
    ensures (exists j :: 0 <= j < |w| && w[j] < 0) <==> (0 < CallsUntilNegative(w) && w[CallsUntilNegative(w) - 1] < 0)
    ensures (exists j :: 0 <= j < |w| && w[j] < 0) ==> CallsUntilNegative(w) == FirstNegative(w) + 1
    ensures (forall j :: 0 <= j < |w| ==> w[j] >= 0) ==> CallsUntilNegative(w) == |w|
  {
    var i := FirstNegative(w);
    if i < |w| {
      assert w[i] < 0;
    }
  }

  /** Number of calls made by a loop that issues one call per reply of `w`
      and returns right after the first call whose reply is not zero. */
  function CallsUntilNonZero(w: seq<int>): (n: nat)
    ensures n <= |w|
  {
    var i := FirstNonZero(w);
    if i < |w| then i + 1 else |w|
  }

  /** The loop asks for every reply before the last one it asks for, and
      those were all zero; it stops early exactly when some reply
      is non-zero, and then the last call made is the first such one. */
  lemma CallsUntilNonZeroMeaning(w: seq<int>)
    ensures forall j :: 0 <= j && j + 1 < CallsUntilNonZero(w) ==> w[j] == 0
    ensures (exists j :: 0 <= j < |w| && w[j] != 0) <==> (0 < CallsUntilNonZero(w) && w[CallsUntilNonZero(w) - 1] != 0)
    ensures (exists j :: 0 <= j < |w| && w[j] != 0) ==> CallsUntilNonZero(w) == FirstNonZero(w) + 1
    ensures (forall j :: 0 <= j < |w| ==> w[j] == 0) ==> CallsUntilNonZero(w) == |w|
  {
    var i := FirstNonZero(w);
    if i < |w| {
      assert w[i] != 0;
    }
  }
}
