/** Vocabulary shared by every component: optional values, results and Go's fixed-width integers. */
module Common {
  datatype Option<+T> = None | Some(value: T)

  datatype Result<+T, +E> = Ok(value: T) | Err(error: E)

  const MAX_INT32: int := 0x7fff_ffff
  const MIN_INT32: int := -0x8000_0000
  const MAX_INT64: int := 0x7fff_ffff_ffff_ffff
  const MIN_INT64: int := -0x8000_0000_0000_0000

  type int32 = x: int | MIN_INT32 <= x <= MAX_INT32
  type int64 = x: int | MIN_INT64 <= x <= MAX_INT64
  type byte = x: int | 0 <= x < 256
  type uint16 = x: int | 0 <= x < 0x1_0000
  type uint32 = x: int | 0 <= x < 0x1_0000_0000

  /** Go's two's-complement conversion to int32: whole turns of 2^32 are taken off until the value fits. */
  function Wrap32(x: int): (r: int32)
    ensures MIN_INT32 <= x <= MAX_INT32 ==> r == x
    decreases if x > MAX_INT32 then x else if x < MIN_INT32 then -x else 0
  {
    if x > MAX_INT32 then Wrap32(x - 0x1_0000_0000)
    else if x < MIN_INT32 then Wrap32(x + 0x1_0000_0000)
    else x
  }

  /** The result of a Go int64 operation whose mathematical value is x. */
  function Wrap64(x: int): (r: int64)
    ensures MIN_INT64 <= x <= MAX_INT64 ==> r == x
    decreases if x > MAX_INT64 then x else if x < MIN_INT64 then -x else 0
  {
    if x > MAX_INT64 then Wrap64(x - 0x1_0000_0000_0000_0000)
    else if x < MIN_INT64 then Wrap64(x + 0x1_0000_0000_0000_0000)
    else x
  }

  /** Wrapping only takes off whole turns, which together with the result type makes it Go's conversion. */
  lemma {:induction false} Wrap32Congruent(x: int) returns (turns: int)
    ensures x == Wrap32(x) + turns * 0x1_0000_0000
    decreases if x > MAX_INT32 then x else if x < MIN_INT32 then -x else 0
  {
    turns := 0;
    if x > MAX_INT32 {
      turns := Wrap32Congruent(x - 0x1_0000_0000);
      turns := turns + 1;
    } else if x < MIN_INT32 {
      turns := Wrap32Congruent(x + 0x1_0000_0000);
      turns := turns - 1;
    }
  }

  lemma {:induction false} Wrap64Congruent(x: int) returns (turns: int)
    ensures x == Wrap64(x) + turns * 0x1_0000_0000_0000_0000
    decreases if x > MAX_INT64 then x else if x < MIN_INT64 then -x else 0
  {
    turns := 0;
    if x > MAX_INT64 {
      turns := Wrap64Congruent(x - 0x1_0000_0000_0000_0000);
      turns := turns + 1;
    } else if x < MIN_INT64 {
      turns := Wrap64Congruent(x + 0x1_0000_0000_0000_0000);
      turns := turns - 1;
    }
  }

  /** Wrapping in between makes no difference to a sum. */
  lemma Wrap64Adds(a: int, b: int)
    ensures Wrap64(Wrap64(a) + b) == Wrap64(a + b)
  {
    var inner := Wrap64Congruent(a);
    var once := Wrap64Congruent(Wrap64(a) + b);
    var whole := Wrap64Congruent(a + b);
    assert Wrap64(Wrap64(a) + b) - Wrap64(a + b) == (whole - once - inner) * 0x1_0000_0000_0000_0000;
  }

  /** A multiple added to a wrapped multiple. */
  lemma Wrap64AddsMultiple(start: int, a: int, b: int, rate: int)
    ensures Wrap64(Wrap64(start + a * rate) + b * rate) == Wrap64(start + (a + b) * rate)
  {
    Wrap64Adds(start + a * rate, b * rate);
    assert (a + b) * rate == a * rate + b * rate;
    assert start + (a + b) * rate == start + a * rate + b * rate;
  }

  function Max(a: int, b: int): int {
    if a >= b then a else b
  }

  lemma MulMonotone(a: nat, b: nat, c: nat)
    requires a <= b
    ensures a * c <= b * c
  {
    assert b * c == a * c + (b - a) * c;
  }
}
