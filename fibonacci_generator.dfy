/** The sequence generator of Contoso.Utilities: `FibonacciGenerator.Generate(count)`
    builds the first `count` Fibonacci numbers into a list of 32-bit signed integers,
    one index at a time, and signals a negative count and an overflowing sum as two
    distinct errors.
 */
module FibonacciGenerator {

  /** The C# `int`: a 32-bit two's-complement integer. */
  newtype int32 = x: int | -0x8000_0000 <= x <= 0x7fff_ffff

  const Int32Min: int := -0x8000_0000
  const Int32Max: int := 0x7fff_ffff

  datatype Option<T> = None | Some(value: T)

  /** What a call to Generate ends in: the returned list, or one of the two exceptions
      (`ArgumentOutOfRangeException` for a negative count, `OverflowException` for a
      checked addition out of range). */
  datatype Outcome = Ok(terms: seq<int32>) | InvalidArgument | Overflow

  /** The Fibonacci numbers over the unbounded integers: 0, 1, 1, 2, 3, 5, 8, ... */
  ghost function Fib(i: nat): nat
  {
    if i < 2 then i else Fib(i - 1) + Fib(i - 2)
  }

  /** Reference definition of Generate: a negative count is refused; otherwise the call
      overflows exactly when one of the first `count` Fibonacci numbers does not fit in
      an int32, and else returns those numbers in index order. */
  ghost function Spec(count: int): Outcome
  {
    if count < 0 then InvalidArgument
    else if exists i :: 0 <= i < count && Fib(i) > Int32Max then Overflow
    else Ok(seq(count, i requires 0 <= i < count => Fib(i) as int32))
  }

  /** Addition inside a C# `checked` block: the mathematical sum when it fits in an
      int32, and no value (an `OverflowException`) when it does not; it never wraps. */
  function CheckedAdd(a: int32, b: int32): (r: Option<int32>)
    ensures r.Some? <==> Int32Min <= a as int + b as int <= Int32Max
    ensures r.Some? ==> r.value as int == a as int + b as int
  {
    var sum := a as int + b as int;
    if Int32Min <= sum <= Int32Max then Some(sum as int32) else None
  }

  /** `FibonacciGenerator.Generate`: the negative-count guard, the empty-result shortcut,
      and the indexed loop that appends 0, then 1, then the checked sum of the two
      previous elements. */
  method Generate(count: int32) returns (r: Outcome)
    ensures r == Spec(count as int)
  {
    if count < 0 {
      return InvalidArgument;
    }
    if count == 0 {
      return Ok([]);
    }
    var sequence: seq<int32> := [];
    var index: int32 := 0;
    while index < count
      invariant 0 <= index <= count
      invariant |sequence| == index as int
      invariant forall i :: 0 <= i < |sequence| ==> sequence[i] as int == Fib(i)
    {
      if index == 0 {
        sequence := sequence + [0];
      } else if index == 1 {
        sequence := sequence + [1];
      } else {
        var sum := CheckedAdd(sequence[index - 1], sequence[index - 2]);
        if sum.None? {
          assert Fib(index as int) > Int32Max;
          return Overflow;
        }
        sequence := sequence + [sum.value];
      }
      index := index + 1;
    }
    ghost var n := count as int;
    assert forall i :: 0 <= i < n ==> Fib(i) <= Int32Max by {
      forall i | 0 <= i < n ensures Fib(i) <= Int32Max {
        assert sequence[i] as int == Fib(i);
      }
    }
    assert sequence == seq(n, i requires 0 <= i < n => Fib(i) as int32);
    return Ok(sequence);
  }
}
