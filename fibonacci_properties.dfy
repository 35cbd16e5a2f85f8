/** What `FibonacciGenerator.Generate` promises its callers, proved of its reference
    definition `Spec` (which `Generate` is proved to return). */
module FibonacciProperties {
  import opened FibonacciGenerator

  /** Each Fibonacci number is at least the previous one. */
  lemma FibStep(i: nat)
    ensures Fib(i) <= Fib(i + 1)
  {
  }

  /** The Fibonacci numbers never decrease along the index. */
  lemma {:induction false} FibMonotone(i: nat, j: nat)
    requires i <= j
    ensures Fib(i) <= Fib(j)
  {
    if i < j {
      FibMonotone(i, j - 1);
      FibStep(j - 1);
    }
  }

  /** The last Fibonacci number that fits in an int32 and the first that does not. */
  lemma FibAtInt32Limit()
    ensures Fib(46) == 1836311903 <= Int32Max
    ensures Fib(47) == 2971215073 > Int32Max
  {
    assert Fib(2) == 1;  assert Fib(3) == 2;  assert Fib(4) == 3;  assert Fib(5) == 5;
    assert Fib(6) == 8;  assert Fib(7) == 13;  assert Fib(8) == 21;  assert Fib(9) == 34;
    assert Fib(10) == 55;  assert Fib(11) == 89;  assert Fib(12) == 144;
    assert Fib(13) == 233;  assert Fib(14) == 377;  assert Fib(15) == 610;
    assert Fib(16) == 987;  assert Fib(17) == 1597;  assert Fib(18) == 2584;
    assert Fib(19) == 4181;  assert Fib(20) == 6765;  assert Fib(21) == 10946;
    assert Fib(22) == 17711;  assert Fib(23) == 28657;  assert Fib(24) == 46368;
    assert Fib(25) == 75025;  assert Fib(26) == 121393;  assert Fib(27) == 196418;
    assert Fib(28) == 317811;  assert Fib(29) == 514229;  assert Fib(30) == 832040;
    assert Fib(31) == 1346269;  assert Fib(32) == 2178309;  assert Fib(33) == 3524578;
    assert Fib(34) == 5702887;  assert Fib(35) == 9227465;  assert Fib(36) == 14930352;
    assert Fib(37) == 24157817;  assert Fib(38) == 39088169;  assert Fib(39) == 63245986;
    assert Fib(40) == 102334155;  assert Fib(41) == 165580141;  assert Fib(42) == 267914296;
    assert Fib(43) == 433494437;  assert Fib(44) == 701408733;  assert Fib(45) == 1134903170;
  }

  /** A negative count, and only a negative count, is refused as an invalid argument
      (an outcome that carries no sequence, since it is not `Ok`). */
  lemma NegativeCountRefused(count: int)
    ensures Spec(count) == InvalidArgument <==> count < 0
  {
  }

  /** Because each addition is checked, the call overflows exactly for the counts whose
      terms include one beyond 2^31 - 1, which is every count from 48 on; counts 0 to 47
      succeed. */
  lemma {:induction false} OverflowBoundary(count: int)
    ensures Spec(count).Overflow? <==> count >= 48
    ensures Spec(count).Ok? <==> 0 <= count <= 47
  {
    FibAtInt32Limit();
    if count >= 48 {
      assert 0 <= 47 < count && Fib(47) > Int32Max;
    } else if 0 <= count {
      forall i | 0 <= i < count ensures Fib(i) <= Int32Max {
        FibMonotone(i, 46);
      }
    }
  }

  /** A successful result holds exactly `count` terms, seeded with 0 and 1, each later
      term the sum of the two before it (so term i is Fib(i)), and none of them negative. */
  lemma SuccessShape(count: int)
    requires Spec(count).Ok?
    ensures |Spec(count).terms| == count
    ensures count >= 1 ==> Spec(count).terms[0] == 0
    ensures count >= 2 ==> Spec(count).terms[1] == 1
    ensures forall i :: 2 <= i < count ==>
      Spec(count).terms[i] as int == Spec(count).terms[i - 1] as int + Spec(count).terms[i - 2] as int
    ensures forall i :: 0 <= i < count ==> Spec(count).terms[i] as int == Fib(i)
    ensures forall i :: 0 <= i < count ==> Spec(count).terms[i] >= 0
  {
  }

  /** Each term depends on its index alone, so a successful call for `n + 1` extends the
      call for `n` by one term, and the call for `n` then succeeds too. */
  lemma PrefixOfNext(n: nat)
    requires Spec(n + 1).Ok?
    ensures Spec(n).Ok?
    ensures Spec(n).terms == Spec(n + 1).terms[..n]
  {
  }

  /** The fixed cases checked by the test program. */
  lemma KnownOutcomes()
    ensures Spec(0) == Ok([])
    ensures Spec(1) == Ok([0])
    ensures Spec(2) == Ok([0, 1])
    ensures Spec(7) == Ok([0, 1, 1, 2, 3, 5, 8])
    ensures Spec(-1) == InvalidArgument
  {
    OverflowBoundary(0);
    OverflowBoundary(1);
    OverflowBoundary(2);
    OverflowBoundary(7);
    assert Fib(2) == 1 && Fib(3) == 2 && Fib(4) == 3 && Fib(5) == 5 && Fib(6) == 8;
    assert Spec(1).terms == [0];
    assert Spec(2).terms == [0, 1];
    assert Spec(7).terms == [0, 1, 1, 2, 3, 5, 8];
  }
}
