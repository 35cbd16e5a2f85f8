# Fibonacci sequence generator

A Dafny model of `FibonacciGenerator.Generate(int count)` from the Contoso.Utilities
library. The routine returns the first `count` Fibonacci numbers as a list of C# `int`
(32-bit signed) values. It has two failure modes:

- a negative count raises `ArgumentOutOfRangeException`;
- a sum that leaves the 32-bit range raises `OverflowException`, because the addition
  sits in a `checked` block.

The model has two modules:

- `FibonacciGenerator` (`fibonacci_generator.dfy`) holds the data and the code.
  - `int32` is the C# `int`.
  - `Outcome` is the returned list or one of the two exceptions: `Ok(terms)`,
    `InvalidArgument` or `Overflow`.
  - `Fib` is the Fibonacci function over unbounded integers.
  - `Spec` is a declarative reference definition of what a call yields.
  - `CheckedAdd` is C#'s checked addition.
  - `Generate` is the source's loop, written as an imperative method. It grows a
    sequence one index at a time, just as the source grows its `List<int>`. It is proved
    to return `Spec(count)`.
- `FibonacciProperties` (`fibonacci_properties.dfy`) proves, about `Spec`, what the
  routine promises its callers.

The 32-bit width is modelled explicitly. Every addition is checked against
`Int32Min..Int32Max`, and an out-of-range sum ends the call with `Overflow`. A sum never
wraps. Because every term is non-negative, only the upper bound 2^31 - 1 is ever reached:
counts 0 to 47 succeed and every count from 48 on overflows, unless allocating `count`
slots fails first (see "## Left out").

Calling `Generate` twice with the same count gives the same outcome. This follows from
its postcondition `r == Spec(count)`, since `Spec` is a function. No member states it
separately.

## Model

| member | source | states |
|---|---|---|
| FibonacciGenerator.Generate | src/Contoso.Utilities/FibonacciGenerator.cs:8-41 | The outcome equals the reference definition `Spec(count)`. A negative count is refused. A count whose terms include one above 2^31 - 1 overflows. Any other count returns exactly the first `count` Fibonacci numbers, proved through loop invariants tying the growing list to `Fib`. |
| FibonacciGenerator.CheckedAdd | src/Contoso.Utilities/FibonacciGenerator.cs:32-35 | Checked addition yields a value exactly when the mathematical sum fits in an int32, and that value is the sum itself (no wrap-around). |
| FibonacciProperties.NegativeCountRefused | src/Contoso.Utilities/FibonacciGenerator.cs:10-13 | The outcome is the invalid-argument error if and only if the count is negative, and that outcome carries no sequence. |
| FibonacciProperties.OverflowBoundary | src/Contoso.Utilities/FibonacciGenerator.cs:31-35 | The call overflows if and only if count >= 48, and succeeds if and only if 0 <= count <= 47. A failed allocation of `count` slots is not modelled (see "## Left out"). |
| FibonacciProperties.FibAtInt32Limit | src/Contoso.Utilities/FibonacciGenerator.cs:32-35 | Fib(46) = 1836311903 fits in an int32. Fib(47) = 2971215073 does not. |
| FibonacciProperties.FibMonotone | src/Contoso.Utilities/FibonacciGenerator.cs:25-35 | The sequence built from seeds 0 and 1 by non-negative sums never decreases, so no later term can fit where an earlier one overflowed. |
| FibonacciProperties.SuccessShape | src/Contoso.Utilities/FibonacciGenerator.cs:20-38 | A successful result has exactly `count` elements. Element 0 is 0 and element 1 is 1 when present. Every later element is the sum of the two before it, so element i is Fib(i). Every element is non-negative. |
| FibonacciProperties.PrefixOfNext | src/Contoso.Utilities/FibonacciGenerator.cs:21-38 | If the call for n + 1 succeeds, then the call for n succeeds too. Its result is the result for n + 1 with the last element removed. |
| FibonacciProperties.KnownOutcomes | tests/Contoso.Utilities.Tests/Program.cs:34-38 | Count 0 gives [], 1 gives [0], 2 gives [0, 1] and 7 gives [0, 1, 1, 2, 3, 5, 8]. Count -1 is refused as an invalid argument. |

## Left out

- The command-line entry point (`src/Contoso.App/Program.cs`) is not part of this model. It parses the count with a default of 10 and prints the result to the console, which is input and output only. A parseable negative argument reaches `Generate` unchanged and is refused there.
- The test program's console output, exception-catching plumbing and log list are not part of this model. Its fixed cases appear as `KnownOutcomes`.
- FibonacciGenerator.Generate: a failed up-front allocation is not modelled. The list is pre-sized with `count` slots (src/Contoso.Utilities/FibonacciGenerator.cs:20). For very large counts that allocation raises `OutOfMemoryException` before any addition runs. It always does so above the runtime's array-length limit (counts 2147483592 to 2147483647), and it may do so for other counts in the billions, depending on available memory. For all such counts the model returns `Overflow`.
- The returned list's .NET type is not modelled: `IReadOnlyList` and the shared `Array.Empty<int>()` instance for count 0. Neither changes the elements returned.
- Exceptions are modelled as the `InvalidArgument` and `Overflow` outcomes. The exception message text is not modelled.
