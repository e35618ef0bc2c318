/**
 * The sequential helpers of the Go sample program (Go/GoSample/main.go):
 * `processData` with its named results, the variadic `sum`, and the two
 * closures of `demonstrateClosures` (the `increment` counter and the
 * `multiplier` factory). Go's `int` is 64 bits wide and wraps around.
 */
module GoSample {
  import opened Wrappers
  import opened Numeric
  import opened Text

  /** A Go string is a sequence of bytes; `len` counts bytes. */
  type GoString = seq<Byte>

  const PROCESSED_PREFIX: GoString := AsciiBytes("processed: ")
  const EMPTY_INPUT_ERROR: string := "input cannot be empty"

  /** The named results `(result string, count int, err error)`; a nil error is None. */
  datatype ProcessOutput = ProcessOutput(result: GoString, count: nat, err: Option<string>)

  /**
   * processData: the empty string is an error with zero-valued results;
   * any other input comes back behind the "processed: " prefix with its
   * length in bytes.
   */
  function ProcessData(input: GoString): (r: ProcessOutput)
    ensures r.err.Some? <==> input == []
    ensures r.err.Some? ==> r.result == [] && r.count == 0 && r.err.value == EMPTY_INPUT_ERROR
    ensures r.err.None? ==>
      |r.result| == |PROCESSED_PREFIX| + |input| &&
      r.result[..|PROCESSED_PREFIX|] == PROCESSED_PREFIX &&
      r.result[|PROCESSED_PREFIX|..] == input &&
      r.count == |input|
  {
    if input == [] then ProcessOutput([], 0, Some(EMPTY_INPUT_ERROR))
    else ProcessOutput(PROCESSED_PREFIX + input, |input|, None)
  }

  /** The call in `main`: processData("hello") gives "processed: hello" and 5. */
  lemma ProcessDataHello()
    ensures ProcessData(AsciiBytes("hello")) == ProcessOutput(AsciiBytes("processed: hello"), 5, None)
  {
    assert AsciiBytes("processed: ") + AsciiBytes("hello") == AsciiBytes("processed: hello");
  }

  /** sum(nums ...int): the running total, wrapping like Go's `int`. */
  method Sum(nums: seq<Int64>) returns (total: Int64)
    ensures total == Wrap64(Total(nums))
  {
    total := 0;
    for i := 0 to |nums|
      invariant total == Wrap64(Total(nums[..i]))
    {
      assert nums[..i + 1][..i] == nums[..i];
      WrapAdd(Total(nums[..i]), nums[i]);
      total := Wrap64(total + nums[i]);
    }
    assert nums[..|nums|] == nums;
  }

  /**
   * demonstrateVariadicFunctions: the three totals it prints. Spreading a
   * slice with `numbers...` hands `sum` the same slice as listing the
   * elements one by one.
   */
  method DemonstrateVariadicFunctions() returns (listed3: Int64, listed5: Int64, spread: Int64)
    ensures listed3 == 6 && listed5 == 15 && spread == listed5
  {
    listed3 := Sum([1, 2, 3]);
    listed5 := Sum([1, 2, 3, 4, 5]);
    var numbers := [1, 2, 3, 4, 5];
    spread := Sum(numbers);
    TotalValues();
    WrapInRange(6);
    WrapInRange(15);
  }

  lemma TotalValues()
    ensures Total([1, 2, 3]) == 6 && Total([1, 2, 3, 4, 5]) == 15
  {
    assert [1, 2, 3, 4, 5][..4] == [1, 2, 3, 4];
    assert [1, 2, 3, 4][..3] == [1, 2, 3];
    assert [1, 2, 3][..2] == [1, 2];
    assert [1, 2][..1] == [1];
    assert [1][..0] == [];
  }

  /**
   * The `increment` closure of demonstrateClosures together with the
   * `counter` variable it captures by reference.
   */
  class Increment {
    var counter: Int64

    constructor ()
      ensures counter == 0
    {
      counter := 0;
    }

    /** counter++; return counter */
    method Call() returns (v: Int64)
      modifies this
      ensures counter == Wrap64(old(counter) + 1)
      ensures v == counter
    {
      counter := Wrap64(counter + 1);
      v := counter;
    }
  }

  /** multiplier(factor): a function computing x * factor in Go's `int`. */
  function Multiplier(factor: Int64): (f: Int64 -> Int64)
    ensures forall x: Int64 :: (x * factor - f(x)) % TWO_TO_64 == 0
    ensures forall x: Int64 :: MIN_INT64 <= x * factor <= MAX_INT64 ==> f(x) == x * factor
  {
    var f := (x: Int64) => Wrap64(x * factor);
    assert forall x: Int64 :: MIN_INT64 <= x * factor <= MAX_INT64 ==> f(x) == x * factor by {
      forall x: Int64 | MIN_INT64 <= x * factor <= MAX_INT64 {
        WrapInRange(x * factor);
      }
    }
    f
  }

  /** Applying multiplier(b) then multiplier(a) is multiplier(a * b), even across wrap-around. */
  lemma MultiplierCompose(a: Int64, b: Int64, x: Int64)
    ensures Multiplier(a)(Multiplier(b)(x)) == Multiplier(Wrap64(a * b))(x)
  {
    var ab := Wrap64(a * b);
    calc {
      Multiplier(a)(Multiplier(b)(x));
      Wrap64(Wrap64(x * b) * a);
      { WrapMul(x * b, a); }
      Wrap64(x * b * a);
      { assert x * b * a == (a * b) * x; }
      Wrap64((a * b) * x);
      { WrapMul(a * b, x); }
      Wrap64(ab * x);
      { assert ab * x == x * ab; }
      Multiplier(ab)(x);
    }
  }

  /**
   * demonstrateClosures: the three calls of `increment` return 1, 2, 3;
   * double(5) is 10 and triple(5) is 15.
   */
  method DemonstrateClosures() returns (first: Int64, second: Int64, third: Int64, doubled: Int64, tripled: Int64)
    ensures first == 1 && second == 2 && third == 3
    ensures doubled == 10 && tripled == 15
  {
    var increment := new Increment();
    WrapInRange(1);
    WrapInRange(2);
    WrapInRange(3);
    first := increment.Call();
    second := increment.Call();
    third := increment.Call();
    var double := Multiplier(2);
    var triple := Multiplier(3);
    doubled := double(5);
    tripled := triple(5);
  }
}
