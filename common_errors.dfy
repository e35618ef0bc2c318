/**
 * The live "best practices" helpers of the Rust error catalogue
 * (Rust/SampleRust/src/common_errors.rs): `use_references`,
 * `safe_operation`, `find_first_even` and `handle_option`.
 */
module CommonErrors {
  import opened Wrappers
  import opened Numeric
  import opened Decimal
  import opened Text
  import opened Iteration
  import opened RustSample

  // ---------------------------------------------------------------------------
  // use_references

  /**
   * `use_references(&data)`: `data.iter().sum()`, the sum of every element
   * (0 for an empty vector). `i32` addition panics on overflow, so every
   * running total must fit.
   */
  function UseReferences(data: seq<Int32>): (r: Int32)
    requires SumFitsInt32(data)
    ensures r == Total(data)
  {
    IterSum(data)
  }

  /** The sum of a concatenation is the sum of the parts. */
  lemma UseReferencesAppend(a: seq<Int32>, b: seq<Int32>)
    requires SumFitsInt32(a) && SumFitsInt32(b) && SumFitsInt32(a + b)
    ensures UseReferences(a + b) == UseReferences(a) + UseReferences(b)
  {
    TotalAppend(a, b);
  }

  // ---------------------------------------------------------------------------
  // safe_operation

  const NEGATIVE_NOT_ALLOWED: string := "Negative number not allowed"

  /** What a call of a Rust function does: it returns a value or panics. */
  datatype Outcome<T> = Returned(value: T) | Panicked

  /**
   * `safe_operation(x)` as written: `x * 2` is `i32` arithmetic, which panics
   * (debug build) once `x` exceeds half of `i32::MAX`.
   */
  function SafeOperationAsWritten(x: Int32): (r: Outcome<Result<Int32>>)
    ensures r.Panicked? <==> x > MAX_INT32 / 2
    ensures x < 0 ==> r == Returned(Err(NEGATIVE_NOT_ALLOWED))
    ensures 0 <= x <= MAX_INT32 / 2 ==> r.Returned? && r.value.Ok? && r.value.value == 2 * x
    ensures r.Returned? && r.value.Ok? ==> r.value.value == 2 * x
  {
    if x >= 0 then
      if IsInt32(x * 2) then Returned(Ok((x * 2) as Int32)) else Panicked
    else Returned(Err(NEGATIVE_NOT_ALLOWED))
  }

  /** The input 2^30 passes the `x >= 0` guard and still panics. */
  lemma SafeOperationOverflows()
    ensures SafeOperationAsWritten(0x4000_0000) == Panicked
    ensures SafeOperationAsWritten(MAX_INT32 / 2) == Returned(Ok(MAX_INT32 - 1))
  {
  }

  /**
   * `safe_operation` as its name and `Result` type promise: every
   * non-negative `x` doubles without panicking, in a result wide enough to
   * hold `2 * i32::MAX`; a negative `x` is the error.
   */
  function SafeOperation(x: Int32): (r: Result<Int64>)
    ensures r.Ok? <==> x >= 0
    ensures r.Ok? ==> r.value == 2 * x
    ensures r.Err? ==> r.message == NEGATIVE_NOT_ALLOWED
  {
    if x >= 0 then Ok(x as Int64 * 2) else Err(NEGATIVE_NOT_ALLOWED)
  }

  /** Wherever the code as written does not panic, the corrected version answers the same. */
  lemma SafeOperationAgrees(x: Int32)
    requires SafeOperationAsWritten(x).Returned?
    ensures SafeOperationAsWritten(x).value.Ok? <==> SafeOperation(x).Ok?
    ensures SafeOperation(x).Ok? ==> SafeOperationAsWritten(x).value.value == SafeOperation(x).value
    ensures SafeOperation(x).Err? ==> SafeOperationAsWritten(x).value.message == SafeOperation(x).message
  {
  }

  /** `test_safe_operation`: 5 doubles to 10 and -1 is an error. */
  lemma SafeOperationTest()
    ensures SafeOperation(5) == Ok(10) && SafeOperation(-1).Err?
    ensures SafeOperationAsWritten(5) == Returned(Ok(10))
  {
  }

  // ---------------------------------------------------------------------------
  // find_first_even

  /**
   * `find_first_even(numbers)`: the first even element, if any. A returned
   * value occurs in the slice and every element before it is odd; None means
   * there is no even element at all.
   */
  function FindFirstEven(numbers: seq<Int32>): (r: Option<Int32>)
    ensures r.None? <==> forall i :: 0 <= i < |numbers| ==> !IsEven(numbers[i])
    ensures r.Some? ==> IsEven(r.value)
    ensures r.Some? ==> exists i :: 0 <= i < |numbers| && numbers[i] == r.value &&
                                    forall j :: 0 <= j < i ==> !IsEven(numbers[j])
  {
    Find(numbers, (x: Int32) => IsEven(x))
  }

  /** `test_find_first_even`: [1, 3, 4, 5] gives 4 and [1, 3, 5] gives None. */
  lemma FindFirstEvenTest()
    ensures FindFirstEven([1, 3, 4, 5]) == Some(4)
    ensures FindFirstEven([1, 3, 5]) == None
  {
    var s: seq<Int32> := [1, 3, 4, 5];
    var k := FirstMatch(s, (x: Int32) => IsEven(x));
    assert s[2] == 4;
    assert k >= 2 by {
      assert !IsEven(s[0]) && !IsEven(s[1]);
    }
    var t: seq<Int32> := [1, 3, 5];
    assert !IsEven(t[0]) && !IsEven(t[1]) && !IsEven(t[2]);
  }

  // ---------------------------------------------------------------------------
  // handle_option

  const POSITIVE: string := "Positive: "
  const NEGATIVE: string := "Negative: "

  /**
   * `handle_option`: guarded arms for positive and negative values, then
   * `Some(0)` and `None`. The match has no catch-all arm; the `Some(0)` arm
   * is reached exactly by the value left over by both guards.
   */
  function HandleOption(opt: Option<Int32>): (s: string)
    ensures opt == None <==> s == "No value"
    ensures opt == Some(0) <==> s == "Zero"
    ensures opt.Some? && opt.value > 0 <==> POSITIVE <= s
    ensures opt.Some? && opt.value < 0 <==> NEGATIVE <= s
  {
    match opt
    case Some(x) =>
      if x > 0 then
        var s := POSITIVE + IntToString(x);
        PrefixOfConcat(POSITIVE, IntToString(x));
        DifferentLead(NEGATIVE, s);
        s
      else if x < 0 then
        var s := NEGATIVE + IntToString(x);
        PrefixOfConcat(NEGATIVE, IntToString(x));
        DifferentLead(POSITIVE, s);
        s
      else
        assert x == 0;
        "Zero"
    case None => "No value"
  }

  /** The message of `handle_option` determines its input. */
  lemma ParseHandleOption(opt: Option<Int32>)
    ensures ParseSignMessage(HandleOption(opt), POSITIVE, NEGATIVE) == Some(opt)
  {
    if opt.Some? && opt.value != 0 {
      var x := opt.value;
      var s := HandleOption(opt);
      if x > 0 {
        ParseLabelledFormat(POSITIVE, x);
      } else {
        ParseLabelledFormat(NEGATIVE, x);
        assert s[0] == 'N' && s[1] == 'e';
      }
      assert |s| > |"Zero"|;
    }
  }

  /** For the same input, `handle_option` and `analyze_option` differ only in their labels. */
  lemma HandleOptionMatchesAnalyzeOption(opt: Option<Int32>)
    ensures ParseSignMessage(HandleOption(opt), POSITIVE, NEGATIVE)
         == ParseSignMessage(AnalyzeOption(opt), POSITIVE_NUMBER, NEGATIVE_NUMBER)
  {
    ParseHandleOption(opt);
    ParseAnalyzeOption(opt);
  }
}
