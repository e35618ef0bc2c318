/**
 * The sequential helpers of the Rust feature tour (Rust/SampleRust/src/main.rs):
 * the generic `Container`, `apply_operation` and `create_multiplier`, the
 * persistent updates of `ImmutableData`, the two pattern-matching classifiers
 * `analyze_option` and `destructure_tuple`, `longest`, the iterator pipeline of
 * `demonstrate_iterators`, and the `Counter` iterator.
 *
 * Arithmetic on `i32` panics on overflow in a debug build; a closure or
 * pipeline that would overflow is excluded by a precondition. Messages built
 * with `format!` are strings whose numbers are written by Decimal.IntToString.
 */
module RustSample {
  import opened Wrappers
  import opened Numeric
  import opened Decimal
  import opened Text
  import opened Iteration

  // ---------------------------------------------------------------------------
  // Container<T>

  /** `Container<T>`: a value behind a generic wrapper. */
  datatype Container<T> = Container(value: T)
  {
    /** `Container::new(value)`; reading it back with `get` gives `value`. */
    static function New(value: T): (c: Container<T>)
      ensures c.Get() == value
    {
      Container(value)
    }

    /** `get(&self)`: the wrapped value. */
    function Get(): T
    {
      value
    }
  }

  // ---------------------------------------------------------------------------
  // Higher-order functions

  /**
   * `apply_operation(numbers, operation)`: `operation` applied to every
   * element, in order. An `i32` closure may panic, so it must accept every
   * element.
   */
  function ApplyOperation(numbers: seq<Int32>, operation: Int32 --> Int32): (r: seq<Int32>)
    requires forall i :: 0 <= i < |numbers| ==> operation.requires(numbers[i])
    ensures |r| == |numbers|
    ensures forall i :: 0 <= i < |numbers| ==> r[i] == operation(numbers[i])
  {
    if numbers == [] then [] else [operation(numbers[0])] + ApplyOperation(numbers[1..], operation)
  }

  /**
   * `create_multiplier(factor)`: a closure computing `x * factor`, defined
   * for every `x` whose product stays in the `i32` range.
   */
  function CreateMultiplier(factor: Int32): (f: Int32 --> Int32)
    ensures forall x: Int32 :: IsInt32(x * factor) ==> f.requires(x) && f(x) == x * factor
  {
    (x: Int32) requires IsInt32(x * factor) => (x * factor) as Int32
  }

  /** Section 3 of `main`: [1..5] doubled is [2, 4, 6, 8, 10] and tripled [3, 6, 9, 12, 15]. */
  method DemonstrateFunctional() returns (doubled: seq<Int32>, tripled: seq<Int32>)
    ensures doubled == [2, 4, 6, 8, 10]
    ensures tripled == [3, 6, 9, 12, 15]
  {
    var numbers: seq<Int32> := [1, 2, 3, 4, 5];
    var double := (x: Int32) requires IsInt32(x * 2) => (x * 2) as Int32;
    doubled := ApplyOperation(numbers, double);
    tripled := ApplyOperation(numbers, CreateMultiplier(3));
  }

  // ---------------------------------------------------------------------------
  // ImmutableData

  /** `ImmutableData`: every "update" builds a new value and leaves the receiver as it was. */
  datatype ImmutableData = ImmutableData(values: seq<Int32>, metadata: string)
  {
    /** `add_value(&self, value)`: the old values with `value` pushed at the end, same metadata. */
    function AddValue(value: Int32): (d: ImmutableData)
      ensures |d.values| == |values| + 1
      ensures d.values[..|values|] == values && d.values[|values|] == value
      ensures d.metadata == metadata
    {
      ImmutableData(values + [value], metadata)
    }

    /** `update_metadata(&self, new_metadata)`: the same values under new metadata. */
    function UpdateMetadata(newMetadata: string): (d: ImmutableData)
      ensures d.values == values && d.metadata == newMetadata
    {
      ImmutableData(values, newMetadata)
    }
  }

  /** The two updates touch different fields, so their order does not matter. */
  lemma AddValueUpdateMetadataCommute(d: ImmutableData, value: Int32, m: string)
    ensures d.AddValue(value).UpdateMetadata(m) == d.UpdateMetadata(m).AddValue(value)
  {
  }

  /** Section 4 of `main`: the chained updates give ([1, 2, 3, 4], "Updated data"); the original is a separate value. */
  lemma DemonstrateImmutability()
    ensures ImmutableData([1, 2, 3], "Initial data").AddValue(4).UpdateMetadata("Updated data")
         == ImmutableData([1, 2, 3, 4], "Updated data")
  {
    assert [1, 2, 3] + [4] == [1, 2, 3, 4];
  }

  // ---------------------------------------------------------------------------
  // Pattern matching

  const POSITIVE_NUMBER: string := "Positive number: "
  const NEGATIVE_NUMBER: string := "Negative number: "

  /**
   * `analyze_option`: the arms are tried in order; the catch-all arm that
   * answers "Unexpected case" is kept, though no input reaches it.
   */
  function AnalyzeOption(opt: Option<Int32>): (s: string)
    ensures opt == None <==> s == "No value"
    ensures opt == Some(0) <==> s == "Zero"
    ensures opt.Some? && opt.value > 0 <==> POSITIVE_NUMBER <= s
    ensures opt.Some? && opt.value < 0 <==> NEGATIVE_NUMBER <= s
  {
    match opt
    case Some(x) =>
      if x > 0 then
        var s := POSITIVE_NUMBER + IntToString(x);
        PrefixOfConcat(POSITIVE_NUMBER, IntToString(x));
        DifferentLead(NEGATIVE_NUMBER, s);
        s
      else if x < 0 then
        var s := NEGATIVE_NUMBER + IntToString(x);
        PrefixOfConcat(NEGATIVE_NUMBER, IntToString(x));
        DifferentLead(POSITIVE_NUMBER, s);
        s
      else if x == 0 then "Zero"
      else "Unexpected case"
    case None => "No value"
  }

  /**
   * Reads back a message of a sign classifier that answers "No value",
   * "Zero", `positive` followed by the number or `negative` followed by the
   * number; None for any other string.
   */
  function ParseSignMessage(s: string, positive: string, negative: string): Option<Option<Int32>>
  {
    if s == "No value" then Some(None)
    else if s == "Zero" then Some(Some(0))
    else match ParseLabelled(s, positive)
      case Some(v) => if 0 < v <= MAX_INT32 then Some(Some(v)) else None
      case None =>
        match ParseLabelled(s, negative)
        case Some(v) => if MIN_INT32 <= v < 0 then Some(Some(v)) else None
        case None => None
  }

  /** Every message of `analyze_option` determines its input: distinct inputs, distinct messages. */
  lemma ParseAnalyzeOption(opt: Option<Int32>)
    ensures ParseSignMessage(AnalyzeOption(opt), POSITIVE_NUMBER, NEGATIVE_NUMBER) == Some(opt)
  {
    if opt.Some? && opt.value != 0 {
      var x := opt.value;
      var s := AnalyzeOption(opt);
      if x > 0 {
        ParseLabelledFormat(POSITIVE_NUMBER, x);
      } else {
        ParseLabelledFormat(NEGATIVE_NUMBER, x);
        assert s[0] == 'N';
      }
      assert |s| > |"Zero"| && |s| > |"No value"|;
    }
  }

  /** The catch-all arm of `analyze_option` is dead: no input yields "Unexpected case". */
  lemma AnalyzeOptionNeverUnexpected(opt: Option<Int32>)
    ensures AnalyzeOption(opt) != "Unexpected case"
  {
    if opt.Some? && opt.value != 0 {
      var s := AnalyzeOption(opt);
      assert s[0] != 'U';
    }
  }

  /** Section 8 of `main`: the four sample options. */
  lemma DemonstrateAnalyzeOption()
    ensures AnalyzeOption(Some(5)) == "Positive number: 5"
    ensures AnalyzeOption(Some(-3)) == "Negative number: -3"
    ensures AnalyzeOption(Some(0)) == "Zero" && AnalyzeOption(None) == "No value"
  {
    assert IntToString(5) == "5";
    assert IntToString(-3) == "-3" by { assert NatToString(3) == "3"; }
    assert POSITIVE_NUMBER + "5" == "Positive number: 5";
    assert NEGATIVE_NUMBER + "-3" == "Negative number: -3";
  }

  const RUST_ENTHUSIAST: string := "Rust enthusiast with number "
  const NOT_INTERESTED: string := "Not interested in "
  const LIKES: string := "Likes "
  const NUMBER_SEPARATOR: string := ", number: "

  /**
   * `destructure_tuple((x, lang, flag))`, arms in order: ("rust", true) is an
   * enthusiast, any `false` is not interested, any other `true` likes `lang`.
   */
  function DestructureTuple(data: (Int32, string, bool)): (s: string)
    ensures RUST_ENTHUSIAST <= s <==> data.1 == "rust" && data.2
    ensures NOT_INTERESTED <= s <==> !data.2
    ensures LIKES <= s <==> data.1 != "rust" && data.2
    ensures !data.2 ==> NOT_INTERESTED + data.1 + NUMBER_SEPARATOR <= s
    ensures data.1 != "rust" && data.2 ==> LIKES + data.1 + NUMBER_SEPARATOR <= s
  {
    var (x, lang, flag) := data;
    if lang == "rust" && flag then
      var s := RUST_ENTHUSIAST + IntToString(x);
      PrefixOfConcat(RUST_ENTHUSIAST, IntToString(x));
      DifferentLead(NOT_INTERESTED, s);
      DifferentLead(LIKES, s);
      s
    else if !flag then
      var s := LanguageMessage(NOT_INTERESTED, lang, x);
      DifferentLead(RUST_ENTHUSIAST, s);
      DifferentLead(LIKES, s);
      s
    else
      var s := LanguageMessage(LIKES, lang, x);
      DifferentLead(RUST_ENTHUSIAST, s);
      DifferentLead(NOT_INTERESTED, s);
      s
  }

  /** `format!("<opening>{}, number: {}", lang, x)`, the message of the last two arms. */
  function LanguageMessage(opening: string, lang: string, x: Int32): (s: string)
    ensures opening + lang + NUMBER_SEPARATOR <= s
    ensures opening <= s && |s| > |opening|
  {
    var head := opening + lang + NUMBER_SEPARATOR;
    PrefixOfConcat(head, IntToString(x));
    PrefixOfConcat(opening, lang + NUMBER_SEPARATOR);
    assert head == opening + (lang + NUMBER_SEPARATOR);
    head + IntToString(x)
  }

  /** Whatever the arm, the message ends with the number, which reads back as `x`. */
  lemma DestructureTupleNumber(data: (Int32, string, bool))
    ensures ParseInt(LastWord(DestructureTuple(data))) == Some(data.0)
  {
    var (x, lang, flag) := data;
    var digits := IntToString(x);
    var s := DestructureTuple(data);
    var head := if lang == "rust" && flag then "Rust enthusiast with number"
      else if !flag then NOT_INTERESTED + lang + ", number:"
      else LIKES + lang + ", number:";
    assert s == head + " " + digits;
    LastWordAfterSpace(head, digits);
    ParseIntToString(x);
  }

  /**
   * The message determines the whole tuple: the opening gives the arm (and so
   * the flag), the last word gives the number, and what lies between the
   * opening and ", number: " is the language.
   */
  lemma DestructureTupleInjective(a: (Int32, string, bool), b: (Int32, string, bool))
    requires DestructureTuple(a) == DestructureTuple(b)
    ensures a == b
  {
    var s := DestructureTuple(a);
    DestructureTupleNumber(a);
    DestructureTupleNumber(b);
    assert a.0 == b.0 && a.2 == b.2;
    if a.2 && a.1 != "rust" {
      LanguageTail(LIKES, a.1, b.1, IntToString(a.0));
    } else if !a.2 {
      LanguageTail(NOT_INTERESTED, a.1, b.1, IntToString(a.0));
    }
  }

  /** Two messages with the same opening and the same number name the same language. */
  lemma LanguageTail(opening: string, l1: string, l2: string, digits: string)
    requires opening + l1 + NUMBER_SEPARATOR + digits == opening + l2 + NUMBER_SEPARATOR + digits
    ensures l1 == l2
  {
    var s := opening + l1 + NUMBER_SEPARATOR + digits;
    assert s[|opening|..|opening| + |l1|] == l1;
    assert s[|opening|..|opening| + |l2|] == l2;
  }

  /** Section 8 of `main`, first sample: ("rust", true) is the enthusiast arm. */
  lemma DemonstrateRustTuple()
    ensures DestructureTuple((42, "rust", true)) == "Rust enthusiast with number 42"
  {
    assert IntToString(42) == "42";
    assert RUST_ENTHUSIAST + "42" == "Rust enthusiast with number 42";
  }

  /** Section 8 of `main`, second sample: a `false` flag is the not-interested arm. */
  lemma DemonstratePythonTuple()
    ensures DestructureTuple((13, "python", false)) == "Not interested in python, number: 13"
  {
    assert IntToString(13) == "13";
    assert NOT_INTERESTED + "python" + NUMBER_SEPARATOR + "13" == "Not interested in python, number: 13";
  }

  /** Section 8 of `main`, third sample: any other `true` is the likes arm. */
  lemma DemonstrateJavascriptTuple()
    ensures DestructureTuple((7, "javascript", true)) == "Likes javascript, number: 7"
  {
    assert IntToString(7) == "7";
    assert LIKES + "javascript" + NUMBER_SEPARATOR + "7" == "Likes javascript, number: 7";
  }

  // ---------------------------------------------------------------------------
  // longest

  /**
   * `longest(x, y)`: `x` only when its length in bytes is strictly greater,
   * so a tie returns `y`.
   */
  function Longest(x: string, y: string): (r: string)
    ensures Utf8Len(x) > Utf8Len(y) ==> r == x
    ensures Utf8Len(x) <= Utf8Len(y) ==> r == y
  {
    if Utf8Len(x) > Utf8Len(y) then x else y
  }

  /** The result is at least as long as either argument, and is one of them. */
  lemma LongestIsLongest(x: string, y: string)
    ensures Longest(x, y) == x || Longest(x, y) == y
    ensures Utf8Len(Longest(x, y)) >= Utf8Len(x) && Utf8Len(Longest(x, y)) >= Utf8Len(y)
  {
  }

  /** On ASCII strings bytes and characters coincide, so `longest` compares character counts. */
  lemma LongestAscii(x: string, y: string)
    requires IsAscii(x) && IsAscii(y)
    ensures Longest(x, y) == if |x| > |y| then x else y
  {
    Utf8LenBounds(x);
    Utf8LenBounds(y);
  }

  /**
   * `len` counts bytes, not characters: "éé" (two characters, four bytes)
   * is longer than "abc" (three characters, three bytes).
   */
  lemma LongestCountsBytes()
    ensures |"éé"| < |"abc"|
    ensures Longest("éé", "abc") == "éé"
  {
    assert Utf8Len("éé") == 4 by {
      assert "éé"[1..] == "é" && "é"[1..] == [];
    }
    assert Utf8Len("abc") == 3 by {
      assert "abc"[1..] == "bc" && "bc"[1..] == "c" && "c"[1..] == [];
    }
  }

  // ---------------------------------------------------------------------------
  // Iterators

  predicate SquareFits(x: int) { IsInt32(x * x) }

  /** No even element's square overflows `i32`. */
  predicate EvenSquaresFit(numbers: seq<Int32>)
  {
    forall i :: 0 <= i < |numbers| && IsEven(numbers[i]) ==> SquareFits(numbers[i])
  }

  /** `numbers.iter().filter(|&x| x % 2 == 0).map(|x| x * x).collect()`. */
  function EvenSquares(numbers: seq<Int32>): (r: seq<Int32>)
    requires EvenSquaresFit(numbers)
    ensures |r| <= |numbers|
    ensures r == [] <==> forall i :: 0 <= i < |numbers| ==> !IsEven(numbers[i])
  {
    if numbers == [] then []
    else
      var x := numbers[0];
      (if IsEven(x) then [x * x] else []) + EvenSquares(numbers[1..])
  }

  /** A concatenation of inputs that fit still fits, and so does any suffix. */
  lemma EvenSquaresFitAppend(a: seq<Int32>, b: seq<Int32>)
    requires EvenSquaresFit(a) && EvenSquaresFit(b)
    ensures EvenSquaresFit(a + b)
    ensures a != [] ==> EvenSquaresFit(a[1..])
  {
    forall i | 0 <= i < |a + b| && IsEven((a + b)[i]) ensures SquareFits((a + b)[i]) {
      if i < |a| { assert (a + b)[i] == a[i]; } else { assert (a + b)[i] == b[i - |a|]; }
    }
    if a != [] {
      forall i | 0 <= i < |a| - 1 && IsEven(a[1..][i]) ensures SquareFits(a[1..][i]) {
        assert a[1..][i] == a[i + 1];
      }
    }
  }

  /** Filtering and mapping a concatenation works piece by piece: the order is kept. */
  lemma {:induction false} EvenSquaresAppend(a: seq<Int32>, b: seq<Int32>)
    requires EvenSquaresFit(a) && EvenSquaresFit(b)
    ensures EvenSquaresFit(a + b)
    ensures EvenSquares(a + b) == EvenSquares(a) + EvenSquares(b)
  {
    EvenSquaresFitAppend(a, b);
    if a == [] {
      assert a + b == b;
    } else {
      var x := a[0];
      assert (a + b)[0] == x;
      assert (a + b)[1..] == a[1..] + b;
      EvenSquaresAppend(a[1..], b);
      var head: seq<Int32> := if IsEven(x) then [x * x] else [];
      assert EvenSquares(a + b) == head + (EvenSquares(a[1..]) + EvenSquares(b));
      assert EvenSquares(a) == head + EvenSquares(a[1..]);
    }
  }

  /** `y` is in the output exactly when it is the square of an even element. */
  lemma {:induction false} EvenSquaresMembers(numbers: seq<Int32>, y: int)
    requires EvenSquaresFit(numbers)
    ensures y in EvenSquares(numbers) <==> exists i :: 0 <= i < |numbers| && IsEven(numbers[i]) && y == numbers[i] * numbers[i]
  {
    if numbers != [] {
      EvenSquaresMembers(numbers[1..], y);
      if exists i :: 0 <= i < |numbers| && IsEven(numbers[i]) && y == numbers[i] * numbers[i] {
        var i :| 0 <= i < |numbers| && IsEven(numbers[i]) && y == numbers[i] * numbers[i];
        if i > 0 {
          assert numbers[1..][i - 1] == numbers[i];
        }
      }
      if exists i :: 0 <= i < |numbers| - 1 && IsEven(numbers[1..][i]) && y == numbers[1..][i] * numbers[1..][i] {
        var i :| 0 <= i < |numbers| - 1 && IsEven(numbers[1..][i]) && y == numbers[1..][i] * numbers[1..][i];
        assert numbers[i + 1] == numbers[1..][i];
      }
    }
  }

  /** The vector `demonstrate_iterators` works on. */
  const ONE_TO_TEN: seq<Int32> := [1, 2, 3, 4, 5, 6, 7, 8, 9, 10]

  /** `demonstrate_iterators`, first step: the even squares of 1..10 are [4, 16, 36, 64, 100]. */
  lemma DemonstrateEvenSquares()
    ensures EvenSquaresFit(ONE_TO_TEN)
    ensures EvenSquares(ONE_TO_TEN) == [4, 16, 36, 64, 100]
  {
    assert [1, 2, 3, 4, 5] + [6, 7, 8, 9, 10] == ONE_TO_TEN;
    assert [4, 16] + [36, 64, 100] == [4, 16, 36, 64, 100];
    EvenSquaresLow();
    EvenSquaresHigh();
    EvenSquaresAppend([1, 2, 3, 4, 5], [6, 7, 8, 9, 10]);
  }

  /** One step of the pipeline: the head is squared if even, then the tail follows. */
  lemma EvenSquaresStep(x: Int32, rest: seq<Int32>)
    requires EvenSquaresFit(rest) && (IsEven(x) ==> SquareFits(x))
    ensures EvenSquaresFit([x] + rest)
    ensures EvenSquares([x] + rest) == (if IsEven(x) then [x * x] else []) + EvenSquares(rest)
  {
    assert ([x] + rest)[1..] == rest;
  }

  lemma EvenSquaresLow()
    ensures EvenSquaresFit([1, 2, 3, 4, 5]) && EvenSquares([1, 2, 3, 4, 5]) == [4, 16]
  {
    EvenSquaresStep(5, []);
    assert [5] + [] == [5];
    EvenSquaresStep(4, [5]);
    assert [4] + [5] == [4, 5];
    EvenSquaresStep(3, [4, 5]);
    assert [3] + [4, 5] == [3, 4, 5];
    EvenSquaresStep(2, [3, 4, 5]);
    assert [2] + [3, 4, 5] == [2, 3, 4, 5];
    EvenSquaresStep(1, [2, 3, 4, 5]);
    assert [1] + [2, 3, 4, 5] == [1, 2, 3, 4, 5];
  }

  lemma EvenSquaresHigh()
    ensures EvenSquaresFit([6, 7, 8, 9, 10]) && EvenSquares([6, 7, 8, 9, 10]) == [36, 64, 100]
  {
    EvenSquaresStep(10, []);
    assert [10] + [] == [10];
    EvenSquaresStep(9, [10]);
    assert [9] + [10] == [9, 10];
    EvenSquaresStep(8, [9, 10]);
    assert [8] + [9, 10] == [8, 9, 10];
    EvenSquaresStep(7, [8, 9, 10]);
    assert [7] + [8, 9, 10] == [7, 8, 9, 10];
    EvenSquaresStep(6, [7, 8, 9, 10]);
    assert [6] + [7, 8, 9, 10] == [6, 7, 8, 9, 10];
  }

  /** `demonstrate_iterators`, second step: `sum` of 1..10 is 55 and never overflows. */
  lemma DemonstrateSum()
    ensures SumFitsInt32(ONE_TO_TEN) && IterSum(ONE_TO_TEN) == 55
  {
    SumOneToTen();
  }

  /** `demonstrate_iterators`, third step: the first number above 5 is 6. */
  lemma DemonstrateFind()
    ensures Find(ONE_TO_TEN, (x: Int32) => x > 5) == Some(6)
  {
    var k := FirstMatch(ONE_TO_TEN, (x: Int32) => x > 5);
    assert ONE_TO_TEN[5] == 6;
    assert k >= 5 by {
      assert forall j :: 0 <= j < 5 ==> ONE_TO_TEN[j] <= 5;
    }
  }

  /** The partial sums of 1..10 are the triangular numbers, all far inside `i32`. */
  lemma SumOneToTen()
    ensures SumFitsInt32([1, 2, 3, 4, 5, 6, 7, 8, 9, 10]) && Total([1, 2, 3, 4, 5, 6, 7, 8, 9, 10]) == 55
  {
    var numbers: seq<int> := [1, 2, 3, 4, 5, 6, 7, 8, 9, 10];
    forall k | 0 <= k <= 10 ensures Total(numbers[..k]) == k * (k + 1) / 2 {
      TriangularPrefix(numbers, k);
    }
    assert numbers[..10] == numbers;
  }

  lemma {:induction false} TriangularPrefix(numbers: seq<int>, k: nat)
    requires numbers == [1, 2, 3, 4, 5, 6, 7, 8, 9, 10] && k <= 10
    ensures Total(numbers[..k]) == k * (k + 1) / 2
  {
    if k > 0 {
      assert numbers[..k][..k - 1] == numbers[..k - 1];
      TriangularPrefix(numbers, k - 1);
    }
  }

  // ---------------------------------------------------------------------------
  // Counter

  /** The `Counter` iterator: yields 0, 1, ..., max - 1, then None for ever. */
  class Counter {
    var current: Usize
    const max: Usize

    ghost predicate Valid()
      reads this
    {
      current <= max
    }

    /** `Counter::new(max)` starts at zero. */
    constructor (max: Usize)
      ensures Valid() && current == 0 && this.max == max
    {
      current := 0;
      this.max := max;
    }

    /**
     * `next(&mut self)`: below `max` it yields the current value and moves on
     * by exactly one; at `max` it yields None and stays put.
     */
    method Next() returns (item: Option<Usize>)
      requires Valid()
      modifies this
      ensures Valid()
      ensures old(current) < max ==> item == Some(old(current)) && current == old(current) + 1
      ensures old(current) == max ==> item == None && current == old(current)
    {
      if current < max {
        var c := current;
        current := current + 1;
        item := Some(c);
      } else {
        item := None;
      }
    }
  }

  /**
   * Collecting a fresh `Counter::new(max)`: the items are 0..max-1 in order,
   * and a further call of `next` still yields None.
   */
  method CollectCounter(max: Usize) returns (items: seq<Usize>, after: Option<Usize>)
    ensures |items| == max && forall i :: 0 <= i < max ==> items[i] == i
    ensures after == None
  {
    var counter := new Counter(max);
    items := [];
    var item := counter.Next();
    while item.Some?
      invariant counter.Valid() && counter.max == max
      invariant |items| == counter.current - (if item.Some? then 1 else 0)
      invariant forall i :: 0 <= i < |items| ==> items[i] == i
      invariant item.Some? ==> item.value == counter.current - 1
      invariant item.None? ==> counter.current == max
      decreases max - counter.current, item.Some?
    {
      items := items + [item.value];
      item := counter.Next();
    }
    after := counter.Next();
  }
}
