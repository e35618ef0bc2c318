# Verified model of the Go and Rust language samples

This project models the computational core of two teaching programs: a Go
sample (`Go/GoSample/main.go`) and a Rust sample
(`Rust/SampleRust/src/main.rs` with its error catalogue
`Rust/SampleRust/src/common_errors.rs`). The model proves properties of that
core in Dafny.

The Go part covers the following:
- `processData` with its named results.
- The variadic `sum`, which wraps around like Go's `int` on a 64-bit target.
- The `increment` closure, modelled as an object whose counter each call updates in place.
- The `multiplier` closure factory.
- The worker pool of `demonstrateWorkerPool`.

The worker pool is a class holding:
- The buffered `jobs` and `results` channels.
- The job each worker holds.
- The WaitGroup counter.
- Which workers have exited.

Each worker's receive, its send of `job * 2` and its exit are separate steps. `Pool.Run` lets any live worker take its next step until all have exited, so every interleaving is covered. For any schedule it proves that:
- No send hits a closed channel.
- `results` is closed only after every job has been answered.
- The results are the doubled jobs, each exactly once.
- With one worker, the results also come in the order the jobs were sent.

The Rust part covers:
- `Container`.
- `apply_operation` and `create_multiplier`.
- `ImmutableData`'s non-mutating updates.
- `analyze_option` and `destructure_tuple`, which build messages with `format!`.
- `longest`, where `len` counts UTF-8 bytes.
- The `filter`/`map`/`sum`/`find` pipeline of `demonstrate_iterators`.
- The `Counter` iterator, a class whose `next` updates it in place.
- From the error catalogue: `use_references`, `safe_operation`, `find_first_even` and `handle_option`.

Messages are strings. Numbers inside them are written by `Decimal.IntToString`, and `Decimal.ParseInt` reads them back. This round trip shows that each message of `analyze_option` and `handle_option` determines the input it came from. For `destructure_tuple` the number is read back the same way, and `RustSample.DestructureTupleInjective` shows that the message determines the whole tuple.

Integer widths:
- Go's `int` is modelled as 64 bits, as on 64-bit targets, and wraps (`Numeric.Wrap64`).
- Rust's `i32` panics on overflow in a debug build. A Rust operation that would overflow therefore has a precondition excluding it, except `safe_operation`, which is under Findings.

Modules, one per file:
- `Wrappers`: `Option` and `Result`.
- `Numeric`: integer ranges, wrap-around, sums.
- `Decimal`: `{}` formatting and parsing of integers.
- `Text`: prefixes, the last word of a message, UTF-8 length.
- `Iteration`: `Iterator::find`.
- `GoSample`, `WorkerPool`, `RustSample`, `CommonErrors`: the source files.

## Model

| member | source | states |
|---|---|---|
| GoSample.ProcessData | Go/GoSample/main.go:74-85 | the empty input, and only it, is the error "input cannot be empty" with an empty result and count 0; any other input comes back as "processed: " followed by the input, with its length in bytes as the count |
| GoSample.ProcessDataHello | Go/GoSample/main.go:666-673 | processData("hello") gives "processed: hello", 5 and no error |
| GoSample.Sum | Go/GoSample/main.go:530-543 | the loop's total is the sum of the arguments, wrapped to 64 bits |
| GoSample.DemonstrateVariadicFunctions | Go/GoSample/main.go:545-563 | sum(1, 2, 3) is 6, sum(1, 2, 3, 4, 5) is 15, and spreading the slice gives the same 15 |
| GoSample.Increment.constructor | Go/GoSample/main.go:573 | the captured counter starts at 0 |
| GoSample.Increment.Call | Go/GoSample/main.go:577-582 | each call adds one to the shared counter (wrapping) and returns the new value |
| GoSample.Multiplier | Go/GoSample/main.go:593-600 | the closure's result is congruent to x * factor modulo 2^64, and equals it whenever the product fits in an int |
| GoSample.MultiplierCompose | Go/GoSample/main.go:593-600 | multiplier(a) after multiplier(b) is multiplier(a * b), even across wrap-around |
| GoSample.DemonstrateClosures | Go/GoSample/main.go:568-611 | the three increment calls return 1, 2, 3; double(5) is 10 and triple(5) is 15 |
| WorkerPool.Process | Go/GoSample/main.go:117 | a worker's result for a job is congruent to job * 2 modulo 2^64, and is exactly job * 2 when that fits in an int |
| WorkerPool.ProcessAll | Go/GoSample/main.go:104-118 | the results of a run of jobs: one per job (each one given by ProcessAllAt) |
| WorkerPool.ProcessAllAt | Go/GoSample/main.go:104-118 | the i-th result of a run of jobs is job * 2 for the i-th job |
| WorkerPool.ProcessAllPermutation | Go/GoSample/main.go:104-118 | answering the same jobs in another order gives the same results in another order |
| WorkerPool.Pool.constructor | Go/GoSample/main.go:432-447 | both channels start empty and open, and the WaitGroup counts every worker as running |
| WorkerPool.Pool.Send | Go/GoSample/main.go:453-455 | a send on the open jobs channel appends the job to the buffer and to the jobs sent, and every sent job stays accounted for |
| WorkerPool.Pool.CloseJobs | Go/GoSample/main.go:458 | closing jobs changes nothing else |
| WorkerPool.Pool.Receive | Go/GoSample/main.go:104 | a worker takes the oldest buffered job |
| WorkerPool.Pool.Publish | Go/GoSample/main.go:117 | a worker sends job * 2 for the job it holds, on a results channel that is still open, and is then empty-handed |
| WorkerPool.Pool.Exit | Go/GoSample/main.go:99 | an empty-handed worker leaves its loop only after jobs is closed and drained, and lowers the WaitGroup counter by one |
| WorkerPool.Pool.CloseResults | Go/GoSample/main.go:462-468 | results is closed once, only after the counter is zero |
| WorkerPool.Pool.ResultsOpenWhileWorking | Go/GoSample/main.go:96-119 | while any worker runs, the counter is positive and results is open |
| WorkerPool.Pool.AllAnsweredWhenIdle | Go/GoSample/main.go:462-468 | when the counter reaches zero no job is queued or held, and every sent job has been answered exactly once (in order with one worker) |
| WorkerPool.Pool.Step | Go/GoSample/main.go:96-119 | running worker w answers the job it holds (results gains job * 2, w is empty-handed), else takes the oldest queued job, else exits; no other worker's slot changes, and the work left strictly decreases |
| WorkerPool.Pool.Run | Go/GoSample/main.go:460-474 | whatever the interleaving, the workers terminate, results is closed, and its contents are the doubled jobs as a multiset; with one worker they are in job order; with no workers nothing is answered |
| WorkerPool.DemonstrateWorkerPool | Go/GoSample/main.go:421-475 | three workers and jobs 1..9 give nine results, 2, 4, ..., 18 each exactly once |
| WorkerPool.ProcessJobNumbers | Go/GoSample/main.go:453-455 | the results for jobs 1..n are 2, 4, ..., 2n, for every n whose double fits in an int |
| Numeric.IterSum | Rust/SampleRust/src/main.rs:256 | `iter().sum()` of an i32 vector whose running totals all fit is the sum of its elements |
| Iteration.Find | Rust/SampleRust/src/main.rs:260 | `find` gives None exactly when no element matches, otherwise a matching element with no match before it |
| Decimal.IntToString | Rust/SampleRust/src/main.rs:213-214 | `{}` writes a '-' exactly for negative numbers, then a non-empty run of digits with no space, starting with '0' only for zero itself (no leading zeros) |
| Decimal.ParseIntToString | Rust/SampleRust/src/main.rs:213-214 | a number written by `{}` reads back as itself |
| RustSample.Container.New | Rust/SampleRust/src/main.rs:42-50 | `get` on `Container::new(value)` returns `value` |
| RustSample.ApplyOperation | Rust/SampleRust/src/main.rs:94-99 | the result has one element per input, the operation applied to it, in order |
| RustSample.CreateMultiplier | Rust/SampleRust/src/main.rs:102-104 | the closure maps x to x * factor wherever the product fits in i32 |
| RustSample.DemonstrateFunctional | Rust/SampleRust/src/main.rs:416-424 | [1..5] doubled is [2, 4, 6, 8, 10] and with create_multiplier(3) is [3, 6, 9, 12, 15] |
| RustSample.ImmutableData.AddValue | Rust/SampleRust/src/main.rs:122-130 | the new value has the old values followed by `value`, and the same metadata |
| RustSample.ImmutableData.UpdateMetadata | Rust/SampleRust/src/main.rs:132-137 | the new value has the same values and the new metadata |
| RustSample.AddValueUpdateMetadataCommute | Rust/SampleRust/src/main.rs:122-137 | the two updates can be applied in either order |
| RustSample.DemonstrateImmutability | Rust/SampleRust/src/main.rs:429-432 | the chained updates give ([1, 2, 3, 4], "Updated data") |
| RustSample.AnalyzeOption | Rust/SampleRust/src/main.rs:211-219 | None gives "No value", Some(0) gives "Zero", positives start "Positive number: " and negatives "Negative number: ", each in both directions |
| RustSample.ParseAnalyzeOption | Rust/SampleRust/src/main.rs:211-219 | the message determines the input: parsing it back gives the option |
| RustSample.AnalyzeOptionNeverUnexpected | Rust/SampleRust/src/main.rs:217 | no input reaches the catch-all "Unexpected case" arm |
| RustSample.DemonstrateAnalyzeOption | Rust/SampleRust/src/main.rs:494-497 | Some(5), Some(-3), Some(0) and None give "Positive number: 5", "Negative number: -3", "Zero" and "No value" |
| RustSample.DestructureTuple | Rust/SampleRust/src/main.rs:221-227 | the message is the enthusiast one exactly for ("rust", true), the not-interested one exactly for a false flag, and the likes one exactly for any other language with true; the last two name the language, followed by ", number: " |
| RustSample.DestructureTupleNumber | Rust/SampleRust/src/main.rs:221-227 | in every arm the message ends with the number, which reads back as x |
| RustSample.DestructureTupleInjective | Rust/SampleRust/src/main.rs:221-227 | two tuples that give the same message are equal: the message determines the number, the language and the flag |
| RustSample.DemonstrateRustTuple | Rust/SampleRust/src/main.rs:499-506 | (42, "rust", true) gives "Rust enthusiast with number 42" |
| RustSample.DemonstratePythonTuple | Rust/SampleRust/src/main.rs:499-506 | (13, "python", false) gives "Not interested in python, number: 13" |
| RustSample.DemonstrateJavascriptTuple | Rust/SampleRust/src/main.rs:499-506 | (7, "javascript", true) gives "Likes javascript, number: 7" |
| RustSample.Longest | Rust/SampleRust/src/main.rs:595-601 | x exactly when its byte length is strictly greater, otherwise y (a tie gives y) |
| RustSample.LongestIsLongest | Rust/SampleRust/src/main.rs:595-601 | the result is one of the arguments and at least as long in bytes as both |
| RustSample.LongestAscii | Rust/SampleRust/src/main.rs:595-601 | for ASCII strings the comparison is by character count |
| RustSample.LongestCountsBytes | Rust/SampleRust/src/main.rs:596 | "éé" is shorter than "abc" in characters but longer in bytes, so it wins |
| Text.Utf8Len | Rust/SampleRust/src/main.rs:596 | `str::len`, the UTF-8 length: between one and four bytes per character |
| Text.Utf8LenBounds | Rust/SampleRust/src/main.rs:596 | `len` is between the number of characters and four times it, and equals it exactly for ASCII |
| RustSample.EvenSquares | Rust/SampleRust/src/main.rs:247-251 | the filter/map/collect pipeline: never longer than its input, and empty exactly when no element is even |
| RustSample.EvenSquaresAppend | Rust/SampleRust/src/main.rs:247-251 | filtering and squaring a concatenation is the concatenation of the pieces' results, so order is kept |
| RustSample.EvenSquaresMembers | Rust/SampleRust/src/main.rs:247-251 | a value is in the output exactly when it is the square of an even input element |
| RustSample.DemonstrateEvenSquares | Rust/SampleRust/src/main.rs:244-253 | the even squares of 1..10 are [4, 16, 36, 64, 100] |
| RustSample.DemonstrateSum | Rust/SampleRust/src/main.rs:256-257 | the sum of 1..10 is 55 and no running total overflows |
| RustSample.DemonstrateFind | Rust/SampleRust/src/main.rs:260-261 | the first number above 5 is 6 |
| RustSample.Counter.constructor | Rust/SampleRust/src/main.rs:609-613 | a new counter starts at 0 with the given max |
| RustSample.Counter.Next | Rust/SampleRust/src/main.rs:618-626 | below max it yields the current value and advances by one; at max it yields None and stays put |
| RustSample.CollectCounter | Rust/SampleRust/src/main.rs:604-627 | a fresh counter yields exactly 0, 1, ..., max - 1 in order, and None after that |
| CommonErrors.UseReferences | Rust/SampleRust/src/common_errors.rs:245-247 | the sum of all elements, 0 for an empty vector |
| CommonErrors.UseReferencesAppend | Rust/SampleRust/src/common_errors.rs:245-247 | the sum of a concatenation is the sum of the parts |
| CommonErrors.SafeOperationAsWritten | Rust/SampleRust/src/common_errors.rs:255-261 | as written: a panic exactly when x exceeds i32::MAX / 2, Err("Negative number not allowed") for negative x, and Ok(2 * x) for every x from 0 to i32::MAX / 2 |
| CommonErrors.SafeOperationOverflows | Rust/SampleRust/src/common_errors.rs:257 | 2^30 passes the guard and panics, while i32::MAX / 2 still doubles |
| CommonErrors.SafeOperation | Rust/SampleRust/src/common_errors.rs:255-261 | Ok(2 * x) exactly for x >= 0, otherwise Err("Negative number not allowed") |
| CommonErrors.SafeOperationAgrees | Rust/SampleRust/src/common_errors.rs:255-261 | wherever the code as written returns, the corrected version returns the same |
| CommonErrors.SafeOperationTest | Rust/SampleRust/src/common_errors.rs:306-310 | 5 gives Ok(10) and -1 gives an error |
| CommonErrors.FindFirstEven | Rust/SampleRust/src/common_errors.rs:264-266 | None exactly when no element is even; otherwise an even element that occurs in the slice with only odd elements before it |
| CommonErrors.FindFirstEvenTest | Rust/SampleRust/src/common_errors.rs:312-316 | [1, 3, 4, 5] gives Some(4) and [1, 3, 5] gives None |
| CommonErrors.HandleOption | Rust/SampleRust/src/common_errors.rs:269-276 | the four arms cover every input, and each input is in exactly one: None, Some(0), positive ("Positive: ") and negative ("Negative: "), each in both directions |
| CommonErrors.ParseHandleOption | Rust/SampleRust/src/common_errors.rs:269-276 | the message determines the input |
| CommonErrors.HandleOptionMatchesAnalyzeOption | Rust/SampleRust/src/common_errors.rs:269-276 | handle_option and analyze_option classify every input the same way |

## Left out

- Output: all printing is left out, including the worker's progress line and the demos' `println!`/`fmt.Printf` calls.
- Timing and randomness: the worker's random sleep is left out. The interleaving it causes is covered by `Pool.Run` choosing any live worker at each step.
- Channels: the jobs are all sent, and `jobs` closed, before the workers run (`Pool.Run`). In the Go program, workers may receive while jobs are still being sent. The buffers are sized for all nine jobs, so no send blocks there.
- The results buffer is unbounded in the model. The main goroutine's receive loop over `results` is represented by the final contents of `results`.
- Go's other demos (structs, interfaces, `divide`, channels, `select`, context, defer, panic/recover, slices, maps, pointers) are not part of this model, and neither is the ownership, concurrency, float, async or HTTP code of the Rust sample: `process_data`, shapes, `ThreadSafeCounter`, `safe_divide`, `safe_sqrt`, rayon and `llm_integration.rs`.
- The commented-out compile-error examples are not live code and are not modelled. `prefer_borrowing` (`Rust/SampleRust/src/common_errors.rs:250-252`) is live but only calls `to_uppercase`, whose Unicode case mapping is not part of this model.
- Go's `int` on 32-bit targets, where it wraps at 2^32, is not modelled: `GoSample.Sum`, `GoSample.Increment.Call`, `GoSample.Multiplier` and `WorkerPool.Process` wrap modulo 2^64.
- Rust `i32` overflow is a panic in a debug build and wraps in a release build. The model follows the debug build. An operation that would overflow has a precondition excluding it, except in `CommonErrors.SafeOperationAsWritten`, which models the panic as an outcome.
- WorkerPool.ProcessAll: its own contract states only that there is one result per job. The value of each result is stated by the lemma `ProcessAllAt`, because the same fact as a quantified postcondition of the recursive function makes the proofs of the pool's steps far more expensive.
- RustSample.EvenSquares: its own contract states only the length bound and when the result is empty. What it contains is stated by `EvenSquaresMembers`, and that it keeps input order by `EvenSquaresAppend`.
- RustSample.CreateMultiplier: its contract states the closure's value only where `x * factor` fits in `i32`. It does not state that the closure is undefined elsewhere, because Dafny cannot prove anything about a lambda's precondition beyond the inputs it admits.
- RustSample.Counter.Next: `self.current += 1` cannot overflow `usize` because it only runs below `max`, so no wrap-around is modelled.
- GoSample.ProcessData: `count` is the byte length of the input, and a Go string is modelled as bytes. Only ASCII literals are converted from text.
- CommonErrors.HandleOption: the guarded match has no catch-all, so `rustc` rejects it as non-exhaustive, even though the model proves that every input reaches exactly one arm. The file says of itself that it does not compile.
- `Some(0)` in `handle_option` and `analyze_option` are patterns tried after the guards. The model states the arms in the same order.

## Findings

| source | as written | input that shows it | evidently intended | confidence | as-written member | corrected member |
|---|---|---|---|---|---|---|
| Rust/SampleRust/src/common_errors.rs:255-261 | `safe_operation` checks only `x >= 0`, then computes `x * 2` in `i32`, which panics in a debug build (and wraps to a negative number in a release build) | x = 1073741824 (2^30) | a "safe" operation returning `Result` never panics: every non-negative `x` gives `Ok(2 * x)` | not executed | CommonErrors.SafeOperationAsWritten, CommonErrors.SafeOperationOverflows | CommonErrors.SafeOperation |
