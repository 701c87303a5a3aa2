# embedded-hal-stubs: the programmed-response engine and the SPI stub

This project models, in Dafny, the part of the `embedded-hal-stubs` test-double
library that holds real logic, and proves properties of it.

- `returns.dfy`, module `ResponseEngine` (src/returns.rs). A `Return<R>` is one
  canned outcome: `Times(value, n)` answers `n` more calls, and `Always(value)` answers
  every call. `Returns<R>` is the ordered list of these entries for one stubbed
  operation. `ReturnsBuilder<R>` is the pending state of the fluent grammar. It starts
  with `Returning(v)`, which models Rust's `returns(v)`. It is finished by `Once`,
  `Twice`, `Times(n)` or `Always`. Calling `Returning(v)` on a finished `Returns`
  enters the pending state again. `Returns.GetMatch` is `get_match`. It looks only
  at the head of the list:
  - an `Always` head answers and stays;
  - a `Times` head with `n <= 1` answers and is removed;
  - any other `Times` head answers and drops to `n - 1` in place;
  - an empty list panics with "No expected result available".

  `Next` is the same step as a function. `Outputs(rs, k)` and `After(rs, k)` give what
  `k` successive calls answer and the list they leave. The lemmas about these two
  functions are where the library's promises are proved.
- `spi.dfy`, module `Spi` (src/blocking/spi.rs). `SpiStub` is the configuration
  value. It holds one `Returns` program for `write` and one for `write_iter`. `Arrange`
  sets both programs to `Ok(())` on every call. Each setter replaces exactly one
  program. `Go` moves both programs into a new `SpiStubRunner`. The runner is a class
  whose two fields change in place. `TryWrite` and `TryWriteIter` ignore the bytes
  they are given. Each one answers with the next match of its own program and changes
  only that program.

The Rust panic on exhaustion is modelled as the outcome
`Panicked("No expected result available")`, with the list left unchanged. The test
aborts at that point in Rust. `u32` and `u8` are modelled as bounded newtypes.
Rust's `clone` is modelled as value copy.

### Where the code and the library's specification differ

The model follows the code in each of these cases:

- The specification says spent entries stay in the list as inert entries. The code
  removes a `Times` entry when its last use is taken (src/returns.rs:69-72).
  `AfterKeepsSuffix` states the consequence: what follows the head is always a
  suffix of the original list.
- The specification says `times(0)` is rejected. The code accepts it unchecked
  (src/returns.rs:29-34). Because of the `n <= 1` guard, that entry answers exactly
  one call. See `TimesZeroAnswersOnce`. `Uses` therefore counts one use for both 0
  and 1.
- The specification says a sequence nobody programmed answers success. In the code,
  `Returns::default` is the empty list, which panics on the first call. The
  success-by-default behaviour comes from `SpiStub::arrange`.

## Model

| member | source | states |
|---|---|---|
| `ResponseEngine.Returns.Default` | src/returns.rs:84-90 | the default list is empty, and the first call on it panics with "No expected result available" |
| `ResponseEngine.Returning` | src/returns.rs:7-12 | `returns(v)` starts with no entries, and `v` is pending |
| `ResponseEngine.Returns.Returning` | src/returns.rs:56-61 | `.returns(v)` on a finished list keeps every entry built so far, and `v` becomes pending |
| `ResponseEngine.ReturnsBuilder.Once` | src/returns.rs:15-20 | appends `Times(v, 1)` at the end and leaves every earlier entry unchanged and in place |
| `ResponseEngine.ReturnsBuilder.Twice` | src/returns.rs:22-27 | appends `Times(v, 2)` at the end and leaves every earlier entry unchanged and in place |
| `ResponseEngine.ReturnsBuilder.Times` | src/returns.rs:29-34 | appends `Times(v, n)` for any `u32` `n`, 0 included, and leaves earlier entries unchanged |
| `ResponseEngine.ReturnsBuilder.Always` | src/returns.rs:36-41 | appends `Always(v)` at the end and leaves every earlier entry unchanged and in place |
| `ResponseEngine.Returns.Next` | src/returns.rs:66-81 | a call panics exactly when the list is empty, and then nothing changes; otherwise it answers the head's value; the list never grows, and only its head changes or is dropped |
| `ResponseEngine.Returns.GetMatch` | src/returns.rs:66-81 | an `Always` head answers and changes nothing; a `Times` head with `n <= 1` answers and leaves the tail; a `Times` head with `n > 1` answers and becomes `Times(v, n-1)` with the tail unchanged; an empty list panics; this agrees with `Next` |
| `ResponseEngine.Outputs` | src/returns.rs:66-81 | `k` successive calls give `k` outcomes, and the first is the answer of one `get_match` |
| `ResponseEngine.After` | src/returns.rs:66-81 | the list never grows, however many calls are made |
| `ResponseEngine.AfterKeepsSuffix` | src/returns.rs:69-77 | after any number of calls, everything behind the head is a suffix of the original list, so order is kept and spent entries never come back |
| `ResponseEngine.AlwaysRepeats` | src/returns.rs:68 | with an `Always(v)` head, every call answers `v` and the list never changes |
| `ResponseEngine.AlwaysShadowsTail` | src/returns.rs:68 | entries behind an `Always` head are unreachable, because the calls answer the same whatever follows it |
| `ResponseEngine.PanicIsFinal` | src/returns.rs:79 | once the list is empty, every later call panics with "No expected result available" |
| `ResponseEngine.NextConsumesOneUse` | src/returns.rs:69-77 | a call answered by a `Times` head lowers the finite budget of the list by exactly one, `times(0)` included |
| `ResponseEngine.OutputsSplit` | src/returns.rs:66-81 | the answers of `a + b` calls are the answers of `a` calls followed by the answers of `b` calls on the list they leave |
| `ResponseEngine.AfterSplit` | src/returns.rs:66-81 | the list left by `a + b` calls is the list left by `b` calls after the first `a` |
| `ResponseEngine.DrainHead` | src/returns.rs:69-77 | a head `Times(v, n)` answers `v` on exactly max(n, 1) calls and then leaves precisely the entries behind it |
| `ResponseEngine.Expand` | src/returns.rs:15-34 | the reference answers of a list of finite entries, read off its declaration, number exactly its budget |
| `ResponseEngine.FiniteEntriesFirst` | src/returns.rs:66-81 | declared order is matching order: finite entries followed by anything answer exactly their expansion on the first budget-many calls, and then only the following entries remain |
| `ResponseEngine.FiniteListExhausts` | src/returns.rs:66-81 | a list of finite entries answers exactly its budget of calls, in declared order, and panics on every call after that |
| `ResponseEngine.ReturningOnceIsSingleton` | src/returns.rs:7-20 | `returns(v).once()` is exactly `[Times(v, 1)]` |
| `ResponseEngine.OnceAnswersOnce` | src/returns.rs:150-169 | `once`: the value on the first call, and a panic on the second |
| `ResponseEngine.TwiceAnswersTwice` | src/returns.rs:171-192 | `twice`: the value on two calls, and a panic on the third |
| `ResponseEngine.TimesAnswersNTimes` | src/returns.rs:194-212 | `times(n)` with `n >= 1`: the value on exactly `n` consecutive calls, and a panic on every later call |
| `ResponseEngine.TimesZeroAnswersOnce` | src/returns.rs:29-34 | `times(0)` is accepted and answers exactly one call before the list is empty |
| `ResponseEngine.AlwaysAnswersEveryCall` | src/returns.rs:244-256 | `always`: the value on every call, for any number of calls |
| `ResponseEngine.OnceThenOnce` | src/returns.rs:214-242 | `returns(a).once().returns(b).once()` answers `a`, then `b`, then panics |
| `ResponseEngine.OnceThenAlways` | src/returns.rs:258-279 | `returns(a).once().returns(b).always()` answers `a` once and `b` on every later call |
| `Spi.DefaultProgram` | src/blocking/spi.rs:22-23 | the default program is the single entry `Always(Ok(()))` |
| `Spi.SpiStub.Arrange` | src/blocking/spi.rs:20-25 | both the `write` and `write_iter` programs start as `returns(Ok(())).always()` |
| `Spi.SpiStub.TryWrite` | src/blocking/spi.rs:28-31 | replaces the `write` program and keeps the `write_iter` program |
| `Spi.SpiStub.TryWriteIter` | src/blocking/spi.rs:34-37 | replaces the `write_iter` program and keeps the `write` program |
| `Spi.SpiStub.Go` | src/blocking/spi.rs:40-45 | a new runner holds both programs unchanged |
| `Spi.SpiStubRunner.constructor` | src/blocking/spi.rs:41-44 | the runner's fields are the given programs |
| `Spi.SpiStubRunner.TryWrite` | src/blocking/spi.rs:56-61 | ignores the bytes; answers the `write` program's next match; changes only the `write` program, as one `get_match` step |
| `Spi.SpiStubRunner.TryWriteIter` | src/blocking/spi.rs:72-80 | ignores the words; answers the `write_iter` program's next match; changes only the `write_iter` program |
| `Spi.ArrangedDefaultsAnswerOk` | src/blocking/spi.rs:20-25 | an unarranged operation answers `Ok(())` on every call, and its program never changes |
| `Spi.DefaultWriteAnswersOk` | tests/spi.rs:6-10 | an unarranged stub's `write` answers `Ok(())` |
| `Spi.ArrangedWriteAnswersError` | tests/spi.rs:12-18 | `write` arranged with `once(Err(StubbedError))` answers that error on its first call |
| `Spi.DefaultWriteIterAnswersOk` | tests/spi.rs:20-24 | an unarranged stub's `write_iter` answers `Ok(())` |
| `Spi.ArrangedWriteIterAnswersError` | tests/spi.rs:26-36 | `write_iter` arranged with `once(Err(StubbedError))` answers that error on its first call |
| `Spi.OperationsAnswerIndependently` | src/blocking/spi.rs:28-37 | arranging `write` leaves `write_iter` answering `Ok(())`; a `write_iter` call does not consume the `write` program; the spent `write` program panics |

## Left out

- `Transfer::try_transfer` (src/blocking/spi.rs:64-69) is not modelled. Its body is `todo!()`, so it has no behaviour to state.
- The `embedded_hal` traits `Write`, `WriteIter` and `Transfer` are foreign code. `TryWrite` and `TryWriteIter` are plain methods of the runner.
- `try_write_iter` takes any `IntoIterator<Item = u8>`. The model takes a `seq<u8>`, and neither version reads it.
- src/lib.rs is not part of this model. It holds an unconnected `SpiStub` that always answers `Ok(())`, plus an I/O error wrapper.
- src/error.rs is modelled only as the datatype `TestError`. It has no logic.
- The exhaustion panic is modelled as the outcome `Panicked(NoExpectedResult)` with the list unchanged. Aborting the process and the `assert_panics!` harness are not modelled.
- `ResponseEngine.Returns.GetMatch`: Rust updates the `Vec` behind `&mut self` in place. The model returns the updated list as a value instead. The update in place is modelled one level up: `SpiStubRunner` stores that value back into its own field.
- The `TestStub` scaffolding inside src/returns.rs's tests has the same shape as `SpiStub`. It is not modelled separately; its scenarios are proved on the engine directly.
- Ownership, borrowing and `Clone` are not modelled. Moves and clones are value copies.
