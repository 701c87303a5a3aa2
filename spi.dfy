/** The SPI stub (src/blocking/spi.rs): a builder that programs the answers of the
    blocking SPI `write` and `write_iter` operations, and the runner that answers
    them from those programs during a test. */
module Spi {
  import opened ResponseEngine

  /** Rust's `u8`, the element type of the bytes written. */
  newtype u8 = x: int | 0 <= x < 256

  /** The library's error type (src/error.rs): one variant a test can program. */
  datatype TestError = StubbedError

  /** Rust's `Result`, as far as the SPI operations use it. */
  datatype Result<T, E> = Ok(value: T) | Err(error: E)

  /** What a stubbed SPI write hands back. */
  type WriteResult = Result<(), TestError>

  /** The program used for an operation the test does not arrange: `Ok(())` on
      every call. */
  function DefaultProgram(): (r: Returns<WriteResult>)
    ensures r.returnValues == [Always(Ok(()))]
  {
    Returning(Ok(())).Always()
  }

  /** The configuration step: one program per SPI operation. */
  datatype SpiStub = SpiStub(onWrite: Returns<WriteResult>, onWriteIter: Returns<WriteResult>) {

    /** `SpiStub::arrange`: both operations answer `Ok(())` on every call. */
    static function Arrange(): (s: SpiStub)
      ensures s.onWrite == DefaultProgram() && s.onWriteIter == DefaultProgram()
    {
      SpiStub(Returning(Ok(())).Always(), Returning(Ok(())).Always())
    }

    /** `SpiStub::try_write`: program `write`; the `write_iter` program is kept. */
    function TryWrite(values: Returns<WriteResult>): (s: SpiStub)
      ensures s.onWrite == values && s.onWriteIter == onWriteIter
    {
      this.(onWrite := values)
    }

    /** `SpiStub::try_write_iter`: program `write_iter`; the `write` program is kept. */
    function TryWriteIter(result: Returns<WriteResult>): (s: SpiStub)
      ensures s.onWriteIter == result && s.onWrite == onWrite
    {
      this.(onWriteIter := result)
    }

    /** `SpiStub::go`: hand both programs, unchanged, to a new runner. */
    method Go() returns (runner: SpiStubRunner)
      ensures fresh(runner)
      ensures runner.onWrite == onWrite && runner.onWriteIter == onWriteIter
    {
      runner := new SpiStubRunner(onWrite, onWriteIter);
    }
  }

  /** The stub a test drives: each SPI call consumes its own operation's program. */
  class SpiStubRunner {
    var onWrite: Returns<WriteResult>
    var onWriteIter: Returns<WriteResult>

    constructor (onWrite: Returns<WriteResult>, onWriteIter: Returns<WriteResult>)
      ensures this.onWrite == onWrite && this.onWriteIter == onWriteIter
    {
      this.onWrite := onWrite;
      this.onWriteIter := onWriteIter;
    }

    /** `Write::try_write`: the bytes are ignored; the answer is the next match of the
        `write` program, which is the only state that changes. */
    method TryWrite(words: seq<u8>) returns (r: Outcome<WriteResult>)
      modifies this
      ensures r == old(onWrite).Next().outcome
      ensures onWrite == old(onWrite).Next().next
      ensures onWriteIter == old(onWriteIter)
    {
      r, onWrite := onWrite.GetMatch();
    }

    /** `WriteIter::try_write_iter`: the words are ignored; the answer is the next
        match of the `write_iter` program, which is the only state that changes. */
    method TryWriteIter(words: seq<u8>) returns (r: Outcome<WriteResult>)
      modifies this
      ensures r == old(onWriteIter).Next().outcome
      ensures onWriteIter == old(onWriteIter).Next().next
      ensures onWrite == old(onWrite)
    {
      r, onWriteIter := onWriteIter.GetMatch();
    }
  }

  /** An operation left unarranged answers `Ok(())` on every call and its program
      never changes. */
  lemma {:induction false} ArrangedDefaultsAnswerOk(k: nat)
    ensures Outputs(SpiStub.Arrange().onWrite, k) == seq(k, _ => Matched(Ok(())))
    ensures Outputs(SpiStub.Arrange().onWriteIter, k) == seq(k, _ => Matched(Ok(())))
    ensures After(SpiStub.Arrange().onWrite, k) == DefaultProgram()
  {
    AlwaysAnswersEveryCall<WriteResult>(Ok(()), k);
    AlwaysRepeats<WriteResult>(Ok(()), [], k);
    assert [Always(Ok(()))] + [] == DefaultProgram().returnValues;
  }

  /** tests/spi.rs, default `write`: an unarranged stub answers `Ok(())`. */
  method DefaultWriteAnswersOk() returns (r: Outcome<WriteResult>)
    ensures r == Matched(Ok(()))
  {
    var runner := SpiStub.Arrange().Go();
    r := runner.TryWrite([8, 7, 6]);
  }

  /** tests/spi.rs, arranged `write`: a stub arranged with `once(Err(StubbedError))`
      answers that error on the first call. */
  method ArrangedWriteAnswersError() returns (r: Outcome<WriteResult>)
    ensures r == Matched(Err(StubbedError))
  {
    var runner := SpiStub.Arrange().TryWrite(Returning(Err(StubbedError)).Once()).Go();
    r := runner.TryWrite([]);
  }

  /** tests/spi.rs, default `write_iter`: an unarranged stub answers `Ok(())`. */
  method DefaultWriteIterAnswersOk() returns (r: Outcome<WriteResult>)
    ensures r == Matched(Ok(()))
  {
    var runner := SpiStub.Arrange().Go();
    r := runner.TryWriteIter([]);
  }

  /** tests/spi.rs, arranged `write_iter`: a stub arranged with
      `once(Err(StubbedError))` answers that error on the first call. */
  method ArrangedWriteIterAnswersError() returns (r: Outcome<WriteResult>)
    ensures r == Matched(Err(StubbedError))
  {
    var runner := SpiStub.Arrange().TryWriteIter(Returning(Err(StubbedError)).Once()).Go();
    r := runner.TryWriteIter([8, 7, 6]);
  }

  /** Each operation answers from its own program: arranging `write` leaves
      `write_iter` on the default, a `write_iter` call does not consume the `write`
      program, and the `write` program, once spent, panics. */
  method OperationsAnswerIndependently() returns (iter: Outcome<WriteResult>, first: Outcome<WriteResult>, second: Outcome<WriteResult>)
    ensures iter == Matched(Ok(()))
    ensures first == Matched(Err(StubbedError))
    ensures second == Panicked(NoExpectedResult)
  {
    var runner := SpiStub.Arrange().TryWrite(Returning(Err(StubbedError)).Once()).Go();
    iter := runner.TryWriteIter([1, 2]);
    first := runner.TryWrite([3]);
    second := runner.TryWrite([]);
  }
}
