/** The programmed-response engine of the stub library (src/returns.rs): an ordered
    list of canned outcomes for one stubbed operation, the fluent grammar that builds
    it, and the matching step that answers one call and updates the list. */
module ResponseEngine {

  /** Rust's `u32`, the type of the repeat count of a `Times` entry. */
  newtype u32 = x: int | 0 <= x < 0x1_0000_0000

  /** One canned outcome: handed back `n` more times, or on every call. */
  datatype Return<R> = Times(value: R, n: u32) | Always(value: R)

  /** Message of the panic raised by a call that finds no programmed outcome. */
  const NoExpectedResult: string := "No expected result available"

  /** What one call of `get_match` does: hand back a value, or panic. */
  datatype Outcome<R> = Matched(value: R) | Panicked(message: string)

  /** The outcome of one call together with the list it leaves behind. */
  datatype Transition<R> = Transition(outcome: Outcome<R>, next: Returns<R>)

  /** Calls a `Times(_, n)` entry answers before it is dropped: the guard `n <= 1`
      makes both 0 and 1 mean a single use. An `Always` entry has no finite budget. */
  function Uses<R>(e: Return<R>): nat
  {
    match e
    case Always(_) => 0
    case Times(_, n) => if n <= 1 then 1 else n as nat
  }

  /** The finite budget of a list: the calls its `Times` entries still answer. */
  function Budget<R>(s: seq<Return<R>>): nat
  {
    if s == [] then 0 else Uses(s[0]) + Budget(s[1..])
  }

  /** True when every entry of `s` is a finite `Times` entry. */
  predicate AllFinite<R>(s: seq<Return<R>>)
  {
    forall i :: 0 <= i < |s| ==> s[i].Times?
  }

  /** `after` is `before` with `e` appended: one more entry, at the end, and every
      earlier entry unchanged and in its place. */
  ghost predicate Appends<R>(before: Returns<R>, after: Returns<R>, e: Return<R>)
  {
    |after.returnValues| == |before.returnValues| + 1 &&
    (forall i :: 0 <= i < |before.returnValues| ==> after.returnValues[i] == before.returnValues[i]) &&
    after.returnValues[|before.returnValues|] == e
  }

  /** The canned outcomes of one stubbed operation, in matching order. */
  datatype Returns<R> = Returns(returnValues: seq<Return<R>>) {

    /** `Returns::default`: the empty list, on which the first call panics. */
    static function Default(): (r: Returns<R>)
      ensures r.returnValues == []
      ensures r.Next().outcome == Panicked(NoExpectedResult)
    {
      Returns([])
    }

    /** `Returns::returns`: re-enter the pending state with another value, keeping
        the entries built so far. */
    function Returning(value: R): (b: ReturnsBuilder<R>)
      ensures b.previous == this && b.newResult == value
    {
      ReturnsBuilder(this, value)
    }

    /** What `get_match` answers and what it leaves behind; only the head entry is
        looked at. */
    function Next(): (t: Transition<R>)
      ensures t.outcome.Panicked? <==> returnValues == []
      ensures t.outcome.Panicked? ==> t.outcome.message == NoExpectedResult && t.next == this
      ensures returnValues != [] ==> t.outcome == Matched(returnValues[0].value)
      ensures |t.next.returnValues| <= |returnValues|
      ensures returnValues != [] ==>
                t.next.returnValues == returnValues[1..] ||
                (|t.next.returnValues| == |returnValues| && t.next.returnValues[1..] == returnValues[1..])
    {
      if returnValues == [] then
        Transition(Panicked(NoExpectedResult), this)
      else
        match returnValues[0]
        case Always(value) => Transition(Matched(value), this)
        case Times(value, n) =>
          if n <= 1 then Transition(Matched(value), Returns(returnValues[1..]))
          else Transition(Matched(value), Returns(returnValues[0 := Times(value, n - 1)]))
    }

    /** `get_match`: answer one call from the head of the list. An `Always` head
        stays, a `Times` head with one use left (or a count of 0) is removed, any
        other `Times` head loses one use in place; an empty list panics. */
    method GetMatch() returns (result: Outcome<R>, updated: Returns<R>)
      ensures Transition(result, updated) == Next()
      ensures returnValues == [] ==> result == Panicked(NoExpectedResult) && updated == this
      ensures returnValues != [] && returnValues[0].Always? ==>
                result == Matched(returnValues[0].value) && updated == this
      ensures returnValues != [] && returnValues[0].Times? && returnValues[0].n <= 1 ==>
                result == Matched(returnValues[0].value) && updated.returnValues == returnValues[1..]
      ensures returnValues != [] && returnValues[0].Times? && returnValues[0].n > 1 ==>
                result == Matched(returnValues[0].value) &&
                |updated.returnValues| == |returnValues| &&
                updated.returnValues[0] == Times(returnValues[0].value, returnValues[0].n - 1) &&
                updated.returnValues[1..] == returnValues[1..]
    {
      if |returnValues| == 0 {
        result, updated := Panicked(NoExpectedResult), this;
        return;
      }
      var head, tail := returnValues[0], returnValues[1..];
      match head {
        case Always(value) =>
          result, updated := Matched(value), this;
        case Times(value, n) =>
          result := Matched(value);
          if n <= 1 {
            updated := Returns(tail);
          } else {
            updated := Returns(returnValues[0 := Times(value, n - 1)]);
          }
      }
    }
  }

  /** The pending state of the grammar: the entries built so far and a value that
      still needs its repeat qualifier. */
  datatype ReturnsBuilder<R> = ReturnsBuilder(previous: Returns<R>, newResult: R) {

    /** `.once()`: append the pending value for one call. */
    function Once(): (r: Returns<R>)
      ensures Appends(previous, r, Return.Times(newResult, 1))
    {
      Returns(previous.returnValues + [Return.Times(newResult, 1)])
    }

    /** `.twice()`: append the pending value for two calls. */
    function Twice(): (r: Returns<R>)
      ensures Appends(previous, r, Return.Times(newResult, 2))
    {
      Returns(previous.returnValues + [Return.Times(newResult, 2)])
    }

    /** `.times(n)`: append the pending value for `n` calls; `n` is not checked. */
    function Times(n: u32): (r: Returns<R>)
      ensures Appends(previous, r, Return.Times(newResult, n))
    {
      Returns(previous.returnValues + [Return.Times(newResult, n)])
    }

    /** `.always()`: append the pending value for every call that reaches it. */
    function Always(): (r: Returns<R>)
      ensures Appends(previous, r, Return.Always(newResult))
    {
      Returns(previous.returnValues + [Return.Always(newResult)])
    }
  }

  /** `returns(value)`: start a list with a pending value and no entries. */
  function Returning<R>(value: R): (b: ReturnsBuilder<R>)
    ensures b.previous.returnValues == [] && b.newResult == value
  {
    ReturnsBuilder(Returns.Default(), value)
  }

  // ---------------------------------------------------------------------------
  // Successive calls: what `k` calls of `get_match` answer and leave behind.
  // ---------------------------------------------------------------------------

  /** The outcomes of `k` successive calls, starting from `rs`. */
  function Outputs<R>(rs: Returns<R>, k: nat): (outs: seq<Outcome<R>>)
    ensures |outs| == k
    ensures k > 0 ==> outs[0] == rs.Next().outcome
    decreases k
  {
    if k == 0 then [] else [rs.Next().outcome] + Outputs(rs.Next().next, k - 1)
  }

  /** The list left after `k` successive calls, starting from `rs`. */
  function After<R>(rs: Returns<R>, k: nat): (a: Returns<R>)
    ensures |a.returnValues| <= |rs.returnValues|
    decreases k
  {
    if k == 0 then rs else After(rs.Next().next, k - 1)
  }

  /** Whatever follows the head of the list after any number of calls is a suffix
      of the original list: order is kept and spent entries never come back. */
  lemma {:induction false} AfterKeepsSuffix<R>(rs: Returns<R>, k: nat)
    ensures var a := After(rs, k).returnValues;
      a != [] ==> a[1..] == rs.returnValues[|rs.returnValues| - |a| + 1..]
    decreases k
  {
    if k > 0 {
      var next := rs.Next().next;
      AfterKeepsSuffix(next, k - 1);
      var s, t, a := rs.returnValues, next.returnValues, After(rs, k).returnValues;
      assert a == After(next, k - 1).returnValues;
      if a != [] {
        var j := |t| - |a| + 1;
        if t == s[1..] {
          assert t[j..] == s[j + 1..];
        } else {
          assert t[1..] == s[1..] && |t| == |s|;
          assert t[j..] == t[1..][j - 1..] == s[1..][j - 1..] == s[j..];
        }
      }
    }
  }

  /** `k` calls with an `Always(v)` head all answer `v` and leave the list as it was. */
  lemma {:induction false} AlwaysRepeats<R>(v: R, tail: seq<Return<R>>, k: nat)
    ensures Outputs(Returns([Always(v)] + tail), k) == seq(k, _ => Matched(v))
    ensures After(Returns([Always(v)] + tail), k) == Returns([Always(v)] + tail)
  {
    if k > 0 {
      AlwaysRepeats(v, tail, k - 1);
      assert [Matched(v)] + seq(k - 1, _ => Matched(v)) == seq(k, _ => Matched(v));
    }
  }

  /** Entries behind an `Always` head are unreachable: whatever follows it, the
      calls answer the same. */
  lemma {:induction false} AlwaysShadowsTail<R>(v: R, tail1: seq<Return<R>>, tail2: seq<Return<R>>, k: nat)
    ensures Outputs(Returns([Always(v)] + tail1), k) == Outputs(Returns([Always(v)] + tail2), k)
  {
    AlwaysRepeats(v, tail1, k);
    AlwaysRepeats(v, tail2, k);
  }

  /** Once a call panics every later call panics too: an empty list stays empty. */
  lemma {:induction false} PanicIsFinal<R>(k: nat)
    ensures Outputs(Returns<R>.Default(), k) == seq(k, _ => Panicked(NoExpectedResult))
    ensures After(Returns<R>.Default(), k) == Returns<R>.Default()
  {
    if k > 0 {
      PanicIsFinal<R>(k - 1);
      var panic: Outcome<R> := Panicked(NoExpectedResult);
      assert [panic] + seq(k - 1, _ => panic) == seq(k, _ => panic);
    }
  }

  /** A `Times` head answers exactly one call and then loses one use of the budget. */
  lemma NextConsumesOneUse<R>(rs: Returns<R>)
    requires rs.returnValues != [] && rs.returnValues[0].Times?
    ensures Budget(rs.Next().next.returnValues) + 1 == Budget(rs.returnValues)
  {
    var s := rs.returnValues;
    if s[0].n > 1 {
      assert rs.Next().next.returnValues[1..] == s[1..];
    }
  }

  /** Calls compose: `a + b` calls are `a` calls followed by `b` more. */
  lemma {:induction false} OutputsSplit<R>(rs: Returns<R>, a: nat, b: nat)
    ensures Outputs(rs, a + b) == Outputs(rs, a) + Outputs(After(rs, a), b)
    decreases a
  {
    if a > 0 {
      var t := rs.Next();
      OutputsSplit(t.next, a - 1, b);
    }
  }

  lemma {:induction false} AfterSplit<R>(rs: Returns<R>, a: nat, b: nat)
    ensures After(rs, a + b) == After(After(rs, a), b)
    decreases a
  {
    if a > 0 {
      var next := rs.Next().next;
      AfterSplit(next, a - 1, b);
      assert After(rs, a) == After(next, a - 1);
      assert After(rs, a + b) == After(next, (a - 1) + b);
    }
  }

  /** A head `Times(v, n)` answers `v` on exactly `Uses` calls (one for `n` of 0 or
      1, `n` otherwise) and then leaves precisely the entries behind it. */
  lemma {:induction false} DrainHead<R>(v: R, n: u32, tail: seq<Return<R>>)
    ensures Outputs(Returns([Times(v, n)] + tail), Uses(Times(v, n))) == seq(Uses(Times(v, n)), _ => Matched(v))
    ensures After(Returns([Times(v, n)] + tail), Uses(Times(v, n))) == Returns(tail)
    decreases n
  {
    var rs := Returns([Times(v, n)] + tail);
    if n <= 1 {
      assert rs.returnValues[1..] == tail;
    } else {
      var u := Uses(Times(v, n));
      assert rs.Next().next == Returns([Times(v, n - 1)] + tail);
      DrainHead(v, n - 1, tail);
      assert Uses(Times(v, n - 1)) == u - 1;
      assert [Matched(v)] + seq(u - 1, _ => Matched(v)) == seq(u, _ => Matched(v));
    }
  }

  /** Reference behaviour of a list of finite entries, read off its declaration:
      each `Times(v, n)` answers `v` for its `Uses`, in declared order. */
  function Expand<R>(s: seq<Return<R>>): (outs: seq<Outcome<R>>)
    requires AllFinite(s)
    ensures |outs| == Budget(s)
  {
    if s == [] then [] else seq(Uses(s[0]), _ => Matched(s[0].value)) + Expand(s[1..])
  }

  /** Declared order is matching order: a list `p` of finite entries followed by
      anything `q` answers exactly `Expand(p)` on its first `Budget(p)` calls and
      then leaves `q`, so later entries only become visible once every earlier one
      is spent. */
  lemma {:induction false} FiniteEntriesFirst<R>(p: seq<Return<R>>, q: seq<Return<R>>)
    requires AllFinite(p)
    ensures Outputs(Returns(p + q), Budget(p)) == Expand(p)
    ensures After(Returns(p + q), Budget(p)) == Returns(q)
  {
    if p == [] {
      assert p + q == q;
    } else {
      var v, n := p[0].value, p[0].n;
      var rest := p[1..] + q;
      assert p + q == [Times(v, n)] + rest;
      DrainHead(v, n, rest);
      OutputsSplit(Returns(p + q), Uses(p[0]), Budget(p[1..]));
      AfterSplit(Returns(p + q), Uses(p[0]), Budget(p[1..]));
      FiniteEntriesFirst(p[1..], q);
    }
  }

  /** A list of finite entries answers exactly its budget of calls, as `Expand`
      says, and panics on every call after that. */
  lemma FiniteListExhausts<R>(p: seq<Return<R>>, k: nat)
    requires AllFinite(p)
    ensures Outputs(Returns(p), Budget(p) + k) == Expand(p) + seq(k, _ => Panicked(NoExpectedResult))
  {
    assert p + [] == p;
    FiniteEntriesFirst(p, []);
    OutputsSplit(Returns(p), Budget(p), k);
    PanicIsFinal<R>(k);
  }

  // ---------------------------------------------------------------------------
  // The programs of the unit tests in src/returns.rs, built with the grammar.
  // ---------------------------------------------------------------------------

  /** `returns(v).once()` is the one-entry list `[Times(v, 1)]`. */
  lemma ReturningOnceIsSingleton<R>(v: R)
    ensures Returning(v).Once().returnValues == [Times(v, 1)]
  {
    assert [] + [Times(v, 1)] == [Times(v, 1)];
  }

  /** `once`: the value on the first call, a panic on the second. */
  lemma OnceAnswersOnce<R>(v: R)
    ensures Outputs(Returning(v).Once(), 2) == [Matched(v), Panicked(NoExpectedResult)]
  {
    ReturningOnceIsSingleton(v);
    FiniteListExhausts([Times(v, 1)], 1);
  }

  /** `twice`: the value on two calls, a panic on the third. */
  lemma TwiceAnswersTwice<R>(v: R)
    ensures Outputs(Returning(v).Twice(), 3) == [Matched(v), Matched(v), Panicked(NoExpectedResult)]
  {
    var p := [Times(v, 2)];
    assert Returning(v).Twice().returnValues == p;
    FiniteListExhausts(p, 1);
  }

  /** `times(n)` with `n >= 1`: the value on exactly `n` consecutive calls, then a
      panic on every later call. */
  lemma TimesAnswersNTimes<R>(v: R, n: u32, k: nat)
    requires n >= 1
    ensures Outputs(Returning(v).Times(n), n as nat + k)
         == seq(n as nat, _ => Matched(v)) + seq(k, _ => Panicked(NoExpectedResult))
  {
    var p := [Times(v, n)];
    assert Returning(v).Times(n).returnValues == p;
    assert Expand(p) == seq(n as nat, _ => Matched(v)) + Expand(p[1..]);
    FiniteListExhausts(p, k);
  }

  /** `times(0)` is accepted unchecked and, through the `n <= 1` guard, answers
      exactly one call before the list is empty. */
  lemma TimesZeroAnswersOnce<R>(v: R)
    ensures Outputs(Returning(v).Times(0), 2) == [Matched(v), Panicked(NoExpectedResult)]
  {
    var p := [Times(v, 0)];
    assert Returning(v).Times(0).returnValues == p;
    FiniteListExhausts(p, 1);
  }

  /** `always`: the value on every call, however many. */
  lemma {:induction false} AlwaysAnswersEveryCall<R>(v: R, k: nat)
    ensures Outputs(Returning(v).Always(), k) == seq(k, _ => Matched(v))
  {
    assert Returning(v).Always().returnValues == [Always(v)] + [];
    AlwaysRepeats(v, [], k);
  }

  /** `returns(a).once().returns(b).once()`: `a`, then `b`, then a panic. */
  lemma OnceThenOnce<R>(a: R, b: R)
    ensures Outputs(Returning(a).Once().Returning(b).Once(), 3)
         == [Matched(a), Matched(b), Panicked(NoExpectedResult)]
  {
    var p := [Times(a, 1), Times(b, 1)];
    assert Returning(a).Once().Returning(b).Once().returnValues == p;
    assert Expand(p) == [Matched(a)] + Expand(p[1..]);
    assert Expand(p[1..]) == [Matched(b)] + Expand(p[2..]);
    FiniteListExhausts(p, 1);
  }

  /** `returns(a).once().returns(b).always()`: `a` on the first call and `b` on
      every call after it. */
  lemma OnceThenAlways<R>(a: R, b: R, k: nat)
    ensures Outputs(Returning(a).Once().Returning(b).Always(), 1 + k)
         == [Matched(a)] + seq(k, _ => Matched(b))
  {
    var rs := Returning(a).Once().Returning(b).Always();
    assert rs.returnValues == [Times(a, 1)] + [Always(b)];
    FiniteEntriesFirst([Times(a, 1)], [Always(b)]);
    OutputsSplit(rs, 1, k);
    AlwaysRepeats(b, [], k);
    assert [Always(b)] + [] == [Always(b)];
  }
}
