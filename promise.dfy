/** The promise library of the mod: a promise is a single-assignment cell
    over a `Result`; `settled` waits for many promises and records each
    outcome in its input's slot; `all` turns those outcomes into the list of
    values or into the first failure, with every later failure attached to
    it as a suppressed exception. Completion happens in whatever order the
    inputs complete: the drivers below take that order as a parameter. */
module Promises {
  import opened Jvm

  /** The state of a promise: still pending, or completed once and for all. */
  datatype PromiseState<T> = Pending | Done(result: Result<T>)

  /** A promise (a CompletableFuture under the hood), shared by its producer
      and every consumer holding it. */
  class Promise<T> {
    var state: PromiseState<T>

    /** `Promise(value)`: already resolved. */
    constructor Resolved(value: T)
      ensures state == Done(Success(value))
    {
      state := Done(Success(value));
    }

    /** `Promise(cause)`: already rejected. */
    constructor Rejected(cause: Throwable)
      ensures state == Done(Failure(cause))
    {
      state := Done(Failure(cause));
    }

    /** A fresh `CompletableFuture()`, completed later by whoever holds it. */
    constructor Incomplete()
      ensures state == Pending
    {
      state := Pending;
    }

    /** `completed`: the promise has resolved or rejected. */
    predicate Completed()
      reads this
    {
      state.Done?
    }

    /** The `result` property: null while pending, otherwise the outcome. */
    function ResultOrNull(): (r: Option<Result<T>>)
      reads this
      ensures r.None? <==> !Completed()
      ensures r.Some? ==> state == Done(r.value)
    {
      if Completed() then Some(state.result) else None
    }

    /** `complete` / `completeExceptionally`: only the first completion takes
        effect; the answer says whether this call was it. */
    method Complete(r: Result<T>) returns (changed: bool)
      modifies this
      ensures changed <==> old(state).Pending?
      ensures state == if changed then Done(r) else old(state)
    {
      changed := state.Pending?;
      if changed {
        state := Done(r);
      }
    }
  }

  /** `createResult(value, cause)`: what a `finally` or `handle` callback
      builds from the pair a completion handler receives. `None` is an absent
      argument; a null value of a nullable `T` (a read that found no PNG) is
      carried inside `T`, as `Some(None)`, so a success with a null value is
      not excluded. A handler receives either a value and no cause, or a
      cause. */
  function CreateResult<T>(value: Option<T>, cause: Option<Throwable>): (r: Result<T>)
    requires cause.Some? || value.Some?
    ensures r.Failure? <==> cause.Some?
    ensures r.Failure? ==> r.exception == cause.value
    ensures r.Success? ==> r.value == value.value
  {
    if cause.Some? then Failure(cause.value) else Success(value.value)
  }

  /** The pair a completion handler receives for an outcome. */
  function HandlerArguments<T>(r: Result<T>): (Option<T>, Option<Throwable>)
  {
    match r
    case Success(v) => (Some(v), None)
    case Failure(e) => (None, Some(e))
  }

  /** A `finally` callback sees exactly the outcome its promise completed with. */
  lemma FinallySeesOutcome<T>(r: Result<T>)
    ensures var (value, cause) := HandlerArguments(r);
            (cause.Some? || value.Some?) && CreateResult(value, cause) == r
  {
  }

  /** What a consumer passed to `Promise(consumer)` does before it returns:
      the completions it attempts on the future, in order, and the exception
      it throws, if any. */
  datatype ConsumerRun<T> = ConsumerRun(completions: seq<Result<T>>, thrown: Option<Throwable>)

  /** `evaluatePromiseConsumer`: a fresh future is handed to the consumer; if
      the consumer throws, the future is rejected with that exception, unless
      the consumer had already completed it. */
  method EvaluatePromiseConsumer<T>(consumer: ConsumerRun<T>) returns (p: Promise<T>)
    ensures fresh(p)
    ensures |consumer.completions| > 0 ==> p.state == Done(consumer.completions[0])
    ensures |consumer.completions| == 0 && consumer.thrown.Some? ==>
              p.state == Done(Failure(consumer.thrown.value))
    ensures |consumer.completions| == 0 && consumer.thrown.None? ==> p.state == Pending
  {
    p := new Promise.Incomplete();
    for i := 0 to |consumer.completions|
      invariant p.state == if i == 0 then Pending else Done(consumer.completions[0])
    {
      var _ := p.Complete(consumer.completions[i]);
    }
    if consumer.thrown.Some? {
      var _ := p.Complete(Failure(consumer.thrown.value));
    }
  }

  /** How many slots have not been filled yet. */
  function Unfilled<T>(slots: seq<Option<Result<T>>>): (n: nat)
    ensures n <= |slots|
  {
    if slots == [] then 0
    else Unfilled(slots[..|slots| - 1]) + (if slots[|slots| - 1].None? then 1 else 0)
  }

  /** Filling an empty slot leaves one fewer unfilled. */
  lemma {:induction false} UnfilledAfterFill<T>(slots: seq<Option<Result<T>>>, i: nat, r: Result<T>)
    requires i < |slots| && slots[i].None?
    ensures Unfilled(slots[i := Some(r)]) == Unfilled(slots) - 1
  {
    var last := |slots| - 1;
    var filled := slots[i := Some(r)];
    assert filled[..last] == if i < last then slots[..last][i := Some(r)] else slots[..last];
    if i < last {
      UnfilledAfterFill(slots[..last], i, r);
    }
  }

  /** No unfilled slot left means every slot holds a result. */
  lemma {:induction false} NoneUnfilled<T>(slots: seq<Option<Result<T>>>)
    requires Unfilled(slots) == 0
    ensures AllFilled(slots)
  {
    if slots != [] {
      NoneUnfilled(slots[..|slots| - 1]);
      assert forall i | 0 <= i < |slots| - 1 :: slots[i] == slots[..|slots| - 1][i];
    }
  }

  /** Every slot holds a result. */
  predicate AllFilled<T>(slots: seq<Option<Result<T>>>) {
    forall i | 0 <= i < |slots| :: slots[i].Some?
  }

  /** The list view of a results array whose slots are all filled. */
  function Filled<T>(slots: seq<Option<Result<T>>>): (rs: seq<Result<T>>)
    requires AllFilled(slots)
    ensures |rs| == |slots|
    ensures forall i | 0 <= i < |slots| :: slots[i] == Some(rs[i])
  {
    seq(|slots|, i requires 0 <= i < |slots| => slots[i].value)
  }

  /** The settle-all collector: one slot per input promise and a counter of
      inputs that have completed. It completes itself when the counter
      reaches the number of inputs; with no inputs no handler is ever
      registered, so it never completes. */
  class AwaitingCompletableFuture<T> {
    const results: array<Option<Result<T>>>
    var count: nat
    var state: PromiseState<seq<Result<T>>>

    ghost predicate Valid()
      reads this, results
    {
      && count + Unfilled(results[..]) == results.Length
      && (state.Done? <==> 0 < results.Length == count)
      && (state.Done? ==> AllFilled(results[..]) && state.result == Success(Filled(results[..])))
    }

    /** The collector for `size` input promises: every slot empty. */
    constructor (size: nat)
      ensures Valid() && fresh(results)
      ensures results.Length == size && count == 0 && state == Pending
      ensures forall i | 0 <= i < size :: results[i].None?
    {
      results := new Option<Result<T>>[size](_ => None);
      count := 0;
      state := Pending;
      new;
      EmptySlotsUnfilled(results[..]);
    }

    static lemma {:induction false} EmptySlotsUnfilled(slots: seq<Option<Result<T>>>)
      requires forall i | 0 <= i < |slots| :: slots[i].None?
      ensures Unfilled(slots) == |slots|
    {
      if slots != [] {
        EmptySlotsUnfilled(slots[..|slots| - 1]);
      }
    }

    /** The `finally` handler registered for input `i`: it runs once, when
        input `i` completes with `r`. It records `r` in slot `i`, counts it,
        and completes the collector with the list of results when the count
        reaches the number of inputs. */
    method OnSettled(i: nat, r: Result<T>)
      requires Valid()
      requires i < results.Length && results[i].None?
      modifies this, results
      ensures Valid()
      ensures results[..] == old(results[..])[i := Some(r)]
      ensures count == old(count) + 1
      ensures state == if count == results.Length then Done(Success(Filled(results[..]))) else Pending
    {
      ghost var before := results[..];
      results[i] := Some(r);
      count := count + 1;
      UnfilledAfterFill(before, i, r);
      assert results[..] == before[i := Some(r)];
      var complete := count >= results.Length;
      if complete {
        NoneUnfilled(results[..]);
        if state.Pending? {
          state := Done(Success(Filled(results[..])));
        }
      }
    }
  }

  /** The indices listed in `order` are inputs of a list of `n`, each at most
      once: the order in which those inputs complete. */
  predicate CompletionOrder(n: nat, order: seq<nat>) {
    && (forall k | 0 <= k < |order| :: order[k] < n)
    && (forall k, l | 0 <= k < l < |order| :: order[k] != order[l])
  }

  /** `settled`: the inputs with outcomes `outcomes` complete in the order
      `order` (those not listed never complete). The collector completes iff
      every input has completed and there is at least one input, and then its
      list holds input i's outcome at index i, whatever the order. */
  method Settled<T>(outcomes: seq<Result<T>>, order: seq<nat>) returns (s: PromiseState<seq<Result<T>>>)
    requires CompletionOrder(|outcomes|, order)
    ensures s.Done? <==> 0 < |outcomes| == |order|
    ensures s.Done? ==> s.result == Success(outcomes)
  {
    var collector := new AwaitingCompletableFuture<T>(|outcomes|);
    for k := 0 to |order|
      invariant collector.Valid()
      invariant collector.results.Length == |outcomes| && collector.count == k
      invariant forall j | 0 <= j < |outcomes| ::
                  collector.results[j] == if j in order[..k] then Some(outcomes[j]) else None
    {
      var i := order[k];
      assert i !in order[..k];
      ghost var before := collector.results[..];
      collector.OnSettled(i, outcomes[i]);
      assert order[..k + 1] == order[..k] + [i];
      forall j | 0 <= j < |outcomes|
        ensures collector.results[j] == if j in order[..k + 1] then Some(outcomes[j]) else None
      {
        assert collector.results[j] == before[i := Some(outcomes[i])][j];
      }
    }
    s := collector.state;
    if s.Done? {
      assert s.result.value == outcomes;
    }
  }

  /** The failures among `rs`, in index order: what becomes suppressed. */
  function Causes<T>(rs: seq<Result<T>>): seq<Throwable>
  {
    if rs == [] then []
    else (if rs[0].Failure? then [rs[0].exception] else []) + Causes(rs[1..])
  }

  /** Specification of the all-combinator over a list of outcomes. */
  function Flatten<T>(rs: seq<Result<T>>): Result<seq<T>>
  {
    if rs == [] then Success([])
    else match rs[0]
      case Failure(e) => Failure(if |rs| == 1 then e else RuntimeException(e, Causes(rs[1..])))
      case Success(v) =>
        match Flatten(rs[1..])
        case Success(vs) => Success([v] + vs)
        case Failure(e) => Failure(e)
  }

  /** `values` placed in front of what the all-combinator makes of the rest. */
  function Prepend<T>(values: seq<T>, r: Result<seq<T>>): Result<seq<T>>
  {
    match r
    case Success(vs) => Success(values + vs)
    case Failure(e) => Failure(e)
  }

  /** Successes at the front of the list only contribute their values. */
  lemma {:induction false} FlattenAfterSuccesses<T>(rs: seq<Result<T>>, i: nat, values: seq<T>)
    requires i <= |rs| && |values| == i
    requires forall j | 0 <= j < i :: rs[j] == Success(values[j])
    ensures Flatten(rs) == Prepend(values, Flatten(rs[i..]))
  {
    if i == 0 {
      assert rs[i..] == rs;
      match Flatten(rs)
      case Success(vs) => assert values + vs == vs;
      case Failure(_) =>
    } else {
      FlattenAfterSuccesses(rs[1..], i - 1, values[1..]);
      assert rs[1..][i - 1..] == rs[i..];
      assert values == [values[0]] + values[1..];
      match Flatten(rs[i..])
      case Success(vs) => assert [values[0]] + (values[1..] + vs) == values + vs;
      case Failure(_) =>
    }
  }

  /** `flattenResults`, as the source runs it: walk the results with an
      iterator, collecting values; at the first failure, rethrow it as it is
      if it is the last element, otherwise wrap it in a RuntimeException and
      add every later failure as a suppressed exception. */
  method FlattenResults<T>(results: seq<Result<T>>) returns (r: Result<seq<T>>)
    ensures r == Flatten(results)
  {
    var values: seq<T> := [];
    var i := 0;
    while i < |results|
      invariant 0 <= i <= |results| && |values| == i
      invariant forall j | 0 <= j < i :: results[j] == Success(values[j])
    {
      var next := results[i];
      i := i + 1;
      match next
      case Success(v) =>
        values := values + [v];
      case Failure(causeFirst) =>
        ghost var failAt := i - 1;
        FlattenAfterSuccesses(results, failAt, values);
        if i < |results| {
          var start := i;
          var suppressed: seq<Throwable> := [];
          // The do-while: the iterator has a next element on entry.
          while i < |results|
            invariant start <= i <= |results|
            invariant suppressed == Causes(results[start..i])
          {
            CausesAppend(results[start..i], [results[i]]);
            assert results[start..i + 1] == results[start..i] + [results[i]];
            var causeNext := results[i].ExceptionOrNull();
            i := i + 1;
            if causeNext.Some? {
              suppressed := suppressed + [causeNext.value];
            }
          }
          assert results[start..i] == results[failAt..][1..];
          return Failure(RuntimeException(causeFirst, suppressed));
        } else {
          return Failure(causeFirst);
        }
    }
    FlattenAfterSuccesses(results, i, values);
    assert results[i..] == [] && values + [] == values;
    return Success(values);
  }

  /** Failures of a concatenation are the failures of each part, in order. */
  lemma {:induction false} CausesAppend<T>(a: seq<Result<T>>, b: seq<Result<T>>)
    ensures Causes(a + b) == Causes(a) + Causes(b)
  {
    if a == [] {
      assert a + b == b;
    } else {
      CausesAppend(a[1..], b);
      assert (a + b)[0] == a[0] && (a + b)[1..] == a[1..] + b;
    }
  }

  /** With no failure, `all` yields every value, in input order. */
  lemma {:induction false} AllSuccessesYieldValues<T>(rs: seq<Result<T>>)
    requires forall i | 0 <= i < |rs| :: rs[i].Success?
    ensures Flatten(rs).Success?
    ensures |Flatten(rs).value| == |rs|
    ensures forall i | 0 <= i < |rs| :: Flatten(rs).value[i] == rs[i].value
  {
    if rs != [] {
      AllSuccessesYieldValues(rs[1..]);
    }
  }

  /** `all` fails iff some input failed. */
  lemma {:induction false} AllFailsIffSomeFailure<T>(rs: seq<Result<T>>)
    ensures Flatten(rs).Failure? <==> exists i | 0 <= i < |rs| :: rs[i].Failure?
  {
    if rs != [] {
      AllFailsIffSomeFailure(rs[1..]);
      if rs[0].Success? {
        assert (exists i | 0 <= i < |rs| :: rs[i].Failure?) <==>
               (exists i | 0 <= i < |rs| - 1 :: rs[1..][i].Failure?) by {
          forall i | 0 < i < |rs| ensures rs[i] == rs[1..][i - 1] { }
        }
      }
    }
  }

  /** The first failure by index is the primary exception: rethrown as it is
      when it is the last input, otherwise the cause of a wrapper whose
      suppressed list is every later failure, in index order. */
  lemma {:induction false} FirstFailureIsPrimary<T>(rs: seq<Result<T>>, i: nat)
    requires i < |rs| && rs[i].Failure?
    requires forall j | 0 <= j < i :: rs[j].Success?
    ensures Flatten(rs) == Failure(
              if i == |rs| - 1 then rs[i].exception
              else RuntimeException(rs[i].exception, Causes(rs[i + 1..])))
  {
    if i > 0 {
      FirstFailureIsPrimary(rs[1..], i - 1);
      assert rs[1..][i - 1 + 1..] == rs[i + 1..];
    }
  }

  /** `all`: settle every input, then flatten. With no input it never
      completes; otherwise it completes once every input has. */
  method All<T>(outcomes: seq<Result<T>>, order: seq<nat>) returns (s: PromiseState<seq<T>>)
    requires CompletionOrder(|outcomes|, order)
    ensures s.Done? <==> 0 < |outcomes| == |order|
    ensures s.Done? ==> s.result == Flatten(outcomes)
  {
    var settled := Settled(outcomes, order);
    match settled
    case Pending =>
      s := Pending;
    case Done(r) =>
      var flat := FlattenResults(r.value);
      s := Done(flat);
  }
}
