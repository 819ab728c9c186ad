/**
  The batch loop of `calculations` and `sumCalculations`: `request` upstream
  calls in sequence, one `RandomIntegers` entry per call, then one entry for
  the concatenation of all their data. The first failed call abandons the
  loop and discards every entry built so far.

  The standard deviation (`stdDev`, float64 arithmetic) is a parameter: the
  model states which data each entry's deviation is computed from, not its value.
 */
module Aggregate {
  import opened Wrappers
  import opened Upstream

  /** One entry of the JSON output: `{"stddev": ..., "data": [...]}`. */
  datatype RandomIntegers = RandomIntegers(stddev: real, data: seq<int>)

  /** The entry for one batch of numbers. */
  function Entry(stdDev: seq<int> -> real, numbers: seq<int>): RandomIntegers {
    RandomIntegers(stdDev(numbers), numbers)
  }

  /** The data of all entries, one after the other, in entry order. */
  function ConcatData(values: seq<RandomIntegers>): seq<int> {
    if values == [] then [] else ConcatData(values[..|values| - 1]) + values[|values| - 1].data
  }

  /** Total number of data items across entries. */
  function SumLengths(values: seq<RandomIntegers>): nat {
    if values == [] then 0 else SumLengths(values[..|values| - 1]) + |values[|values| - 1].data|
  }

  /** `sumCalculations`: the aggregate entry, whose data is every entry's data in order. */
  method SumCalculations(values: seq<RandomIntegers>, stdDev: seq<int> -> real) returns (r: RandomIntegers)
    ensures r.data == ConcatData(values)
    ensures r.stddev == stdDev(ConcatData(values))
  {
    var sum: seq<int> := [];
    for i := 0 to |values|
      invariant sum == ConcatData(values[..i])
    {
      assert values[..i + 1][..i] == values[..i];
      sum := sum + values[i].data;
    }
    assert values[..|values|] == values;
    r := RandomIntegers(stdDev(sum), sum);
  }

  /** Concatenation distributes over splitting the entries. */
  lemma {:induction false} ConcatDataAppend(vs: seq<RandomIntegers>, ws: seq<RandomIntegers>)
    ensures ConcatData(vs + ws) == ConcatData(vs) + ConcatData(ws)
  {
    if ws == [] {
      assert vs + ws == vs;
    } else {
      var init, last := ws[..|ws| - 1], ws[|ws| - 1];
      assert (vs + ws)[..|vs + ws| - 1] == vs + init;
      assert (vs + ws)[|vs + ws| - 1] == last;
      ConcatDataAppend(vs, init);
      assert ConcatData(vs + ws) == ConcatData(vs + init) + last.data;
      assert ConcatData(ws) == ConcatData(init) + last.data;
    }
  }

  /** The aggregate holds exactly as many items as all entries together. */
  lemma {:induction false} ConcatDataLength(values: seq<RandomIntegers>)
    ensures |ConcatData(values)| == SumLengths(values)
  {
    if values != [] {
      ConcatDataLength(values[..|values| - 1]);
    }
  }

  /** The data of a single entry is that entry's data. */
  lemma ConcatDataSingle(x: RandomIntegers)
    ensures ConcatData([x]) == x.data
  {
    assert [x][..0] == [];
  }

  /** The aggregate around one entry is the data of the entries before it, then its
      data, then the data of the entries after it. */
  lemma ConcatDataAround(before: seq<RandomIntegers>, x: RandomIntegers, after: seq<RandomIntegers>)
    ensures ConcatData(before + [x] + after) == ConcatData(before) + x.data + ConcatData(after)
  {
    ConcatDataAppend(before + [x], after);
    ConcatDataAppend(before, [x]);
    ConcatDataSingle(x);
  }

  /** Entry `i`'s data sits in the aggregate right after the data of the entries before it. */
  lemma ConcatDataPosition(values: seq<RandomIntegers>, i: nat)
    requires i < |values|
    ensures SumLengths(values[..i]) + |values[i].data| <= |ConcatData(values)|
    ensures forall j :: 0 <= j < |values[i].data| ==>
      ConcatData(values)[SumLengths(values[..i]) + j] == values[i].data[j]
  {
    var before, x, after := values[..i], values[i], values[i + 1..];
    assert values == before + [x] + after;
    ConcatDataAround(before, x, after);
    ConcatDataLength(before);
  }

  /** The outcome of each call: `Fetched(upstream)(i)` is the i-th reply, classified and parsed. */
  function Fetched(upstream: nat -> Reply): nat -> Result<seq<int>, UpstreamError> {
    (i: nat) => Fetch(upstream(i))
  }

  /** The entries the loop has built after its first `n` calls, or the first failure. */
  function Batches(n: nat, fetched: nat -> Result<seq<int>, UpstreamError>, stdDev: seq<int> -> real): Result<seq<RandomIntegers>, UpstreamError> {
    if n == 0 then Ok([])
    else
      match Batches(n - 1, fetched, stdDev)
      case Err(e) => Err(e)
      case Ok(output) =>
        match fetched(n - 1)
        case Err(e) => Err(e)
        case Ok(numbers) => Ok(output + [Entry(stdDev, numbers)])
  }

  /** Go's `for i := 0; i < request; i++` runs no iteration for a request below 1. */
  function Iterations(request: int): nat {
    if request < 0 then 0 else request
  }

  /** What `calculations` returns: the per-call entries and the aggregate, or the first failure. */
  function CalculationsResult(request: int, upstream: nat -> Reply, stdDev: seq<int> -> real): Result<seq<RandomIntegers>, UpstreamError> {
    match Batches(Iterations(request), Fetched(upstream), stdDev)
    case Err(e) => Err(e)
    case Ok(output) => Ok(output + [Entry(stdDev, ConcatData(output))])
  }

  /** `calculations(request, length)`: `upstream(i)` is the reply to the i-th
      GET of the random-number API (whose URL carries `length`). */
  method Calculations(request: int, upstream: nat -> Reply, stdDev: seq<int> -> real)
    returns (r: Result<seq<RandomIntegers>, UpstreamError>)
    ensures r == CalculationsResult(request, upstream, stdDev)
  {
    var output: seq<RandomIntegers> := [];
    var i := 0;
    while i < request
      invariant 0 <= i <= Iterations(request)
      invariant Batches(i, Fetched(upstream), stdDev) == Ok(output)
    {
      var numbers := FetchBatch(upstream(i));
      assert Fetched(upstream)(i) == numbers;
      if numbers.Err? {
        assert Batches(i + 1, Fetched(upstream), stdDev) == Err(numbers.error);
        BatchesErrPersists(i + 1, Iterations(request), Fetched(upstream), stdDev);
        return Err(numbers.error);
      }
      output := output + [RandomIntegers(stdDev(numbers.value), numbers.value)];
      i := i + 1;
    }
    assert i == Iterations(request);
    var sumResults := SumCalculations(output, stdDev);
    output := output + [sumResults];
    return Ok(output);
  }

  /** A failure is final: later iterations never run and never change it. */
  lemma {:induction false} BatchesErrPersists(i: nat, n: nat, fetched: nat -> Result<seq<int>, UpstreamError>, stdDev: seq<int> -> real)
    requires i <= n && Batches(i, fetched, stdDev).Err?
    ensures Batches(n, fetched, stdDev) == Batches(i, fetched, stdDev)
  {
    if i < n {
      BatchesErrPersists(i, n - 1, fetched, stdDev);
    }
  }

  /** When the first `n` calls succeed there is one entry per call, in call order. */
  lemma {:induction false} BatchesAllOk(n: nat, fetched: nat -> Result<seq<int>, UpstreamError>, stdDev: seq<int> -> real)
    requires forall i: nat :: i < n ==> fetched(i).Ok?
    ensures Batches(n, fetched, stdDev).Ok?
    ensures |Batches(n, fetched, stdDev).value| == n
    ensures forall i: nat :: i < n ==> Batches(n, fetched, stdDev).value[i] == Entry(stdDev, fetched(i).value)
  {
    if n > 0 {
      BatchesAllOk(n - 1, fetched, stdDev);
    }
  }

  /** The first failed call is the result of the whole loop. */
  lemma BatchesFirstFailure(k: nat, n: nat, fetched: nat -> Result<seq<int>, UpstreamError>, stdDev: seq<int> -> real)
    requires k < n && fetched(k).Err?
    requires forall i: nat :: i < k ==> fetched(i).Ok?
    ensures Batches(n, fetched, stdDev) == Err(fetched(k).error)
  {
    BatchesAllOk(k, fetched, stdDev);
    BatchesErrPersists(k + 1, n, fetched, stdDev);
  }

  /** All calls succeeding gives `request + 1` entries: entry `i` is the data of
      reply `i`, and the last is the aggregate of all of them, in order. */
  lemma CalculationsAllOk(request: int, upstream: nat -> Reply, stdDev: seq<int> -> real)
    requires forall i :: 0 <= i < request ==> Fetch(upstream(i)).Ok?
    ensures CalculationsResult(request, upstream, stdDev).Ok?
    ensures var out := CalculationsResult(request, upstream, stdDev).value;
      var n := Iterations(request);
      |out| == n + 1
      && (forall i :: 0 <= i < n ==> out[i] == Entry(stdDev, Fetch(upstream(i)).value))
      && out[n].data == ConcatData(out[..n])
      && out[n].stddev == stdDev(out[n].data)
      && |out[n].data| == SumLengths(out[..n])
  {
    var n := Iterations(request);
    BatchesAllOk(n, Fetched(upstream), stdDev);
    var output := Batches(n, Fetched(upstream), stdDev).value;
    var out := output + [Entry(stdDev, ConcatData(output))];
    assert out[..n] == output;
    ConcatDataLength(output);
  }

  /** The loop gets through its first `n` calls exactly when each of them succeeds. */
  lemma {:induction false} BatchesOkIff(n: nat, fetched: nat -> Result<seq<int>, UpstreamError>, stdDev: seq<int> -> real)
    ensures Batches(n, fetched, stdDev).Ok? <==> forall i: nat :: i < n ==> fetched(i).Ok?
  {
    if n > 0 {
      BatchesOkIff(n - 1, fetched, stdDev);
    }
  }

  /** The result is a success exactly when every one of the `request` calls succeeds. */
  lemma CalculationsOkIff(request: int, upstream: nat -> Reply, stdDev: seq<int> -> real)
    ensures CalculationsResult(request, upstream, stdDev).Ok?
        <==> forall i: nat :: i < request ==> Fetch(upstream(i)).Ok?
  {
    BatchesOkIff(Iterations(request), Fetched(upstream), stdDev);
    assert forall i: nat :: Fetched(upstream)(i) == Fetch(upstream(i));
  }

  /** Fail fast: on the first failed call `k` the result is that call's error,
      whatever replies the later calls would have had, and no list is returned. */
  lemma CalculationsFailFast(request: int, k: nat, upstream: nat -> Reply, other: nat -> Reply, stdDev: seq<int> -> real)
    requires k < request && Fetch(upstream(k)).Err?
    requires forall i :: 0 <= i < k ==> Fetch(upstream(i)).Ok?
    requires forall i :: 0 <= i <= k ==> other(i) == upstream(i)
    ensures CalculationsResult(request, upstream, stdDev) == Err(Fetch(upstream(k)).error)
    ensures CalculationsResult(request, other, stdDev) == CalculationsResult(request, upstream, stdDev)
  {
    BatchesFirstFailure(k, request, Fetched(upstream), stdDev);
    BatchesFirstFailure(k, request, Fetched(other), stdDev);
  }

  /** Two calls of five numbers each give three entries: two of five, then ten. */
  lemma TwoBatchesOfFive(upstream: nat -> Reply, stdDev: seq<int> -> real)
    requires forall i :: 0 <= i < 2 ==> Fetch(upstream(i)).Ok? && |Fetch(upstream(i)).value| == 5
    ensures CalculationsResult(2, upstream, stdDev).Ok?
    ensures var out := CalculationsResult(2, upstream, stdDev).value;
      |out| == 3 && |out[0].data| == 5 && |out[1].data| == 5 && |out[2].data| == 10
  {
    CalculationsAllOk(2, upstream, stdDev);
    var out := CalculationsResult(2, upstream, stdDev).value;
    var firstTwo := out[..2];
    assert firstTwo[..1] == [out[0]] && [out[0]][..0] == [];
    assert SumLengths([out[0]]) == |out[0].data|;
    assert SumLengths(firstTwo) == SumLengths([out[0]]) + |out[1].data|;
  }
}
