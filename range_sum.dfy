/**
 * The range-partition summation scripts (multiprocessing, threads, asyncio),
 * run sequentially: the range [from, to] is cut into `workers` half-open chunks
 * of `step` integers each, every worker writes the sum of its chunk into its own
 * slot of a preallocated result buffer, and the caller adds the slots and the
 * remainder chunk [from + workers * step, to + 1).
 */
module RangeSum {

  /** Element type 'q' of a shared-memory array: a signed 64-bit integer. */
  newtype int64 = x: int | -0x8000_0000_0000_0000 <= x < 0x8000_0000_0000_0000

  predicate FitsInt64(x: int) {
    -0x8000_0000_0000_0000 <= x < 0x8000_0000_0000_0000
  }

  const TwoTo64: int := 0x1_0000_0000_0000_0000

  /** What a store into a 'q' slot keeps: the low 64 bits of the value, read back as
      a two's-complement integer. A value already in range is kept as it is. */
  function Wrap64(x: int): (r: int64)
    ensures FitsInt64(x) ==> r as int == x
    ensures (x - r as int) % TwoTo64 == 0
  {
    ((x + 0x8000_0000_0000_0000) % TwoTo64 - 0x8000_0000_0000_0000) as int64
  }

  /** The constants shared by the three scripts. */
  const FromValue: int := 1
  const ToValue: int := 1_000_000_000
  const ProcessWorkers: nat := 4
  const ThreadWorkers: nat := 32

  /** The value every script prints: 1 + 2 + ... + 10^9. */
  const ExpectedTotal: int := 500_000_000_500_000_000

  /** sum(range(lo, hi)): lo + (lo + 1) + ... + (hi - 1), and 0 when hi <= lo. */
  function RangeTotal(lo: int, hi: int): (r: int)
    ensures hi <= lo ==> r == 0
    decreases hi - lo
  {
    if hi <= lo then 0 else RangeTotal(lo, hi - 1) + (hi - 1)
  }

  /** The closed form: twice the sum of [lo, hi) is (hi - lo) * (lo + hi - 1). */
  lemma {:induction false} RangeTotalClosedForm(lo: int, hi: int)
    requires lo <= hi
    ensures 2 * RangeTotal(lo, hi) == (hi - lo) * (lo + hi - 1)
    decreases hi - lo
  {
    if lo < hi {
      RangeTotalClosedForm(lo, hi - 1);
      assert (hi - lo) * (lo + hi - 1) == (hi - 1 - lo) * (lo + hi - 2) + 2 * (hi - 1);
    }
  }

  /** sum(xs) over a list of integers. */
  function Sum(xs: seq<int>): int {
    if xs == [] then 0 else Sum(xs[..|xs| - 1]) + xs[|xs| - 1]
  }

  /** (to - from) // workers: Python's floor division, which for a positive
      divisor agrees with Dafny's division. */
  function Step(from: int, to: int, workers: nat): (step: int)
    requires workers > 0
    ensures workers * step <= to - from < workers * (step + 1)
  {
    (to - from) / workers
  }

  /** The sum of chunk k: sum(range(from + k * step, from + (k + 1) * step)). */
  function ChunkTotal(from: int, step: int, k: int): int {
    RangeTotal(from + k * step, from + (k + 1) * step)
  }

  /** What the result buffer holds once workers 0 .. n-1 have run. */
  function ChunkTotals(from: int, step: int, n: nat): (r: seq<int>)
    ensures |r| == n
  {
    seq(n, k => ChunkTotal(from, step, k))
  }

  /** Adjacent ranges add up: [a, c) is [a, b) followed by [b, c). */
  lemma {:induction false} RangeTotalSplit(a: int, b: int, c: int)
    requires a <= b <= c
    ensures RangeTotal(a, c) == RangeTotal(a, b) + RangeTotal(b, c)
    decreases c - b
  {
    if b < c {
      RangeTotalSplit(a, b, c - 1);
    }
  }

  /** The closed form of the scripts' result when they start at 1. */
  lemma GaussSum(n: nat)
    ensures RangeTotal(1, n + 1) == n * (n + 1) / 2
  {
    RangeTotalClosedForm(1, n + 1);
  }

  /** The chunks [from + k * step, from + (k + 1) * step) for k < n are adjacent and
      disjoint, so together they add up to the sum of [from, from + n * step). */
  lemma {:induction false} ChunksTile(from: int, step: int, n: nat)
    requires step >= 0
    ensures Sum(ChunkTotals(from, step, n)) == RangeTotal(from, from + n * step)
  {
    if n > 0 {
      var prev := ChunkTotals(from, step, n - 1);
      assert ChunkTotals(from, step, n)[..n - 1] == prev;
      ChunksTile(from, step, n - 1);
      assert from + (n - 1) * step + step == from + n * step;
      RangeTotalSplit(from, from + (n - 1) * step, from + n * step);
    }
  }

  /** From + workers * step never passes `to`, so the remainder chunk
      [from + workers * step, to + 1) is never empty. */
  lemma RemainderNonEmpty(from: int, to: int, workers: nat)
    requires workers > 0 && from <= to
    ensures var step := Step(from, to, workers);
      0 <= step && from <= from + workers * step <= to
  {
    var step := Step(from, to, workers);
    ProductSign(workers, step + 1);
    ProductSign(workers, step);
  }

  /** A natural number times a non-positive number is not positive, times a
      non-negative number not negative. */
  lemma {:induction false} ProductSign(a: nat, b: int)
    ensures b <= 0 ==> a * b <= 0
    ensures 0 <= b ==> 0 <= a * b
    decreases if b < 0 then -b else b
  {
    if b < 0 {
      ProductSign(a, b + 1);
      assert a * b == a * (b + 1) - a;
    } else if b > 0 {
      ProductSign(a, b - 1);
      assert a * b == a * (b - 1) + a;
    }
  }

  /** Chunks plus remainder cover [from, to] exactly once. */
  lemma {:induction false} PartitionTotal(from: int, to: int, workers: nat)
    requires workers > 0 && from <= to
    ensures var step := Step(from, to, workers);
      Sum(ChunkTotals(from, step, workers)) + RangeTotal(from + workers * step, to + 1)
      == RangeTotal(from, to + 1)
  {
    var step := Step(from, to, workers);
    RemainderNonEmpty(from, to, workers);
    ChunksTile(from, step, workers);
    RangeTotalSplit(from, from + workers * step, to + 1);
  }

  /** A range of non-negative integers has a non-negative sum. */
  lemma {:induction false} RangeTotalNonNegative(lo: int, hi: int)
    requires 0 <= lo
    ensures 0 <= RangeTotal(lo, hi)
    decreases hi - lo
  {
    if lo < hi {
      RangeTotalNonNegative(lo, hi - 1);
    }
  }

  /** A range of positive integers inside [1, top) adds up to at most the whole of [1, top). */
  lemma RangeTotalBounded(lo: int, hi: int, top: int)
    requires 1 <= lo <= hi <= top
    ensures 0 <= RangeTotal(lo, hi) <= RangeTotal(1, top)
  {
    RangeTotalSplit(1, lo, top);
    RangeTotalSplit(lo, hi, top);
    RangeTotalNonNegative(1, lo);
    RangeTotalNonNegative(lo, hi);
    RangeTotalNonNegative(hi, top);
  }

  /** Every chunk sum of the four-process run fits in a signed 64-bit slot. */
  lemma ProcessChunksFit(k: int)
    requires 0 <= k < ProcessWorkers
    ensures FitsInt64(ChunkTotal(FromValue, Step(FromValue, ToValue, ProcessWorkers), k))
  {
    var step := Step(FromValue, ToValue, ProcessWorkers);
    assert step == 249_999_999;
    GaussSum(ToValue);
    RangeTotalBounded(FromValue + k * step, FromValue + (k + 1) * step, ToValue + 1);
  }

  /** calculate_worker with a list buffer: result[index] = sum(range(start, end)),
      and no other slot changes. */
  method CalculateWorker(start: int, end: int, result: array<int>, index: nat)
    requires index < result.Length
    modifies result
    ensures result[..] == old(result[..])[index := RangeTotal(start, end)]
  {
    result[index] := RangeTotal(start, end);
  }

  /** calculate_sum of the thread and asyncio scripts: a list of `workers` zeros,
      one worker per slot, then sum(result) plus the remainder chunk. `slots` is the
      list as the workers leave it. */
  method CalculateSum(from: int, to: int, workers: nat) returns (total: int, slots: seq<int>)
    requires workers > 0
    ensures slots == ChunkTotals(from, Step(from, to, workers), workers)
    ensures total == Sum(slots) + RangeTotal(from + workers * Step(from, to, workers), to + 1)
    ensures from <= to ==> total == RangeTotal(from, to + 1)
  {
    var step := (to - from) / workers;
    var result := new int[workers](_ => 0);
    for i := 0 to workers
      invariant forall k :: 0 <= k < i ==> result[k] == ChunkTotal(from, step, k)
      invariant forall k :: i <= k < workers ==> result[k] == 0
    {
      var start := from + i * step;
      var end := from + (i + 1) * step;
      CalculateWorker(start, end, result, i);
    }
    slots := result[..];
    assert slots == ChunkTotals(from, step, workers);
    total := Sum(slots) + RangeTotal(from + workers * step, to + 1);
    if from <= to {
      PartitionTotal(from, to, workers);
    }
  }

  /** multithreading_sum.calculate_sum: 32 workers over [1, 10^9]. */
  method ThreadingCalculateSum() returns (total: int)
    ensures total == ExpectedTotal
  {
    var slots;
    total, slots := CalculateSum(FromValue, ToValue, ThreadWorkers);
    GaussSum(ToValue);
  }

  /** asyncio_sum.calculate_sum: 32 coroutines over [1, 10^9], gathered, then summed. */
  method AsyncioCalculateSum() returns (total: int)
    ensures total == ExpectedTotal
  {
    var slots;
    total, slots := CalculateSum(FromValue, ToValue, ThreadWorkers);
    GaussSum(ToValue);
  }

  /** calculate_worker with a shared 'q' array: the slot receives the chunk sum cut
      to 64 bits, without any overflow check, and no other slot changes. */
  method ProcessWorker(start: int, end: int, result: array<int64>, index: nat)
    requires index < result.Length
    modifies result
    ensures result[..] == old(result[..])[index := Wrap64(RangeTotal(start, end))]
  {
    result[index] := Wrap64(RangeTotal(start, end));
  }

  /** A chunk too large for a slot is stored wrapped: the sum of [1, 2^33) is
      2^65 - 2^32, and the slot reads -2^32. */
  lemma LargeChunkWraps()
    ensures !FitsInt64(RangeTotal(1, 0x2_0000_0000))
    ensures Wrap64(RangeTotal(1, 0x2_0000_0000)) == -0x1_0000_0000
  {
    RangeTotalClosedForm(1, 0x2_0000_0000);
    assert RangeTotal(1, 0x2_0000_0000) == 0x2_0000_0000_0000_0000 - 0x1_0000_0000;
  }

  /** The four-process split of [1, 10^9]: chunk sums plus the remainder add up to the
      expected total. */
  lemma ProcessTotal()
    ensures var step := Step(FromValue, ToValue, ProcessWorkers);
      Sum(ChunkTotals(FromValue, step, ProcessWorkers)) + RangeTotal(FromValue + ProcessWorkers * step, ToValue + 1)
      == ExpectedTotal
  {
    PartitionTotal(FromValue, ToValue, ProcessWorkers);
    GaussSum(ToValue);
  }

  /** multiprocessing_sum.calculate_sum: four processes over [1, 10^9], a zeroed
      'q' array of four slots. Every chunk fits, so no store wraps, every slot holds
      its chunk's exact sum and the total is exact. */
  method MultiprocessingCalculateSum() returns (total: int, slots: seq<int64>)
    ensures |slots| == ProcessWorkers
    ensures forall k :: 0 <= k < ProcessWorkers ==>
      slots[k] as int == ChunkTotal(FromValue, Step(FromValue, ToValue, ProcessWorkers), k)
    ensures total == ExpectedTotal
  {
    var step := Step(FromValue, ToValue, ProcessWorkers);
    var result := new int64[ProcessWorkers](_ => 0);
    for i := 0 to ProcessWorkers
      invariant forall k :: 0 <= k < i ==> result[k] as int == ChunkTotal(FromValue, step, k)
      invariant forall k :: i <= k < ProcessWorkers ==> result[k] == 0
    {
      var start := FromValue + i * step;
      var end := FromValue + (i + 1) * step;
      ProcessChunksFit(i);
      ProcessWorker(start, end, result, i);
    }
    slots := result[..];
    var asInts := seq(ProcessWorkers, k requires 0 <= k < ProcessWorkers => slots[k] as int);
    assert asInts == ChunkTotals(FromValue, step, ProcessWorkers);
    total := Sum(asInts) + RangeTotal(FromValue + ProcessWorkers * step, ToValue + 1);
    ProcessTotal();
  }
}
