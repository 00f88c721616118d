/**
 Benchmark arithmetic on unsigned machine words: bit-serial division, running totals,
 insertion sort, nearest-rank percentiles and unit conversion.
 */
module BenchStats {
  import opened Config
  import opened Arithmetic

  const MAX_SAMPLES: nat := 64
  const RANGE64: nat := 0x1_0000_0000_0000_0000
  const HALF64: nat := 0x8000_0000_0000_0000
  const NS_PER_SECOND: nat := 1_000_000_000

  // ---------------------------------------------------------------------------
  // Division
  // ---------------------------------------------------------------------------

  function Pow2(n: nat): (r: nat)
    ensures r > 0
  {
    if n == 0 then 1 else 2 * Pow2(n - 1)
  }

  lemma {:induction false} Pow2Sum(a: nat, b: nat)
    ensures Pow2(a + b) == Pow2(a) * Pow2(b)
  {
    if a > 0 {
      Pow2Sum(a - 1, b);
      assert Pow2(a + b) == 2 * Pow2(a - 1 + b);
      assert 2 * (Pow2(a - 1) * Pow2(b)) == (2 * Pow2(a - 1)) * Pow2(b);
    }
  }

  lemma Pow2At63()
    ensures Pow2(63) == HALF64 && Pow2(64) == RANGE64
  {
    assert Pow2(8) == 256;
    Pow2Sum(8, 8);
    Pow2Sum(16, 16);
    assert Pow2(32) == 65536 * 65536;
    Pow2Sum(32, 32);
    assert Pow2(64) == 2 * Pow2(63);
  }

  /** A number below `2 * p` split at its top bit, and both parts shifted up by `f`. */
  lemma SplitTop(lo: nat, p: nat, f: nat)
    requires p > 0 && f > 0 && lo < 2 * p
    ensures var b := Div(lo, p);
      b <= 1 && b * p <= lo < b * p + p && lo * f == b * (p * f) + (lo - b * p) * f && (lo - b * p) * f < p * f
  {
    var b := if lo < p then 0 else 1;
    Quotient(lo, p, b, lo - b * p);
    var rest := lo - b * p;
    assert (b * p + rest) * f == b * (p * f) + rest * f;
    Gap(f, p, rest);
  }

  /** Quotient and remainder by name, so that proofs can treat them as numbers. */
  function Div(n: nat, d: nat): nat
    requires d > 0
  {
    n / d
  }

  function Mod(n: nat, d: nat): nat
    requires d > 0
  {
    n % d
  }

  /** The top bit of a word whose `63 - k` low bits are zero, and the word shifted past it. */
  lemma TopBit(lo: nat, k: nat)
    requires k <= 63 && lo < Pow2(k + 1)
    ensures var b := Div(lo, Pow2(k));
      var word := lo * Pow2(63 - k);
      && b <= 1 && b * Pow2(k) <= lo < b * Pow2(k) + Pow2(k)
      && word / HALF64 == b
      && (word * 2) % RANGE64 == (lo - b * Pow2(k)) * Pow2(64 - k)
  {
    hide Pow2, Div;
    var p, f := Pow2(k), Pow2(63 - k);
    PowersAround(k);
    SplitTop(lo, p, f);
    var rest := lo - Div(lo, p) * p;
    Shifted(lo * f, Div(lo, p), rest * f);
    Doubled(rest, f);
  }

  lemma PowersAround(k: nat)
    requires k <= 63
    ensures Pow2(k) * Pow2(63 - k) == HALF64 && Pow2(k + 1) == 2 * Pow2(k) && Pow2(64 - k) == 2 * Pow2(63 - k)
  {
    Pow2At63();
    Pow2Sum(k, 63 - k);
  }

  lemma Shifted(word: nat, b: nat, x: nat)
    requires b <= 1 && x < HALF64 && word == b * HALF64 + x
    ensures word / HALF64 == b && (word * 2) % RANGE64 == 2 * x
  {
  }

  lemma Doubled(a: nat, f: nat)
    ensures a * (2 * f) == 2 * (a * f)
  {
  }

  /** One step of long division. */
  lemma LongDivision(h: nat, d: nat, b: nat, q: nat, r: nat)
    requires d > 0 && b <= 1 && q == Div(h, d) && r == Mod(h, d)
    ensures var r' := 2 * r + b;
      if r' >= d then Div(2 * h + b, d) == 2 * q + 1 && Mod(2 * h + b, d) == r' - d
      else Div(2 * h + b, d) == 2 * q && Mod(2 * h + b, d) == r'
  {
    assert h == d * q + r;
    var r' := 2 * r + b;
    if r' >= d {
      Quotient(2 * h + b, d, 2 * q + 1, r' - d);
    } else {
      Quotient(2 * h + b, d, 2 * q, r');
    }
  }

  /** After `bit` rounds the numerator's `bit` high bits `hi` have been divided; its low bits `lo`
      are still to come, shifted to the top of the word. */
  ghost predicate Divided(n: nat, d: nat, bit: nat, hi: nat, lo: nat, numerator: nat, quotient: nat, remainder: nat) {
    && bit <= 64 && d > 0 && n < RANGE64
    && lo < Pow2(64 - bit) && n == hi * Pow2(64 - bit) + lo && numerator == lo * Pow2(bit)
    && quotient == Div(hi, d) && remainder == Mod(hi, d)
  }

  lemma HighBits(n: nat, hi: nat, lo: nat, k: nat, b: nat)
    requires b * Pow2(k) <= lo && n == hi * Pow2(k + 1) + lo
    ensures n == (2 * hi + b) * Pow2(k) + (lo - b * Pow2(k))
  {
    var p := Pow2(k);
    assert Pow2(k + 1) == 2 * p;
    hide Pow2;
    Doubled(hi, p);
    assert (2 * hi + b) * p == 2 * (hi * p) + b * p;
  }

  lemma QuotientBounded(n: nat, d: nat, hi: nat, p: nat, lo: nat)
    requires d > 0 && p > 0 && n == hi * p + lo
    ensures Div(hi, d) <= hi <= n && Mod(hi, d) < d
  {
    Gap(hi, p, 0);
    Gap(1, d, 0);
    assert hi == d * (hi / d) + hi % d;
    if hi / d > 0 {
      Gap(hi / d, d, 0);
      assert (hi / d) * d == d * (hi / d);
    }
  }

  lemma NoWrap(x: nat)
    requires x < RANGE64
    ensures x % RANGE64 == x
  {
  }

  /** One round: shift the next bit into the remainder and subtract if possible. */
  lemma DivisionRound(n: nat, d: Word32, bit: nat, hi: nat, lo: nat, numerator: nat, quotient: nat, remainder: nat)
    requires bit < 64 && Divided(n, d, bit, hi, lo, numerator, quotient, remainder)
    ensures var b := Div(lo, Pow2(63 - bit));
      var shifted := (remainder * 2) % RANGE64 + numerator / HALF64;
      && b * Pow2(63 - bit) <= lo
      && Divided(n, d, bit + 1, 2 * hi + b, lo - b * Pow2(63 - bit), (numerator * 2) % RANGE64,
                 (quotient * 2) % RANGE64 + (if shifted >= d then 1 else 0), if shifted >= d then shifted - d
                     else shifted)
  {
    var k := 63 - bit;
    assert 64 - bit == k + 1 && 63 - k == bit && 64 - k == bit + 1 && 64 - (bit + 1) == k;
    hide Pow2, Div, Mod;
    TopBit(lo, k);
    var b := Div(lo, Pow2(k));
    LongDivision(hi, d, b, quotient, remainder);
    HighBits(n, hi, lo, k, b);
    QuotientBounded(n, d, 2 * hi + b, Pow2(k), lo - b * Pow2(k));
    QuotientBounded(n, d, hi, Pow2(k + 1), lo);
    NoWrap(remainder * 2);
    NoWrap(quotient * 2);
    assert numerator / HALF64 == b;
  }

  /** Bit-serial division is exact for every 64-bit numerator and 32-bit denominator. */
  method Divide(n: nat, d: Word32) returns (quotient: nat)
    requires n < RANGE64
    ensures quotient == if d == 0 then 0 else n / d
  {
    if d == 0 {
      return 0;
    }
    var numerator: nat, remainder: nat := n, 0;
    quotient := 0;
    ghost var hi: nat, lo: nat := 0, n;
    Pow2At63();
    var bit := 0;
    while bit < 64
      invariant 0 <= bit <= 64 && Divided(n, d, bit, hi, lo, numerator, quotient, remainder)
    {
      DivisionRound(n, d, bit, hi, lo, numerator, quotient, remainder);
      hi, lo := 2 * hi + Div(lo, Pow2(63 - bit)), lo - Div(lo, Pow2(63 - bit)) * Pow2(63 - bit);
      remainder := (remainder * 2) % RANGE64 + numerator / HALF64;
      numerator := (numerator * 2) % RANGE64;
      quotient := (quotient * 2) % RANGE64;
      if remainder >= d {
        remainder := remainder - d;
        quotient := quotient + 1;
      }
      bit := bit + 1;
    }
    assert Pow2(0) == 1;
  }

  // ---------------------------------------------------------------------------
  // Unit conversion and intervals
  // ---------------------------------------------------------------------------

  /** Nanoseconds rounded down, or the largest word if they do not fit. */
  method CyclesToNanoseconds(cycles: Word32, hz: Word32) returns (ns: Word32)
    ensures hz == 0 ==> ns == 0
    ensures hz > 0 ==> ns == if cycles * NS_PER_SECOND / hz > UINT32_MAX then UINT32_MAX
      else cycles * NS_PER_SECOND / hz
  {
    if hz == 0 {
      return 0;
    }
    var exact := Divide(cycles * NS_PER_SECOND, hz);
    if exact > UINT32_MAX {
      return UINT32_MAX;
    }
    ns := exact;
  }

  function ElapsedCycles(start: Word32, end: Word32): Word32 {
    (end - start) % TICK_RANGE
  }

  /** The difference of two readings of the wrapping counter is the time between them, as long
      as that is less than one revolution. */
  lemma ElapsedExact(start: nat, t: Word32)
    ensures ElapsedCycles(start % TICK_RANGE, (start + t) % TICK_RANGE) == t
  {
    var a, b := start % TICK_RANGE, (start + t) % TICK_RANGE;
    assert start == TICK_RANGE * (start / TICK_RANGE) + a;
    assert start + t == TICK_RANGE * ((start + t) / TICK_RANGE) + b;
  }

  // ---------------------------------------------------------------------------
  // Sorting
  // ---------------------------------------------------------------------------

  predicate Sorted(s: seq<Word32>) {
    forall i, j :: 0 <= i < j < |s| ==> s[i] <= s[j]
  }

  /** Insert behind everything that is not larger. */
  function Inserted(s: seq<Word32>, v: Word32): (r: seq<Word32>)
    ensures |r| == |s| + 1
  {
    if s == [] || s[|s| - 1] <= v then s + [v] else Inserted(s[..|s| - 1], v) + [s[|s| - 1]]
  }

  function SortedOf(s: seq<Word32>): (r: seq<Word32>)
    ensures |r| == |s|
  {
    if s == [] then [] else Inserted(SortedOf(s[..|s| - 1]), s[|s| - 1])
  }

  lemma {:induction false} InsertedOk(s: seq<Word32>, v: Word32)
    requires Sorted(s)
    ensures Sorted(Inserted(s, v)) && multiset(Inserted(s, v)) == multiset(s) + multiset{v}
    ensures forall x :: x in Inserted(s, v) <==> x in s || x == v
  {
    if s != [] && s[|s| - 1] > v {
      var t, z := s[..|s| - 1], s[|s| - 1];
      InsertedOk(t, v);
      assert s == t + [z];
      var r := Inserted(t, v);
      forall i | 0 <= i < |r|
        ensures r[i] <= z
      {
        assert r[i] in t || r[i] == v;
      }
    }
  }

  /** Sorting permutes the samples into order. */
  lemma {:induction false} SortedOfOk(s: seq<Word32>)
    ensures Sorted(SortedOf(s)) && multiset(SortedOf(s)) == multiset(s)
  {
    if s != [] {
      SortedOfOk(s[..|s| - 1]);
      InsertedOk(SortedOf(s[..|s| - 1]), s[|s| - 1]);
      assert s == s[..|s| - 1] + [s[|s| - 1]];
    }
  }

  /** Where the insertion scan stops is where the value belongs. */
  lemma {:induction false} InsertedAt(s: seq<Word32>, v: Word32, k: nat)
    requires k <= |s| && Sorted(s) && (k > 0 ==> s[k - 1] <= v) && forall i :: k <= i < |s| ==> s[i] > v
    ensures Inserted(s, v) == s[..k] + [v] + s[k..]
    decreases |s|
  {
    hide Inserted;
    InsertedLast(s, v);
    if k == |s| {
      assert s[..k] + [v] + s[k..] == s + [v];
    } else {
      var t, z := s[..|s| - 1], s[|s| - 1];
      InsertedAt(t, v, k);
      assert t[..k] == s[..k] && t[k..] + [z] == s[k..];
      assert t[..k] + [v] + t[k..] + [z] == t[..k] + [v] + (t[k..] + [z]);
    }
  }

  lemma InsertedLast(s: seq<Word32>, v: Word32)
    ensures Inserted(s, v) ==
      if s == [] || s[|s| - 1] <= v then s + [v] else Inserted(s[..|s| - 1], v) + [s[|s| - 1]]
  {
  }

  method Sort(a: array<Word32>, count: nat)
    requires count <= a.Length
    modifies a
    ensures a[..count] == SortedOf(old(a[..count])) && a[count..] == old(a[count..])
  {
    if count == 0 {
      return;
    }
    var index := 1;
    assert a[..1] == SortedOf(old(a[..1])) by {
      assert old(a[..1])[..0] == [];
    }
    while index < count
      invariant 1 <= index <= count
      invariant a[..index] == SortedOf(old(a[..index])) && a[index..] == old(a[index..])
    {
      SortedOfOk(old(a[..index]));
      InsertStep(a, index);
      assert old(a[..index + 1])[..index] == old(a[..index]);
      index := index + 1;
    }
  }

  /** Move larger samples up and put the sample at `index` into the gap. */
  method InsertStep(a: array<Word32>, index: nat)
    requires index < a.Length && Sorted(a[..index])
    modifies a
    ensures a[..index + 1] == Inserted(old(a[..index]), old(a[index])) && a[index + 1..] == old(a[index + 1..])
  {
    var value := a[index];
    var position := index;
    ghost var s := a[..index];
    while position > 0 && a[position - 1] > value
      invariant 0 <= position <= index
      invariant a[..position] == s[..position]
      invariant forall i :: position < i <= index ==> a[i] == s[i - 1]
      invariant forall i :: position <= i < index ==> s[i] > value
      invariant a[index + 1..] == old(a[index + 1..])
    {
      assert a[position - 1] == s[position - 1];
      a[position] := a[position - 1];
      position := position - 1;
    }
    a[position] := value;
    if position > 0 {
      assert a[position - 1] == s[position - 1];
    }
    InsertedAt(s, value, position);
    assert a[..index + 1] == s[..position] + [value] + s[position..];
  }

  // ---------------------------------------------------------------------------
  // Percentiles
  // ---------------------------------------------------------------------------

  /** Number of samples that are at most `v`, and strictly below it. */
  function AtMost(s: seq<Word32>, v: Word32): nat {
    if s == [] then 0 else AtMost(s[..|s| - 1], v) + if s[|s| - 1] <= v then 1 else 0
  }

  function Below(s: seq<Word32>, v: Word32): nat {
    if s == [] then 0 else Below(s[..|s| - 1], v) + if s[|s| - 1] < v then 1 else 0
  }

  lemma CountSnoc(s: seq<Word32>, x: Word32, v: Word32)
    ensures AtMost(s + [x], v) == AtMost(s, v) + if x <= v then 1 else 0
    ensures Below(s + [x], v) == Below(s, v) + if x < v then 1 else 0
  {
    assert (s + [x])[..|s|] == s;
  }

  lemma {:induction false} CountInserted(s: seq<Word32>, x: Word32, v: Word32)
    ensures AtMost(Inserted(s, x), v) == AtMost(s, v) + if x <= v then 1 else 0
    ensures Below(Inserted(s, x), v) == Below(s, v) + if x < v then 1 else 0
  {
    if s == [] || s[|s| - 1] <= x {
      CountSnoc(s, x, v);
    } else {
      CountInserted(s[..|s| - 1], x, v);
      CountSnoc(Inserted(s[..|s| - 1], x), s[|s| - 1], v);
    }
  }

  lemma {:induction false} CountSorted(s: seq<Word32>, v: Word32)
    ensures AtMost(SortedOf(s), v) == AtMost(s, v) && Below(SortedOf(s), v) == Below(s, v)
  {
    if s != [] {
      CountSorted(s[..|s| - 1], v);
      CountInserted(SortedOf(s[..|s| - 1]), s[|s| - 1], v);
    }
  }

  /** Counts in a sorted sequence: everything up to place `k` is at most its value, and only
      places before `k` can be below it. */
  lemma {:induction false} CountPrefix(s: seq<Word32>, n: nat, k: nat)
    requires Sorted(s) && k < |s| && n <= |s|
    ensures n > k ==> AtMost(s[..n], s[k]) >= k + 1 && Below(s[..n], s[k]) <= k
    ensures n <= k ==> AtMost(s[..n], s[k]) == n && Below(s[..n], s[k]) <= n
    decreases n
  {
    if n > 0 {
      CountPrefix(s, n - 1, k);
      assert s[..n][..n - 1] == s[..n - 1];
    }
  }

  /** The nearest rank, from 1 to `n`. */
  function Rank(n: nat, percentile: nat): (r: nat)
    requires n > 0
    ensures 1 <= r <= n
  {
    var p := if percentile > 100 then 100 else percentile;
    var rank := (p * n + 99) / 100;
    if rank == 0 then 1 else if rank > n then n else rank
  }

  function PercentileOf(s: seq<Word32>, percentile: nat): Word32
    requires s != []
  {
    SortedOf(s)[Rank(|s|, percentile) - 1]
  }

  lemma RankNearest(n: nat, p: nat)
    requires n > 0 && p <= 100
    ensures Rank(n, p) * 100 >= p * n
    ensures p > 0 ==> (Rank(n, p) - 1) * 100 < p * n
  {
    var pn := p * n;
    if p < 100 {
      Gap(n, 100, p);
    }
    if p > 0 {
      Gap(n, p, 0);
    }
    RoundedUp(pn, n);
  }

  lemma RoundedUp(pn: nat, n: nat)
    requires pn <= 100 * n && n > 0
    ensures var rank := (pn + 99) / 100;
      && rank <= n && rank * 100 >= pn && (pn > 0 ==> rank > 0 && (rank - 1) * 100 < pn)
  {
  }

  lemma RankMonotone(n: nat, p: nat, q: nat)
    requires n > 0 && p <= q
    ensures Rank(n, p) <= Rank(n, q)
  {
    var p', q' := if p > 100 then 100 else p, if q > 100 then 100 else q;
    if p' < q' {
      Gap(n, q', p');
    }
  }

  /** The percentile is a sample with at least `p` percent of the samples at or below it and,
      unless `p` is 0, fewer than `p` percent strictly below it; at 0 it is the minimum. */
  lemma PercentileNearest(s: seq<Word32>, p: nat)
    requires s != [] && p <= 100
    ensures PercentileOf(s, p) in s
    ensures AtMost(s, PercentileOf(s, p)) * 100 >= p * |s|
    ensures p > 0 ==> Below(s, PercentileOf(s, p)) * 100 < p * |s|
    ensures p == 0 ==> Below(s, PercentileOf(s, p)) == 0
  {
    hide SortedOf, AtMost, Below, Rank;
    var k := Rank(|s|, p) - 1;
    RankedSample(s, k);
    RankNearest(|s|, p);
    RankOfZero(|s|);
  }

  lemma RankOfZero(n: nat)
    requires n > 0
    ensures Rank(n, 0) == 1
  {
  }

  /** The sample at place `k` of the sorted samples. */
  lemma RankedSample(s: seq<Word32>, k: nat)
    requires k < |s|
    ensures var v := SortedOf(s)[k]; v in s && AtMost(s, v) >= k + 1 && Below(s, v) <= k
  {
    hide AtMost, Below, SortedOf;
    var t := SortedOf(s);
    SortedOfOk(s);
    assert t[k] in multiset(t);
    assert t[k] in multiset(s);
    CountPrefix(t, |t|, k);
    assert t[..|t|] == t;
    CountSorted(s, t[k]);
  }

  lemma PercentileMonotone(s: seq<Word32>, p: nat, q: nat)
    requires s != [] && p <= q
    ensures PercentileOf(s, p) <= PercentileOf(s, q)
  {
    SortedOfOk(s);
    RankMonotone(|s|, p, q);
  }

  // ---------------------------------------------------------------------------
  // The statistics record
  // ---------------------------------------------------------------------------

  function Sum(s: seq<Word32>): nat {
    if s == [] then 0 else Sum(s[..|s| - 1]) + s[|s| - 1]
  }

  lemma {:induction false} SumBounded(s: seq<Word32>)
    ensures Sum(s) <= |s| * UINT32_MAX
  {
    if s != [] {
      SumBounded(s[..|s| - 1]);
    }
  }

  /** `lo` and `hi` bound the samples and are attained; with no samples they are the neutral values. */
  predicate Bounds(s: seq<Word32>, lo: nat, hi: nat) {
    && (forall x :: x in s ==> lo <= x <= hi)
    && (if s == [] then lo == UINT32_MAX && hi == 0 else lo in s && hi in s)
  }

  lemma SumSnoc(s: seq<Word32>, x: Word32)
    ensures Sum(s + [x]) == Sum(s) + x
  {
    assert (s + [x])[..|s|] == s;
  }

  lemma BoundsSnoc(s: seq<Word32>, x: Word32, lo: Word32, hi: Word32)
    requires Bounds(s, lo, hi)
    ensures Bounds(s + [x], if x < lo then x else lo, if x > hi then x else hi)
  {
    assert forall y :: y in s + [x] <==> y in s || y == x;
  }

  class Stats {
    const samples: array<Word32>
    var count: nat
    var total: nat
    var minimum: Word32
    var maximum: Word32

    ghost predicate Valid()
      reads this, samples
    {
      && samples.Length == MAX_SAMPLES && count <= MAX_SAMPLES
      && total == Sum(samples[..count]) && Bounds(samples[..count], minimum, maximum)
    }

    constructor ()
      ensures Valid() && fresh(samples) && count == 0
    {
      samples := new Word32[MAX_SAMPLES](_ => 0);
      count, total, minimum, maximum := 0, 0, UINT32_MAX, 0;
    }

    /** Record a sample unless the record is full. */
    method Record(cycles: Word32) returns (ok: bool)
      requires Valid()
      modifies this, samples
      ensures Valid() && ok == (old(count) < MAX_SAMPLES)
      ensures samples[..count] == if ok then old(samples[..count]) + [cycles] else old(samples[..count])
    {
      hide Sum, Bounds;
      if count >= MAX_SAMPLES {
        return false;
      }
      ghost var s := samples[..count];
      SumSnoc(s, cycles);
      BoundsSnoc(s, cycles, minimum, maximum);
      samples[count] := cycles;
      count := count + 1;
      total := total + cycles;
      if cycles < minimum {
        minimum := cycles;
      }
      if cycles > maximum {
        maximum := cycles;
      }
      assert samples[..count] == s + [cycles];
      ok := true;
    }

    /** The exact mean, rounded down; it fits a word. */
    method Mean() returns (mean: Word32)
      requires Valid()
      ensures mean == if count == 0 then 0 else Sum(samples[..count]) / count
    {
      if count == 0 {
        return 0;
      }
      SumBounded(samples[..count]);
      var q := Divide(total, count);
      MeanFits(total, count);
      mean := q;
    }

    /** A sorted copy of the samples. */
    method SortedCopy() returns (sorted: array<Word32>)
      requires Valid()
      ensures fresh(sorted) && sorted.Length == MAX_SAMPLES && sorted[..count] == SortedOf(samples[..count])
    {
      sorted := new Word32[MAX_SAMPLES];
      var index := 0;
      while index < count
        invariant 0 <= index <= count && sorted[..index] == samples[..index]
      {
        sorted[index] := samples[index];
        index := index + 1;
      }
      Sort(sorted, count);
    }

    method Percentile(percentile: Word32) returns (value: Word32)
      requires Valid()
      ensures value == if count == 0 then 0 else PercentileOf(samples[..count], percentile)
    {
      hide SortedOf, Sum, Bounds, Rank;
      if count == 0 {
        return 0;
      }
      RankCapped(count, percentile);
      RankOfZero(count);
      var p := if percentile > 100 then 100 else percentile;
      var sorted := SortedCopy();
      assert forall i :: 0 <= i < count ==> sorted[..count][i] == sorted[i];
      if p == 0 {
        return sorted[0];
      }
      var rank := NearestRank(count, p);
      value := sorted[rank - 1];
    }
  }

  method NearestRank(count: nat, p: nat) returns (rank: nat)
    requires count > 0 && p <= 100
    ensures rank == Rank(count, p)
  {
    rank := (p * count + 99) / 100;
    if rank == 0 {
      rank := 1;
    }
    if rank > count {
      rank := count;
    }
  }

  lemma RankCapped(n: nat, percentile: nat)
    requires n > 0
    ensures percentile > 100 ==> Rank(n, percentile) == Rank(n, 100)
  {
  }

  lemma MeanFits(total: nat, count: nat)
    requires 0 < count && total <= count * UINT32_MAX
    ensures total / count <= UINT32_MAX
  {
    var q := total / count;
    assert total == count * q + total % count;
    if q > UINT32_MAX {
      Gap(count, q, UINT32_MAX);
    }
  }
}
