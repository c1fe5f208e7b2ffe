/**
 Index roll-up (src/store/lance/rollup.rs).

 A dataset head carries a stack of index segments, oldest first. Lance's
 `optimize_indices(merge(n))` replaces the n newest segments by one that covers
 the same deltas; everything else here is the repository's own arithmetic over
 that stack: the batch roll-up after a compaction and the base-3 cascade after
 each indexed push.
 */
module Digits {

  function Pow(b: nat, e: nat): (p: nat)
    ensures b >= 1 ==> p >= 1
  {
    if e == 0 then 1 else b * Pow(b, e - 1)
  }

  function Digit(n: nat, b: nat, k: nat): nat
    requires b >= 2
    decreases k
  {
    if k == 0 then n % b else Digit(n / b, b, k - 1)
  }

  function DigitSum(n: nat, b: nat): nat
    requires b >= 2
  {
    if n == 0 then 0 else n % b + DigitSum(n / b, b)
  }

  lemma {:induction false} PowStrictlyIncreases(b: nat, d: nat, e: nat)
    requires b >= 2 && d < e
    ensures Pow(b, d) < Pow(b, e)
  {
    var p := Pow(b, e - 1);
    assert b * p >= 2 * p;
    if d < e - 1 {
      PowStrictlyIncreases(b, d, e - 1);
    }
  }

  lemma MulGap(b: nat, x: nat, y: nat)
    ensures x < y ==> b * x + b <= b * y
  {
    if x < y {
      assert b * y == b * (x + 1) + b * (y - x - 1);
    }
  }

  lemma MulOrder(b: nat, x: nat, y: nat)
    requires x <= y
    ensures b * x <= b * y
  {
  }

  lemma Regroup(a: nat, b: nat, c: nat)
    ensures a * b * c == b * (a * c)
  {
  }

  lemma DivOfSum(b: nat, q: nat, r: nat)
    requires b >= 2 && r < b
    ensures (b * q + r) / b == q && (b * q + r) % b == r
  {
    var n := b * q + r;
    MulGap(b, n / b, q);
    MulGap(b, q, n / b);
  }

  lemma DivMod(n: nat, b: nat)
    requires b >= 2
    ensures b * (n / b) + n % b == n
  {
  }

  lemma Shrinks(n: nat, b: nat)
    requires b >= 2
    ensures n > 0 ==> n / b < n
    ensures n < b ==> n / b == 0 && n % b == n
    ensures n >= b ==> n / b >= 1
  {
    DivMod(n, b);
    MulGap(b, 0, n / b);
    MulOrder(n / b, 2, b);
  }

  /** Dividing by the base moves the bracket b^e <= n < b^(e+1) down by one. */
  lemma BracketDown(n: nat, b: nat, e: nat)
    requires b >= 2 && e >= 1
    requires Pow(b, e) <= n < Pow(b, e + 1)
    ensures Pow(b, e - 1) <= n / b < Pow(b, e)
    ensures (n - Pow(b, e)) / b == n / b - Pow(b, e - 1)
    ensures (n - Pow(b, e)) % b == n % b
  {
    var p, q, r := Pow(b, e - 1), n / b, n % b;
    DivMod(n, b);
    assert Pow(b, e) == b * p && Pow(b, e + 1) == b * (b * p);
    QuotientBracket(n, b, p, q, r);
  }

  lemma QuotientBracket(n: nat, b: nat, p: nat, q: nat, r: nat)
    requires b >= 2 && n == b * q + r && r < b
    requires b * p <= n < b * (b * p)
    ensures p <= q < b * p
    ensures (n - b * p) / b == q - p && (n - b * p) % b == r
  {
    MulGap(b, q, p);
    MulGap(b, b * p, q);
    assert b * q - b * p == b * (q - p);
    DivOfSum(b, q - p, r);
  }
}

/** The layout a base-b counter gives n deltas: one segment of size b^k for every unit of digit k. */
module Layouts {
  import opened Digits

  function Ones(n: nat): (s: seq<nat>)
    ensures |s| == n
  {
    seq(n, _ => 1)
  }

  function Scale(b: nat, s: seq<nat>): (r: seq<nat>)
    ensures |r| == |s|
    ensures forall i :: 0 <= i < |s| ==> r[i] == b * s[i]
  {
    seq(|s|, i requires 0 <= i < |s| => b * s[i])
  }

  function Layout(n: nat, b: nat): seq<nat>
    requires b >= 2
  {
    if n == 0 then [] else Scale(b, Layout(n / b, b)) + Ones(n % b)
  }

  function Sum(s: seq<nat>): nat {
    if s == [] then 0 else s[0] + Sum(s[1..])
  }

  function Count(s: seq<nat>, x: nat): nat {
    if s == [] then 0 else (if s[0] == x then 1 else 0) + Count(s[1..], x)
  }

  ghost predicate NonIncreasing(s: seq<nat>) {
    forall i, j :: 0 <= i < j < |s| ==> s[i] >= s[j]
  }

  ghost predicate IsPower(b: nat, x: nat) {
    exists e: nat :: x == Pow(b, e)
  }

  ghost predicate PowersOf(b: nat, s: seq<nat>) {
    forall i :: 0 <= i < |s| ==> IsPower(b, s[i])
  }

  lemma {:induction false} SumConcat(s: seq<nat>, t: seq<nat>)
    ensures Sum(s + t) == Sum(s) + Sum(t)
  {
    if s == [] {
      assert s + t == t;
    } else {
      assert (s + t)[1..] == s[1..] + t;
      SumConcat(s[1..], t);
    }
  }

  lemma {:induction false} CountConcat(s: seq<nat>, t: seq<nat>, x: nat)
    ensures Count(s + t, x) == Count(s, x) + Count(t, x)
  {
    if s == [] {
      assert s + t == t;
    } else {
      assert (s + t)[1..] == s[1..] + t;
      CountConcat(s[1..], t, x);
    }
  }

  lemma {:induction false} SumScale(b: nat, s: seq<nat>)
    ensures Sum(Scale(b, s)) == b * Sum(s)
  {
    if s != [] {
      assert Scale(b, s)[1..] == Scale(b, s[1..]);
      SumScale(b, s[1..]);
      assert b * (s[0] + Sum(s[1..])) == b * s[0] + b * Sum(s[1..]);
    }
  }

  lemma {:induction false} CountScale(b: nat, s: seq<nat>, x: nat)
    requires b >= 2
    ensures Count(Scale(b, s), b * x) == Count(s, x)
  {
    if s != [] {
      assert Scale(b, s)[1..] == Scale(b, s[1..]);
      CountScale(b, s[1..], x);
      MulGap(b, s[0], x);
      MulGap(b, x, s[0]);
    }
  }

  lemma {:induction false} OnesFacts(n: nat, x: nat)
    ensures Sum(Ones(n)) == n
    ensures Count(Ones(n), x) == if x == 1 then n else 0
  {
    if n > 0 {
      assert Ones(n)[1..] == Ones(n - 1);
      OnesFacts(n - 1, x);
    }
  }

  lemma {:induction false} CountAbsent(s: seq<nat>, x: nat)
    requires forall i :: 0 <= i < |s| ==> s[i] != x
    ensures Count(s, x) == 0
  {
    if s != [] {
      CountAbsent(s[1..], x);
    }
  }

  lemma {:induction false} LayoutPositive(n: nat, b: nat)
    requires b >= 2
    ensures forall i :: 0 <= i < |Layout(n, b)| ==> Layout(n, b)[i] >= 1
  {
    if n > 0 {
      LayoutPositive(n / b, b);
    }
  }

  /** The layout covers n deltas with digit-sum(n) segments. */
  lemma {:induction false} LayoutTotals(n: nat, b: nat)
    requires b >= 2
    ensures Sum(Layout(n, b)) == n
    ensures |Layout(n, b)| == DigitSum(n, b)
  {
    if n > 0 {
      Shrinks(n, b);
      DivMod(n, b);
      var q, r := n / b, n % b;
      LayoutTotals(q, b);
      ScaledTotals(Layout(q, b), b, q, r);
    }
  }

  lemma ScaledTotals(inner: seq<nat>, b: nat, q: nat, r: nat)
    requires Sum(inner) == q
    ensures Sum(Scale(b, inner) + Ones(r)) == b * q + r
  {
    SumConcat(Scale(b, inner), Ones(r));
    SumScale(b, inner);
    OnesFacts(r, 1);
  }

  /** Every segment size is a power of the base, and sizes never increase from oldest to newest. */
  lemma {:induction false} LayoutShape(n: nat, b: nat)
    requires b >= 2
    ensures NonIncreasing(Layout(n, b))
    ensures PowersOf(b, Layout(n, b))
  {
    if n > 0 {
      var inner := Layout(n / b, b);
      LayoutShape(n / b, b);
      LayoutPositive(n / b, b);
      forall i | 0 <= i < |Layout(n, b)| ensures IsPower(b, Layout(n, b)[i]) {
        if i < |inner| {
          assert IsPower(b, inner[i]);
          var e: nat :| inner[i] == Pow(b, e);
          assert Layout(n, b)[i] == Pow(b, e + 1);
        } else {
          assert Layout(n, b)[i] == Pow(b, 0);
        }
      }
      ScaleNonIncreasing(b, inner, n % b);
    }
  }

  lemma ScaleNonIncreasing(b: nat, inner: seq<nat>, ones: nat)
    requires b >= 2 && NonIncreasing(inner)
    requires forall i :: 0 <= i < |inner| ==> inner[i] >= 1
    ensures NonIncreasing(Scale(b, inner) + Ones(ones))
  {
    var all := Scale(b, inner) + Ones(ones);
    forall i, j | 0 <= i < j < |all| ensures all[i] >= all[j] {
      if j < |inner| {
        MulGap(b, inner[j], inner[i]);
      } else if i < |inner| {
        MulGap(b, 0, inner[i]);
      }
    }
  }

  /** Size b^k occurs exactly as often as the k-th base-b digit says. */
  lemma {:induction false} LayoutCounts(n: nat, b: nat, k: nat)
    requires b >= 2
    ensures Count(Layout(n, b), Pow(b, k)) == Digit(n, b, k)
    decreases k
  {
    if n == 0 {
      DigitOfZero(b, k);
    } else {
      var inner := Layout(n / b, b);
      CountConcat(Scale(b, inner), Ones(n % b), Pow(b, k));
      OnesFacts(n % b, Pow(b, k));
      if k == 0 {
        LayoutPositive(n / b, b);
        CountAbsent(Scale(b, inner), 1);
      } else {
        PowStrictlyIncreases(b, 0, k);
        LayoutCounts(n / b, b, k - 1);
        CountScale(b, inner, Pow(b, k - 1));
      }
    }
  }

  lemma {:induction false} DigitOfZero(b: nat, k: nat)
    requires b >= 2
    ensures Digit(0, b, k) == 0
    decreases k
  {
    if k > 0 {
      DigitOfZero(b, k - 1);
    }
  }

  /** The greedy step: the largest power goes first, the remainder is laid out the same way. */
  lemma {:induction false} LayoutGreedy(n: nat, b: nat, e: nat)
    requires b >= 2
    requires Pow(b, e) <= n < Pow(b, e + 1)
    ensures Layout(n, b) == [Pow(b, e)] + Layout(n - Pow(b, e), b)
    decreases e
  {
    if e == 0 {
      assert Pow(b, 1) == b * Pow(b, 0) == b;
      SmallLayout(n, b);
      SmallLayout(n - 1, b);
    } else {
      BracketDown(n, b, e);
      var p := Pow(b, e - 1);
      LayoutGreedy(n / b, b, e - 1);
      var rest := n - Pow(b, e);
      var tail := Layout(n / b - p, b);
      assert Layout(n / b, b) == [p] + tail;
      assert Scale(b, [p] + tail) == [b * p] + Scale(b, tail);
      assert Layout(n, b) == ([b * p] + Scale(b, tail)) + Ones(n % b);
      if rest == 0 {
        assert n / b - p == 0 by { assert 0 / b == 0; }
        assert n % b == 0 by { assert 0 % b == 0; }
      }
      assert Layout(rest, b) == Scale(b, tail) + Ones(n % b);
    }
  }

  lemma SmallLayout(n: nat, b: nat)
    requires b >= 2 && n < b
    ensures Layout(n, b) == Ones(n)
    ensures n % b == n
  {
    Shrinks(n, b);
    assert Scale(b, []) == [];
    assert Layout(0, b) == [] && [] + Ones(n) == Ones(n);
  }
}

module Rollup {
  import opened Digits
  import opened Layouts

  /** An inclusive range of positions in the segment stack. */
  datatype Range = Range(first: nat, last: nat)

  function Size(r: Range): nat {
    if r.first <= r.last then r.last - r.first + 1 else 0
  }

  function Sizes(rs: seq<Range>): (s: seq<nat>)
    ensures |s| == |rs|
  {
    seq(|rs|, i requires 0 <= i < |rs| => Size(rs[i]))
  }

  /** The ranges are adjacent, hold at least `base` positions each, and cover exactly [0, end). */
  ghost predicate Tiles(rs: seq<Range>, end: nat, base: nat) {
    && (rs == [] ==> end == 0)
    && (rs != [] ==> rs[0].first == 0 && rs[|rs| - 1].last + 1 == end)
    && (forall i :: 0 <= i < |rs| ==> Size(rs[i]) >= base)
    && (forall i :: 0 < i < |rs| ==> rs[i].first == rs[i - 1].last + 1)
  }

  /** What `val`, the input divided by p = base^exp so far, says about the input. */
  ghost predicate Scaled(p: nat, val: nat, n: nat) {
    p * val <= n < p * (val + 1)
  }

  lemma IlogStep(p: nat, v: nat, base: nat, n: nat)
    requires base >= 2 && v >= base && Scaled(p, v, n)
    ensures Scaled(base * p, v / base, n) && 1 <= v / base < v
  {
    DivMod(v, base);
    Shrinks(v, base);
    assert base * (v / base + 1) == base * (v / base) + base;
    IlogStepAt(p, v, base, n, v / base);
  }

  lemma IlogStepAt(p: nat, v: nat, base: nat, n: nat, q: nat)
    requires base * q <= v < base * (q + 1) && Scaled(p, v, n)
    ensures Scaled(base * p, q, n)
  {
    Regroup(base, p, q);
    Regroup(base, p, q + 1);
    MulOrder(p, base * q, v);
    MulOrder(p, v + 1, base * (q + 1));
  }

  lemma IlogDone(p: nat, v: nat, base: nat, n: nat)
    requires 1 <= v < base && Scaled(p, v, n)
    ensures p <= n < base * p
  {
    MulGap(p, v, base);
    assert p * (v + 1) == p * v + p;
    assert p * v == p + p * (v - 1);
  }

  /** floor(log_base(n)), and 0 for n = 0. */
  method Ilog(n: nat, base: nat) returns (exp: nat)
    requires base >= 2
    ensures n >= 1 ==> Pow(base, exp) <= n < Pow(base, exp + 1)
    ensures n == 0 ==> exp == 0
  {
    if base > n {
      return 0;
    }
    exp := 0;
    var val := n;
    ghost var p := 1;
    while val >= base
      invariant val >= 1
      invariant p == Pow(base, exp)
      invariant Scaled(p, val, n)
      decreases val
    {
      IlogStep(p, val, base, n);
      val := val / base;
      exp := exp + 1;
      p := base * p;
    }
    IlogDone(p, val, base, n);
  }

  /** What the ranges of `rs` and the layout of the `remaining` deltas make together. */
  ghost predicate Progress(rs: seq<Range>, offset: nat, remaining: nat, total: nat, base: nat)
    requires base >= 2
  {
    && offset + remaining == total
    && remaining % base == total % base
    && Tiles(rs, offset, base)
    && Sizes(rs) + Layout(remaining, base) == Layout(total, base)
  }

  lemma ExtendTiles(rs: seq<Range>, offset: nat, size: nat, base: nat)
    requires Tiles(rs, offset, base) && size >= base >= 1
    ensures Tiles(rs + [Range(offset, offset + size - 1)], offset + size, base)
    ensures Sizes(rs + [Range(offset, offset + size - 1)]) == Sizes(rs) + [size]
  {
  }

  /** The largest power of the base up to n >= base is at least the base, and taking it away keeps the last digit. */
  lemma TopPower(n: nat, base: nat, exp: nat)
    requires base >= 2 && n >= base
    requires Pow(base, exp) <= n < Pow(base, exp + 1)
    ensures Pow(base, exp) >= base
    ensures (n - Pow(base, exp)) % base == n % base
  {
    assert exp >= 1 by { assert Pow(base, 1) == base * Pow(base, 0) == base; }
    BracketDown(n, base, exp);
    MulGap(base, 1, Pow(base, exp - 1));
  }

  lemma PartitionStep(rs: seq<Range>, offset: nat, remaining: nat, total: nat, base: nat, exp: nat)
    requires base >= 2 && remaining >= base
    requires Pow(base, exp) <= remaining < Pow(base, exp + 1)
    requires Progress(rs, offset, remaining, total, base)
    ensures var size := Pow(base, exp);
            size >= base &&
            Progress(rs + [Range(offset, offset + size - 1)], offset + size, remaining - size, total, base)
  {
    var size := Pow(base, exp);
    TopPower(remaining, base, exp);
    LayoutGreedy(remaining, base, exp);
    ExtendTiles(rs, offset, size, base);
  }

  /** A range of the largest power of the base that fits into what is left from its start. */
  ghost predicate Largest(r: Range, total: nat, base: nat) {
    && r.first <= total && base <= Size(r) <= total - r.first < base * Size(r)
    && IsPower(base, Size(r))
  }

  /** Such ranges one behind the other, from 0 to `end`. */
  ghost predicate Greedy(rs: seq<Range>, end: nat, total: nat, base: nat) {
    && (rs == [] ==> end == 0)
    && (rs != [] ==> rs[0].first == 0 && rs[|rs| - 1].last + 1 == end)
    && (forall i :: 0 < i < |rs| ==> rs[i].first == rs[i - 1].last + 1)
    && (forall i :: 0 <= i < |rs| ==> Largest(rs[i], total, base))
  }

  lemma GreedyStep(rs: seq<Range>, offset: nat, remaining: nat, total: nat, base: nat, exp: nat)
    requires base >= 2 && offset + remaining == total && remaining >= base
    requires Pow(base, exp) <= remaining < Pow(base, exp + 1)
    requires Greedy(rs, offset, total, base)
    ensures Pow(base, exp) >= base
    ensures Greedy(rs + [Range(offset, offset + Pow(base, exp) - 1)], offset + Pow(base, exp), total, base)
  {
    TopPower(remaining, base, exp);
    var r := Range(offset, offset + Pow(base, exp) - 1);
    assert Size(r) == Pow(base, exp) && Largest(r, total, base);
  }

  lemma LargestStep(rs: seq<Range>, r: Range, total: nat, base: nat)
    requires base >= 2 && Largest(r, total, base) && Progress(rs, r.first, total - r.first, total, base)
    ensures r.last + 1 <= total && Progress(rs + [r], r.last + 1, total - (r.last + 1), total, base)
  {
    var exp: nat :| Size(r) == Pow(base, exp);
    assert Pow(base, exp + 1) == base * Pow(base, exp);
    PartitionStep(rs, r.first, total - r.first, total, base, exp);
  }

  lemma GreedyInit(rs: seq<Range>, end: nat, total: nat, base: nat)
    requires Greedy(rs, end, total, base) && rs != []
    ensures var n := |rs| - 1;
            && rs == rs[..n] + [rs[n]] && rs[n].last + 1 == end
            && Largest(rs[n], total, base) && Greedy(rs[..n], rs[n].first, total, base)
  {
  }

  lemma NothingYet(total: nat, base: nat)
    requires base >= 2
    ensures Progress([], 0, total, total, base)
  {
    assert Sizes([]) + Layout(total, base) == Layout(total, base);
  }

  lemma {:induction false} GreedyProgress(rs: seq<Range>, end: nat, total: nat, base: nat)
    requires base >= 2 && Greedy(rs, end, total, base)
    ensures end <= total && Progress(rs, end, total - end, total, base)
  {
    if rs == [] {
      NothingYet(total, base);
    } else {
      var init, last := rs[..|rs| - 1], rs[|rs| - 1];
      GreedyInit(rs, end, total, base);
      GreedyProgress(init, last.first, total, base);
      LargestStep(init, last, total, base);
    }
  }

  /**
   The partitions tile the largest multiple of the base up to `total`, and
   their sizes followed by the untouched single deltas are the base's digits.
   */
  ghost predicate Partitioned(rs: seq<Range>, total: nat, base: nat)
    requires base >= 2
  {
    && Tiles(rs, total - total % base, base)
    && Sizes(rs) + Ones(total % base) == Layout(total, base)
  }

  lemma GreedyPartitions(rs: seq<Range>, end: nat, total: nat, base: nat)
    requires base >= 2 && Greedy(rs, end, total, base) && total < end + base
    ensures Partitioned(rs, total, base)
  {
    GreedyProgress(rs, end, total, base);
    SmallLayout(total - end, base);
  }

  method RollupPartitions(total: nat, base: nat) returns (partitions: seq<Range>)
    requires base >= 2
    ensures Partitioned(partitions, total, base)
  {
    partitions := [];
    if total < base {
      GreedyPartitions([], 0, total, base);
      return;
    }
    var offset: nat, remaining: nat := 0, total;
    while remaining >= base
      invariant offset + remaining == total && Greedy(partitions, offset, total, base)
      decreases remaining
    {
      var exp := Ilog(remaining, base);
      GreedyStep(partitions, offset, remaining, total, base, exp);
      var size := Pow(base, exp);
      partitions := partitions + [Range(offset, offset + size - 1)];
      offset, remaining := offset + size, remaining - size;
    }
    GreedyPartitions(partitions, offset, total, base);
  }

  // ── The segment stack ──────────────────────────────────────────────────────

  /** A segment is the run of deltas it covers, oldest first. */
  type Segment<D> = seq<D>

  function Flatten<D>(s: seq<seq<D>>): seq<D> {
    if s == [] then [] else s[0] + Flatten(s[1..])
  }

  function Lengths<D>(s: seq<seq<D>>): (l: seq<nat>)
    ensures |l| == |s|
  {
    seq(|s|, i requires 0 <= i < |s| => |s[i]|)
  }

  /** Lance's merge(n): the n newest segments become one. */
  function MergeNewest<D>(s: seq<seq<D>>, n: nat): seq<seq<D>>
    requires 1 <= n <= |s|
  {
    s[..|s| - n] + [Flatten(s[|s| - n..])]
  }

  lemma {:induction false} FlattenConcat<D>(s: seq<seq<D>>, t: seq<seq<D>>)
    ensures Flatten(s + t) == Flatten(s) + Flatten(t)
  {
    if s == [] {
      assert s + t == t;
    } else {
      assert (s + t)[1..] == s[1..] + t;
      FlattenConcat(s[1..], t);
    }
  }

  lemma FlattenOne<D>(x: seq<D>)
    ensures Flatten([x]) == x
  {
    assert [x][1..] == [];
  }

  /** Merging keeps the sequence of covered deltas. */
  lemma MergeKeepsCoverage<D>(s: seq<seq<D>>, n: nat)
    requires 1 <= n <= |s|
    ensures Flatten(MergeNewest(s, n)) == Flatten(s) && |MergeNewest(s, n)| == |s| - (n - 1)
  {
    var older, newer := s[..|s| - n], s[|s| - n..];
    FlattenConcat(older, [Flatten(newer)]);
    FlattenOne(Flatten(newer));
    FlattenConcat(older, newer);
    assert older + newer == s;
  }

  /** The `keep` oldest segments stay, everything newer is one segment. */
  function Collapse<D>(s: seq<seq<D>>, keep: nat): seq<seq<D>>
    requires keep < |s|
  {
    s[..keep] + [Flatten(s[keep..])]
  }

  lemma CollapseThenMerge<D>(s: seq<seq<D>>, keep: nat, n: nat)
    requires keep < |s| && 1 <= n <= keep + 1
    ensures MergeNewest(Collapse(s, keep), n) == Collapse(s, keep + 1 - n)
  {
    var k := keep + 1 - n;
    var top := Flatten(s[keep..]);
    assert Collapse(s, keep)[k..] == s[k..keep] + [top];
    FlattenConcat(s[k..keep], [top]);
    FlattenOne(top);
    FlattenConcat(s[k..keep], s[keep..]);
    assert s[k..keep] + s[keep..] == s[k..];
  }

  lemma {:induction false} SumOfSizesAbove(rs: seq<Range>, end: nat, base: nat, from: nat)
    requires base >= 2 && Tiles(rs, end, base) && from < |rs|
    ensures Sum(Sizes(rs)[from..]) == end - rs[from].first
    ensures |rs| - from <= end - rs[from].first
    decreases |rs| - from
  {
    var sizes := Sizes(rs);
    assert sizes[from..][1..] == sizes[from + 1..];
    if from + 1 < |rs| {
      SumOfSizesAbove(rs, end, base, from + 1);
    }
  }

  lemma PartitionTotals(rs: seq<Range>, total: nat, base: nat) returns (singles: nat)
    requires base >= 2 && Partitioned(rs, total, base)
    ensures singles <= total && Tiles(rs, total - singles, base)
    ensures |rs| + singles == DigitSum(total, base)
    ensures rs == [] <==> total < base
    ensures |rs| + singles <= total
  {
    singles := total % base;
    LayoutTotals(total, base);
    if rs != [] {
      SumOfSizesAbove(rs, total - total % base, base, 0);
    }
  }

  lemma {:induction false} DigitSumBounds(n: nat, base: nat)
    requires base >= 2
    ensures DigitSum(n, base) <= n
    ensures n > 0 ==> DigitSum(n, base) >= 1
  {
    if n > 0 {
      DivMod(n, base);
      MulGap(n / base, 1, base);
      DigitSumBounds(n / base, base);
    }
  }

  /** What the batch roll-up leaves: fewer than `base` segments stay as they are. */
  function RolledUp<D>(s: seq<seq<D>>, base: nat): (r: seq<seq<D>>)
    requires base >= 2
  {
    if |s| < base then s
    else
      DigitSumBounds(|s|, base);
      Collapse(s, DigitSum(|s|, base) - 1)
  }

  /** The roll-up covers the same deltas in the same order with digit-sum many segments. */
  lemma RolledUpKeepsCoverage<D>(s: seq<seq<D>>, base: nat)
    requires base >= 2
    ensures Flatten(RolledUp(s, base)) == Flatten(s)
    ensures |RolledUp(s, base)| == DigitSum(|s|, base)
  {
    DigitSumBounds(|s|, base);
    if |s| < base {
      SmallLayout(|s|, base);
      LayoutTotals(|s|, base);
    } else {
      MergeKeepsCoverage(s, |s| + 1 - DigitSum(|s|, base));
    }
  }

  lemma {:induction false} PowerDigitSum(base: nat, e: nat)
    requires base >= 2
    ensures DigitSum(Pow(base, e), base) == 1
  {
    if e == 0 {
      SmallLayout(1, base);
      LayoutTotals(1, base);
    } else {
      DivOfSum(base, Pow(base, e - 1), 0);
      PowerDigitSum(base, e - 1);
    }
  }

  lemma LayoutStartsLarge(n: nat, base: nat)
    requires base >= 2 && n >= base
    ensures |Layout(n, base)| >= 1 && Layout(n, base)[0] >= base
  {
    DivMod(n, base);
    var inner := Layout(n / base, base);
    LayoutTotals(n / base, base);
    LayoutPositive(n / base, base);
    assert inner != [];
    MulGap(base, 1, inner[0]);
  }

  /**
   The hierarchy the roll-up is documented to build, one segment per partition,
   only appears when there is a single partition and nothing left over: merging
   the smallest partition first always takes the newest segments, so on any
   other count the result is single deltas followed by one large segment.
   */
  lemma RollupReachesLayout<D>(s: seq<seq<D>>, base: nat)
    requires base >= 2
    requires forall i :: 0 <= i < |s| ==> |s[i]| == 1
    ensures Lengths(RolledUp(s, base)) == Layout(|s|, base) <==> |s| < base || IsPower(base, |s|)
  {
    var n := |s|;
    LayoutTotals(n, base);
    RolledUpKeepsCoverage(s, base);
    if n < base {
      SmallLayout(n, base);
    } else if DigitSum(n, base) == 1 {
      SinglePartition(s, base);
    } else {
      LayoutStartsLarge(n, base);
      assert Lengths(RolledUp(s, base))[0] == 1;
      PowerHasDigitSumOne(base, n);
    }
  }

  lemma SinglePartition<D>(s: seq<seq<D>>, base: nat)
    requires base >= 2 && |s| >= base && DigitSum(|s|, base) == 1
    requires forall i :: 0 <= i < |s| ==> |s[i]| == 1
    ensures Lengths(RolledUp(s, base)) == Layout(|s|, base) && IsPower(base, |s|)
  {
    var l := Layout(|s|, base);
    LayoutTotals(|s|, base);
    LayoutShape(|s|, base);
    assert l == [l[0]] && Sum(l) == l[0];
    assert IsPower(base, l[0]);
    UnitCoverage(s);
    assert s[0..] == s;
  }

  lemma PowerHasDigitSumOne(base: nat, n: nat)
    requires base >= 2
    ensures IsPower(base, n) ==> DigitSum(n, base) == 1
  {
    if IsPower(base, n) {
      var e: nat :| n == Pow(base, e);
      PowerDigitSum(base, e);
    }
  }

  lemma {:induction false} UnitCoverage<D>(s: seq<seq<D>>)
    requires forall i :: 0 <= i < |s| ==> |s[i]| == 1
    ensures |Flatten(s)| == |s|
  {
    if s != [] {
      UnitCoverage(s[1..]);
    }
  }

  /** The documented 13-delta example ends as 1, 1, 11 rather than 9, 3, 1. */
  lemma RollupOfThirteen()
    ensures var units := seq(13, i => [i]);
            Lengths(RolledUp(units, 3)) == [1, 1, 11] && Layout(13, 3) == [9, 3, 1]
  {
    var units := seq(13, i => [i]);
    assert DigitSum(13, 3) == 1 + DigitSum(4, 3) && DigitSum(4, 3) == 1 + DigitSum(1, 3) && DigitSum(1, 3) == 1 + DigitSum(0, 3);
    var last := Flatten(units[2..]);
    assert RolledUp(units, 3) == units[..2] + [last];
    UnitCoverage(units[2..]);
    LayoutOfThirteen();
  }

  lemma LayoutOfThirteen()
    ensures Layout(13, 3) == [9, 3, 1]
  {
    assert Layout(1, 3) == [1] by { SmallLayout(1, 3); }
    assert Layout(4, 3) == Scale(3, Layout(1, 3)) + Ones(1) == [3, 1];
    assert Layout(13, 3) == Scale(3, Layout(4, 3)) + Ones(1) == [9, 3, 1];
  }

  // ── The incremental cascade ────────────────────────────────────────────────

  /** How often 3 divides n. */
  function Valuation(n: nat): nat {
    if n > 0 && n % 3 == 0 then 1 + Valuation(n / 3) else 0
  }

  /** Up to `k` rounds of merge(3), stopping while fewer than three segments are left. */
  function Cascaded<D>(s: seq<seq<D>>, k: nat): seq<seq<D>>
    decreases k
  {
    if k == 0 || |s| < 3 then s else Cascaded(MergeNewest(s, 3), k - 1)
  }

  /** How many of the `k` rounds run before the fewer-than-3 guard stops them. */
  function Rounds<D>(s: seq<seq<D>>, k: nat): nat
    decreases k
  {
    if k == 0 || |s| < 3 then 0 else 1 + Rounds(MergeNewest(s, 3), k - 1)
  }

  /** merge(3) calls asked for by the pushes 1..n. */
  function TotalMerges(n: nat): nat {
    if n == 0 then 0 else TotalMerges(n - 1) + Valuation(n)
  }

  lemma {:induction false} CascadedKeepsCoverage<D>(s: seq<seq<D>>, k: nat)
    ensures Flatten(Cascaded(s, k)) == Flatten(s)
    decreases k
  {
    if k > 0 && |s| >= 3 {
      MergeKeepsCoverage(s, 3);
      CascadedKeepsCoverage(MergeNewest(s, 3), k - 1);
    }
  }

  /** merge(3) and its repetition on the segment sizes alone. */
  function MergeSizes(l: seq<nat>): seq<nat>
    requires |l| >= 3
  {
    l[..|l| - 3] + [l[|l| - 3] + l[|l| - 2] + l[|l| - 1]]
  }

  function CascadeSizes(l: seq<nat>, k: nat): seq<nat>
    decreases k
  {
    if k == 0 || |l| < 3 then l else CascadeSizes(MergeSizes(l), k - 1)
  }

  function RoundsOnSizes(l: seq<nat>, k: nat): nat
    decreases k
  {
    if k == 0 || |l| < 3 then 0 else 1 + RoundsOnSizes(MergeSizes(l), k - 1)
  }

  lemma MergeOnSizes<D>(s: seq<seq<D>>)
    requires |s| >= 3
    ensures Lengths(MergeNewest(s, 3)) == MergeSizes(Lengths(s))
  {
    var top := s[|s| - 3..];
    assert top[1..][1..] == [top[2]];
    FlattenOne(top[2]);
    assert Flatten(top) == top[0] + (top[1] + top[2]);
  }

  lemma {:induction false} CascadeOnSizes<D>(s: seq<seq<D>>, k: nat)
    ensures Lengths(Cascaded(s, k)) == CascadeSizes(Lengths(s), k)
    ensures Rounds(s, k) == RoundsOnSizes(Lengths(s), k)
    decreases k
  {
    if k > 0 && |s| >= 3 {
      MergeOnSizes(s);
      CascadeOnSizes(MergeNewest(s, 3), k - 1);
    }
  }

  lemma {:induction false} CascadeScales(l: seq<nat>, k: nat)
    ensures CascadeSizes(Scale(3, l), k) == Scale(3, CascadeSizes(l, k))
    ensures RoundsOnSizes(Scale(3, l), k) == RoundsOnSizes(l, k)
    decreases k
  {
    if k > 0 && |l| >= 3 {
      assert MergeSizes(Scale(3, l)) == Scale(3, MergeSizes(l));
      CascadeScales(MergeSizes(l), k - 1);
    }
  }

  lemma ThreeLayout(m: nat, r: nat)
    requires r < 3
    ensures Layout(3 * m + r, 3) == Scale(3, Layout(m, 3)) + Ones(r)
  {
    var n := 3 * m + r;
    assert n / 3 == m && n % 3 == r;
    if n == 0 {
      assert Scale(3, []) + Ones(0) == [];
    }
  }

  /** The cascade takes one stack of sizes to the other, and every merge it asks for is made. */
  ghost predicate CascadesTo(l: seq<nat>, k: nat, after: seq<nat>) {
    CascadeSizes(l, k) == after && RoundsOnSizes(l, k) == k
  }

  /** One more delta and its cascade take the base-3 layout of n deltas to that of n + 1. */
  ghost predicate CountsUp(n: nat) {
    CascadesTo(Layout(n, 3) + [1], Valuation(n + 1), Layout(n + 1, 3))
  }

  lemma NoCarry(m: nat, r: nat)
    requires r < 2
    ensures CountsUp(3 * m + r)
  {
    ThreeLayout(m, r);
    ThreeLayout(m, r + 1);
    assert (3 * m + r + 1) % 3 == r + 1;
    assert Ones(r) + [1] == Ones(r + 1);
    assert Scale(3, Layout(m, 3)) + Ones(r) + [1] == Scale(3, Layout(m, 3)) + Ones(r + 1);
  }

  /** Three units are merged into one 3, and from there the cascade runs as one digit higher. */
  lemma CarrySizes(l: seq<nat>, k: nat, after: seq<nat>)
    requires CascadesTo(l + [1], k, after)
    ensures CascadesTo(Scale(3, l) + [1, 1, 1], k + 1, Scale(3, after))
  {
    assert MergeSizes(Scale(3, l) + [1, 1, 1]) == Scale(3, l) + [3] == Scale(3, l + [1]);
    CascadeScales(l + [1], k);
  }

  lemma TripleCounts(m: nat)
    ensures Layout(3 * m + 2, 3) + [1] == Scale(3, Layout(m, 3)) + [1, 1, 1]
    ensures Valuation(3 * m + 3) == Valuation(m + 1) + 1
    ensures Layout(3 * m + 3, 3) == Scale(3, Layout(m + 1, 3))
  {
    ThreeLayout(m, 2);
    ThreeLayout(m + 1, 0);
    assert (3 * m + 3) / 3 == m + 1 && (3 * m + 3) % 3 == 0;
  }

  lemma Carry(m: nat)
    requires CountsUp(m)
    ensures CountsUp(3 * m + 2)
  {
    TripleCounts(m);
    CarrySizes(Layout(m, 3), Valuation(m + 1), Layout(m + 1, 3));
    assert 3 * m + 2 + 1 == 3 * m + 3;
  }

  /** Adding one delta and cascading is counting up by one in base 3; the guard never fires. */
  lemma {:induction false} CascadeCounts(n: nat)
    ensures CountsUp(n)
  {
    var m, r := n / 3, n % 3;
    assert n == 3 * m + r;
    if r < 2 {
      NoCarry(m, r);
    } else {
      CascadeCounts(m);
      Carry(m);
    }
  }

  lemma {:induction false} DigitSumStep(n: nat)
    ensures DigitSum(n + 1, 3) + 2 * Valuation(n + 1) == DigitSum(n, 3) + 1
  {
    var m, r := n / 3, n % 3;
    if r < 2 {
      assert (n + 1) / 3 == m && (n + 1) % 3 == r + 1;
    } else {
      assert (n + 1) / 3 == m + 1 && (n + 1) % 3 == 0;
      DigitSumStep(m);
    }
  }

  /** The merges made over n pushes total (n - digit sum of n) / 2, so the amortised cost is under one half. */
  lemma {:induction false} TotalMergesClosedForm(n: nat)
    ensures 2 * TotalMerges(n) + DigitSum(n, 3) == n
  {
    if n > 0 {
      TotalMergesClosedForm(n - 1);
      DigitSumStep(n - 1);
    }
  }

  /** At most two segments per base-3 digit, so search probes O(log n) segments. */
  lemma {:induction false} SegmentsAreLogarithmic(n: nat, e: nat)
    requires n < Pow(3, e)
    ensures DigitSum(n, 3) <= 2 * e
    decreases e
  {
    if n > 0 {
      if e == 0 {
        assert false;
      }
      assert n / 3 < Pow(3, e - 1);
      SegmentsAreLogarithmic(n / 3, e - 1);
    }
  }

  /** Taking `count` factors of 3 out of the delta count leaves n. */
  ghost predicate Divided(deltaCount: nat, count: nat, n: nat) {
    && (deltaCount > 0 ==> n > 0)
    && deltaCount == Pow(3, count) * n
    && Valuation(deltaCount) == count + Valuation(n)
  }

  lemma DivideOnce(deltaCount: nat, count: nat, n: nat)
    requires n > 0 && n % 3 == 0 && Divided(deltaCount, count, n)
    ensures Divided(deltaCount, count + 1, n / 3)
  {
    var m := n / 3;
    assert n == 3 * m;
    assert Pow(3, count + 1) == 3 * Pow(3, count);
    Regroup(3, Pow(3, count), m);
  }

  /** How many merge(3) calls a delta count asks for: one for each factor of 3. */
  method MergesNeeded(deltaCount: nat) returns (count: nat)
    ensures count == Valuation(deltaCount)
    ensures deltaCount > 0 ==> exists m: nat :: m % 3 != 0 && deltaCount == Pow(3, count) * m
  {
    count := 0;
    var n := deltaCount;
    while n > 0 && n % 3 == 0
      invariant Divided(deltaCount, count, n)
      decreases n
    {
      DivideOnce(deltaCount, count, n);
      count := count + 1;
      n := n / 3;
    }
  }

  /** One more single-delta segment and its cascade, on a stack that is a base-3 layout. */
  lemma PushLayout<D>(s: seq<seq<D>>, n: nat, delta: D)
    requires Lengths(s) == Layout(n, 3)
    ensures Lengths(Cascaded(s + [[delta]], Valuation(n + 1))) == Layout(n + 1, 3)
    ensures Rounds(s + [[delta]], Valuation(n + 1)) == Valuation(n + 1)
    ensures Flatten(Cascaded(s + [[delta]], Valuation(n + 1))) == Flatten(s) + [delta]
  {
    var pushed := s + [[delta]];
    assert Lengths(pushed) == Layout(n, 3) + [1];
    CascadeOnSizes(pushed, Valuation(n + 1));
    CascadeCounts(n);
    CascadedKeepsCoverage(pushed, Valuation(n + 1));
    FlattenConcat(s, [[delta]]);
    FlattenOne([delta]);
  }

  /** `keep` segments stay before the newest when the partitions from i on have been merged. */
  ghost predicate Merging(rs: seq<Range>, i: nat, keep: nat, singles: nat)
    requires i <= |rs|
  {
    keep + 1 == singles + (if i == 0 then 0 else rs[i - 1].last + 1) + (|rs| - i)
  }

  /** Merging the next older partition: enough segments are there, and `keep` falls by its size less one. */
  lemma MergeNext(rs: seq<Range>, end: nat, base: nat, i: nat, keep: nat, singles: nat)
    requires base > 0 && Tiles(rs, end, base) && i < |rs| && Merging(rs, i + 1, keep, singles)
    ensures rs[i].first <= rs[i].last && rs[i].last - rs[i].first + 1 <= keep + 1
    ensures Merging(rs, i, keep - (rs[i].last - rs[i].first), singles)
  {
    assert Size(rs[i]) >= base;
  }

  class IndexStack<D> {
    /** Index segments at the dataset head, oldest first. */
    var segments: seq<Segment<D>>
    /** Delta indices created since the last compaction. */
    var deltaCount: nat
    /** merge(3) calls the cascade has made. */
    var merges: nat

    constructor ()
      ensures segments == [] && deltaCount == 0 && merges == 0
    {
      segments, deltaCount, merges := [], 0, 0;
    }

    /** Lance's `optimize_indices(merge(n))`; callers must ask for no more segments than there are. */
    method Merge(n: nat)
      requires 1 <= n <= |segments|
      modifies this`segments
      ensures segments == MergeNewest(old(segments), n)
    {
      segments := MergeNewest(segments, n);
    }

    /**
     The batch roll-up. Whatever the segments cover, all deltas stay covered in
     order, digit-sum(count) segments are left, and all but the newest of those
     are the oldest segments of the old stack, unchanged.
     */
    method ExponentialRollup(base: nat) returns (countBefore: nat, countAfter: nat)
      requires base >= 2
      modifies this`segments
      ensures countBefore == |old(segments)| && countAfter == |segments|
      ensures segments == RolledUp(old(segments), base)
    {
      if |segments| == 0 {
        return 0, 0;
      }
      countBefore := |segments|;
      ghost var was := segments;
      var partitions := RollupPartitions(countBefore, base);
      ghost var singles := PartitionTotals(partitions, countBefore, base);
      if partitions == [] {
        return countBefore, countBefore;
      }
      ghost var keep: nat := countBefore - 1;
      var i := |partitions|;
      assert segments == Collapse(was, keep) by { FlattenOne(was[keep]); assert was[keep..] == [was[keep]]; }
      while i > 0
        invariant 0 <= i <= |partitions|
        invariant keep < |was| && segments == Collapse(was, keep) && Merging(partitions, i, keep, singles)
      {
        i := i - 1;
        MergeNext(partitions, countBefore - singles, base, i, keep, singles);
        var size := partitions[i].last - partitions[i].first + 1;
        CollapseThenMerge(was, keep, size);
        Merge(size);
        keep := keep + 1 - size;
      }
      countAfter := |segments|;
    }

    /** One cascade for the given delta count. */
    method IncrementalCascade(count: nat) returns (countBefore: nat, countAfter: nat)
      modifies this`segments, this`merges
      ensures countBefore == |old(segments)| && countAfter == |segments|
      ensures segments == Cascaded(old(segments), Valuation(count))
      ensures merges == old(merges) + Rounds(old(segments), Valuation(count))
    {
      countBefore := |segments|;
      var needed := MergesNeeded(count);
      var i := 0;
      while i < needed
        invariant 0 <= i <= needed
        invariant Cascaded(segments, needed - i) == Cascaded(old(segments), needed)
        invariant merges + Rounds(segments, needed - i) == old(merges) + Rounds(old(segments), needed)
      {
        if |segments| < 3 {
          break;
        }
        Merge(3);
        merges := merges + 1;
        i := i + 1;
      }
      countAfter := |segments|;
    }

    /** The stack is the base-3 layout of the number of indexed pushes. */
    ghost predicate Valid()
      reads this
    {
      Lengths(segments) == Layout(deltaCount, 3) && merges == TotalMerges(deltaCount)
    }

    /**
     An indexed push: one append() delta, then the cascade. Every merge asked
     for is made, the layout is the next base-3 number, and coverage grows by
     exactly the new delta.
     */
    method IndexedPush(delta: D)
      requires Valid()
      modifies this
      ensures Valid()
      ensures deltaCount == old(deltaCount) + 1
      ensures Flatten(segments) == Flatten(old(segments)) + [delta]
      ensures merges == old(merges) + Valuation(deltaCount)
    {
      PushLayout(segments, deltaCount, delta);
      segments := segments + [[delta]];
      deltaCount := deltaCount + 1;
      var _, _ := IncrementalCascade(deltaCount);
    }
  }
}
