/**
 * The genetic-algorithm operators of the parameter search
 * (cmd/ga-simulator/main.go). A gene is a sequence of integers in
 * [0, 999]; every call of `rand.Intn(n)` is modelled as the next value of
 * a stream of naturals taken modulo `n`.
 */
module GaSimulator {
  import opened Wrappers

  datatype Individual = Individual(profit: Option<real>, gene: seq<int>)

  const GoodGene: seq<int> := [360, 864, 572, 990, 888, 220]

  /** `rand.Intn(n)` on the drawn value `d`. */
  function Intn(d: nat, n: nat): (v: nat)
    requires n > 0
    ensures v < n
  {
    d % n
  }

  /** Every gene value lies in [0, 999]. */
  predicate InRange(g: seq<int>)
  {
    forall i :: 0 <= i < |g| ==> 0 <= g[i] < 1000
  }

  // ---------------------------------------------------------------------
  // MakeConfig
  // ---------------------------------------------------------------------

  datatype ScalpingConfig = ScalpingConfig(
    targetCurrency: string,
    intervalSeconds: int,
    positionCountMax: int,
    fundsRatio: real,
    shortTermSize: int,
    longTermSize: int,
    lossCutLowerLimitPer: real,
    fixProfitUpperLimitPer: real,
    bbandsNbDevUp: real,
    bbandsNbDevDown: real)

  /**
   * `Gene.MakeConfig`: a scalping configuration for MONA with fixed
   * interval, position count and funds ratio; the short term is gene 0,
   * the long term genes 0 and 1 together, and the four ratios are genes 2
   * to 5 in thousandths. Go panics on a gene shorter than 6.
   */
  function MakeConfig(g: seq<int>): (c: ScalpingConfig)
    requires |g| >= 6
    ensures c.targetCurrency == "mona" && c.intervalSeconds == 0 && c.positionCountMax == 1 && c.fundsRatio == 0.3
    ensures c.longTermSize - c.shortTermSize == g[1]
  {
    ScalpingConfig("mona", 0, 1, 0.3, g[0], g[0] + g[1],
      g[2] as real / 1000.0, g[3] as real / 1000.0, g[4] as real / 1000.0, g[5] as real / 1000.0)
  }

  /** The gene a configuration was made from, read back field by field. */
  function GeneOf(c: ScalpingConfig): seq<int>
  {
    [c.shortTermSize, c.longTermSize - c.shortTermSize,
     (c.lossCutLowerLimitPer * 1000.0).Floor, (c.fixProfitUpperLimitPer * 1000.0).Floor,
     (c.bbandsNbDevUp * 1000.0).Floor, (c.bbandsNbDevDown * 1000.0).Floor]
  }

  /**
   * `MakeConfig` loses nothing of the first six genes: the short term is
   * gene 0, each ratio is its gene in thousandths exactly, and all six can
   * be read back.
   */
  lemma MakeConfigRoundTrip(g: seq<int>)
    requires |g| >= 6
    ensures var c := MakeConfig(g);
      && c.shortTermSize == g[0]
      && c.lossCutLowerLimitPer * 1000.0 == g[2] as real
      && c.fixProfitUpperLimitPer * 1000.0 == g[3] as real
      && c.bbandsNbDevUp * 1000.0 == g[4] as real
      && c.bbandsNbDevDown * 1000.0 == g[5] as real
    ensures GeneOf(MakeConfig(g)) == g[..6]
  {
    var c := MakeConfig(g);
    assert c.lossCutLowerLimitPer * 1000.0 == g[2] as real;
    assert c.fixProfitUpperLimitPer * 1000.0 == g[3] as real;
    assert c.bbandsNbDevUp * 1000.0 == g[4] as real;
    assert c.bbandsNbDevDown * 1000.0 == g[5] as real;
  }

  // ---------------------------------------------------------------------
  // Random and initial individuals
  // ---------------------------------------------------------------------

  /** The six genes `makeRandomIndividual` draws from the first six values of `draws`. */
  function RandomGene(draws: seq<nat>): (g: seq<int>)
    requires |draws| >= 6
    ensures |g| == 6 && InRange(g)
  {
    seq(6, i requires 0 <= i < 6 => Intn(draws[i], 1000))
  }

  /** `makeRandomIndividual`: six genes in [0, 999], no profit yet. */
  method MakeRandomIndividual(draws: seq<nat>) returns (ind: Individual)
    requires |draws| >= 6
    ensures ind.profit.None? && |ind.gene| == 6 && InRange(ind.gene)
    ensures ind.gene == RandomGene(draws)
  {
    var gene: seq<int> := [];
    var i := 0;
    while i < 6
      invariant 0 <= i <= 6
      invariant gene == RandomGene(draws)[..i]
    {
      gene := gene + [Intn(draws[i], 1000)];
      i := i + 1;
    }
    return Individual(None, gene);
  }

  /**
   * `makeInitIndividuals`: `goodGene` first, then random individuals, each
   * drawing the next six values, until there are `size`. The loop appends
   * before it compares, so for `size <= 1` it never ends.
   */
  method MakeInitIndividuals(size: int, draws: seq<nat>) returns (inds: seq<Individual>)
    requires size >= 2 && |draws| >= 6 * (size - 1)
    ensures |inds| == size
    ensures inds[0] == Individual(None, GoodGene)
    ensures forall k :: 1 <= k < size ==> inds[k] == Individual(None, RandomGene(draws[6 * (k - 1)..]))
    ensures forall k :: 0 <= k < size ==> inds[k].profit.None? && InRange(inds[k].gene)
  {
    inds := [Individual(None, GoodGene)];
    while true
      invariant 1 <= |inds| < size
      invariant inds[0] == Individual(None, GoodGene)
      invariant forall k :: 1 <= k < |inds| ==> inds[k] == Individual(None, RandomGene(draws[6 * (k - 1)..]))
      decreases size - |inds|
    {
      var ind := MakeRandomIndividual(draws[6 * (|inds| - 1)..]);
      inds := inds + [ind];
      if |inds| == size {
        break;
      }
    }
  }

  // ---------------------------------------------------------------------
  // choose
  // ---------------------------------------------------------------------

  /** `n` copies of `x`. */
  function Repeat(x: nat, n: nat): (s: seq<nat>)
    ensures |s| == n && forall k :: 0 <= k < n ==> s[k] == x
  {
    seq(n, _ => x)
  }

  /**
   * The ranks in `choose`'s list for the first `i` of `size` individuals:
   * rank `r` written `size - r` times, best rank first.
   */
  function RankList(size: nat, i: nat): (r: seq<nat>)
    requires i <= size
    ensures |r| >= i && forall k :: 0 <= k < |r| ==> r[k] < i
  {
    if i == 0 then [] else RankList(size, i - 1) + Repeat(i - 1, size - (i - 1))
  }

  /** The list for all of `size` individuals holds `size * (size + 1) / 2` entries. */
  lemma {:induction false} RankListLength(size: nat, i: nat)
    requires i <= size
    ensures 2 * |RankList(size, i)| == i * (2 * size - i + 1)
  {
    if i > 0 {
      RankListLength(size, i - 1);
      assert |RankList(size, i)| == |RankList(size, i - 1)| + (size - (i - 1));
      assert i * (2 * size - i + 1) == (i - 1) * (2 * size - (i - 1) + 1) + 2 * (size - (i - 1));
    }
  }

  /** Rank `r` appears `size - r` times, and no other value appears. */
  lemma {:induction false} RankListCount(size: nat, i: nat, r: nat)
    requires i <= size
    ensures multiset(RankList(size, i))[r] == if r < i then size - r else 0
  {
    if i > 0 {
      var front, rep := RankList(size, i - 1), Repeat(i - 1, size - (i - 1));
      RankListCount(size, i - 1, r);
      RepeatCount(i - 1, size - (i - 1), r);
      CountAppend(front, rep, r);
    }
  }

  lemma CountAppend<T>(a: seq<T>, b: seq<T>, x: T)
    ensures multiset(a + b)[x] == multiset(a)[x] + multiset(b)[x]
  {
  }

  lemma {:induction false} RepeatCount(x: nat, n: nat, r: nat)
    ensures multiset(Repeat(x, n))[r] == if r == x then n else 0
  {
    if n > 0 {
      RepeatCount(x, n - 1, r);
      assert Repeat(x, n) == Repeat(x, n - 1) + [x];
    }
  }

  /** The individuals at `ranks`, in order. */
  function Pick(current: seq<Individual>, ranks: seq<nat>): (s: seq<Individual>)
    requires forall k :: 0 <= k < |ranks| ==> ranks[k] < |current|
    ensures |s| == |ranks|
  {
    seq(|ranks|, k requires 0 <= k < |ranks| => current[ranks[k]])
  }

  /** The list `choose` draws from: each individual, by rank, `size - rank` times. */
  method ChooseList(current: seq<Individual>) returns (list: seq<Individual>)
    ensures list == Pick(current, RankList(|current|, |current|))
  {
    var size := |current|;
    list := [];
    var i := 0;
    while i < size
      invariant 0 <= i <= size
      invariant list == Pick(current, RankList(size, i))
    {
      var count := size - i;
      var j := 0;
      while j < count
        invariant 0 <= j <= count
        invariant list == Pick(current, RankList(size, i) + Repeat(i, j))
      {
        list := list + [current[i]];
        j := j + 1;
      }
      assert RankList(size, i + 1) == RankList(size, i) + Repeat(i, j);
      i := i + 1;
    }
  }

  /**
   * `choose`: the entry the draw lands on in the rank-weighted list.
   * Go panics on an empty population.
   */
  method Choose(current: seq<Individual>, draw: nat) returns (ind: Individual)
    requires |current| > 0
    ensures 2 * |RankList(|current|, |current|)| == |current| * (|current| + 1)
    ensures ind == current[RankList(|current|, |current|)[Intn(draw, |RankList(|current|, |current|)|)]]
  {
    var list := ChooseList(current);
    RankListLength(|current|, |current|);
    ind := list[Intn(draw, |list|)];
  }

  // ---------------------------------------------------------------------
  // crossover
  // ---------------------------------------------------------------------

  /**
   * The retry loop of `crossover`: pairs of draws, taken modulo `size`,
   * until the two indices differ. `pairs` counts the pairs used; `None`
   * means the stream ran out while every pair was equal.
   */
  method DrawDistinct(size: nat, draws: seq<nat>) returns (r: Option<(nat, nat)>, pairs: nat)
    requires size > 0
    ensures r.Some? ==>
      1 <= pairs && 2 * pairs <= |draws|
      && r.value == (Intn(draws[2 * pairs - 2], size), Intn(draws[2 * pairs - 1], size))
      && r.value.0 != r.value.1
    ensures forall k :: 0 <= k < (if r.Some? then pairs - 1 else |draws| / 2) ==>
      Intn(draws[2 * k], size) == Intn(draws[2 * k + 1], size)
  {
    pairs := 0;
    while 2 * pairs + 1 < |draws|
      invariant 2 * pairs <= |draws|
      invariant forall k :: 0 <= k < pairs ==> Intn(draws[2 * k], size) == Intn(draws[2 * k + 1], size)
      decreases |draws| - 2 * pairs
    {
      var idx1 := Intn(draws[2 * pairs], size);
      var idx2 := Intn(draws[2 * pairs + 1], size);
      pairs := pairs + 1;
      if idx1 != idx2 {
        return Some((idx1, idx2)), pairs;
      }
    }
    return None, pairs;
  }

  /** The child gene: positions in `[lo, hi]` from `g2`, all others from `g1`. */
  function CrossGene(g1: seq<int>, g2: seq<int>, lo: int, hi: int): (g: seq<int>)
    requires |g2| >= |g1|
    ensures |g| == |g1|
  {
    seq(|g1|, i requires 0 <= i < |g1| => if i < lo || i > hi then g1[i] else g2[i])
  }

  /** `crossover` once its two distinct indices are drawn. */
  method CrossoverAt(ind1: Individual, ind2: Individual, idx1: nat, idx2: nat) returns (child: Individual)
    requires idx1 != idx2 && idx1 < |ind1.gene| && idx2 < |ind1.gene| && |ind2.gene| >= |ind1.gene|
    ensures child.profit.None? && |child.gene| == |ind1.gene|
    ensures forall i :: 0 <= i < |child.gene| ==>
      child.gene[i] == if i < Min(idx1, idx2) || i > Max(idx1, idx2) then ind1.gene[i] else ind2.gene[i]
    ensures child.gene == CrossGene(ind1.gene, ind2.gene, Min(idx1, idx2), Max(idx1, idx2))
    ensures InRange(ind1.gene) && InRange(ind2.gene) ==> InRange(child.gene)
  {
    var size := |ind1.gene|;
    var begin, end;
    if idx1 < idx2 {
      begin, end := idx1, idx2;
    } else {
      begin, end := idx2, idx1;
    }
    var gene: seq<int> := [];
    var i := 0;
    while i < size
      invariant 0 <= i <= size
      invariant gene == CrossGene(ind1.gene, ind2.gene, begin, end)[..i]
    {
      if i < begin || i > end {
        gene := gene + [ind1.gene[i]];
      } else {
        gene := gene + [ind2.gene[i]];
      }
      i := i + 1;
    }
    return Individual(None, gene);
  }

  /**
   * Pair `p` of the draws is the first whose two indices, taken modulo
   * `size`, differ.
   */
  predicate FirstDistinctPair(size: nat, draws: seq<nat>, p: nat)
  {
    size > 0 && 2 * p + 1 < |draws|
    && Intn(draws[2 * p], size) != Intn(draws[2 * p + 1], size)
    && forall k :: 0 <= k < p ==> Intn(draws[2 * k], size) == Intn(draws[2 * k + 1], size)
  }

  /** At most one pair of draws is the first distinct one. */
  lemma FirstDistinctPairUnique(size: nat, draws: seq<nat>, p: nat, q: nat)
    requires FirstDistinctPair(size, draws, p) && FirstDistinctPair(size, draws, q)
    ensures p == q
  {
  }

  /**
   * `crossover`: draw two distinct indices, then splice. `None` when the
   * draws run out first (Go keeps drawing; with one gene it never stops).
   */
  method Crossover(ind1: Individual, ind2: Individual, draws: seq<nat>) returns (child: Option<Individual>)
    requires |ind1.gene| > 0 && |ind2.gene| >= |ind1.gene|
    ensures child.None? <==>
      forall k :: 0 <= k < |draws| / 2 ==> Intn(draws[2 * k], |ind1.gene|) == Intn(draws[2 * k + 1], |ind1.gene|)
    ensures child.Some? ==>
      exists p :: FirstDistinctPair(|ind1.gene|, draws, p)
        && var a, b := Intn(draws[2 * p], |ind1.gene|), Intn(draws[2 * p + 1], |ind1.gene|);
           child.value == Individual(None, CrossGene(ind1.gene, ind2.gene, Min(a, b), Max(a, b)))
    ensures child.Some? ==>
      exists lo, hi :: 0 <= lo < hi < |ind1.gene| && child.value == Individual(None, CrossGene(ind1.gene, ind2.gene, lo, hi))
    ensures |ind1.gene| == 1 ==> child.None?
  {
    var r, pairs := DrawDistinct(|ind1.gene|, draws);
    if r.None? {
      return None;
    }
    var c := CrossoverAt(ind1, ind2, r.value.0, r.value.1);
    assert FirstDistinctPair(|ind1.gene|, draws, pairs - 1);
    return Some(c);
  }

  function Min(a: int, b: int): int { if a < b then a else b }
  function Max(a: int, b: int): int { if a < b then b else a }

  /** Splicing a gene with itself gives it back. */
  lemma CrossGeneOfSameParents(g: seq<int>, lo: int, hi: int)
    ensures CrossGene(g, g, lo, hi) == g
  {
  }

  /** The two children of a pair of parents share out each position's two genes between them. */
  lemma CrossGeneSharesOut(g1: seq<int>, g2: seq<int>, lo: int, hi: int, i: int)
    requires |g1| == |g2| && 0 <= i < |g1|
    ensures multiset{CrossGene(g1, g2, lo, hi)[i], CrossGene(g2, g1, lo, hi)[i]} == multiset{g1[i], g2[i]}
  {
  }

  // ---------------------------------------------------------------------
  // mutate
  // ---------------------------------------------------------------------

  /**
   * `mutate`: one drawn position gets a drawn value in [0, 999]; every
   * other gene is kept. Go panics on an empty gene.
   */
  method Mutate(org: Individual, positionDraw: nat, valueDraw: nat) returns (child: Individual)
    requires |org.gene| > 0
    ensures child.profit.None? && |child.gene| == |org.gene|
    ensures forall i :: 0 <= i < |org.gene| && i != Intn(positionDraw, |org.gene|) ==> child.gene[i] == org.gene[i]
    ensures child.gene[Intn(positionDraw, |org.gene|)] == Intn(valueDraw, 1000)
    ensures InRange(org.gene) ==> InRange(child.gene)
  {
    var size := |org.gene|;
    var n := Intn(positionDraw, size);
    var gene: seq<int> := [];
    var i := 0;
    while i < size
      invariant 0 <= i <= size
      invariant |gene| == i
      invariant forall k :: 0 <= k < i && k != n ==> gene[k] == org.gene[k]
      invariant n < i ==> gene[n] == Intn(valueDraw, 1000)
    {
      if i == n {
        gene := gene + [Intn(valueDraw, 1000)];
      } else {
        gene := gene + [org.gene[i]];
      }
      i := i + 1;
    }
    return Individual(None, gene);
  }

  // ---------------------------------------------------------------------
  // The profit sort
  // ---------------------------------------------------------------------

  /** Every individual has been evaluated. */
  predicate Evaluated(s: seq<Individual>)
  {
    forall k :: 0 <= k < |s| ==> s[k].profit.Some?
  }

  /** Best profit first. */
  predicate SortedByProfit(s: seq<Individual>)
    requires Evaluated(s)
  {
    forall i, j :: 0 <= i < j < |s| ==> s[i].profit.value >= s[j].profit.value
  }

  /** `x` placed after every individual with at least its profit. */
  function Insert(s: seq<Individual>, x: Individual): (r: seq<Individual>)
    requires Evaluated(s) && x.profit.Some?
    ensures |r| == |s| + 1 && Evaluated(r)
  {
    if s == [] then [x]
    else if s[0].profit.value >= x.profit.value then [s[0]] + Insert(s[1..], x)
    else [x] + s
  }

  /**
   * `sort.SliceStable` on profit, descending: each individual in turn is
   * placed after the earlier ones with at least its profit.
   */
  function SortByProfit(s: seq<Individual>): (r: seq<Individual>)
    requires Evaluated(s)
    ensures |r| == |s| && Evaluated(r)
  {
    if s == [] then []
    else Insert(SortByProfit(s[..|s| - 1]), s[|s| - 1])
  }

  /** Inserting adds `x` and loses nothing. */
  lemma {:induction false} InsertPermutes(s: seq<Individual>, x: Individual)
    requires Evaluated(s) && x.profit.Some?
    ensures multiset(Insert(s, x)) == multiset(s) + multiset{x}
  {
    if s != [] && s[0].profit.value >= x.profit.value {
      InsertPermutes(s[1..], x);
      assert s == [s[0]] + s[1..];
    }
  }

  /** The sort is a permutation. */
  lemma {:induction false} SortByProfitPermutes(s: seq<Individual>)
    requires Evaluated(s)
    ensures multiset(SortByProfit(s)) == multiset(s)
  {
    if s != [] {
      var front, last := s[..|s| - 1], s[|s| - 1];
      SortByProfitPermutes(front);
      InsertPermutes(SortByProfit(front), last);
      assert SortByProfit(s) == Insert(SortByProfit(front), last);
      MultisetSnoc(s);
    }
  }

  lemma MultisetSnoc<T>(s: seq<T>)
    requires |s| > 0
    ensures multiset(s) == multiset(s[..|s| - 1]) + multiset{s[|s| - 1]}
  {
    assert s == s[..|s| - 1] + [s[|s| - 1]];
  }

  lemma {:induction false} InsertSorted(s: seq<Individual>, x: Individual)
    requires Evaluated(s) && x.profit.Some? && SortedByProfit(s)
    ensures SortedByProfit(Insert(s, x))
    ensures |Insert(s, x)| > 0 && (Insert(s, x)[0] == x || (s != [] && Insert(s, x)[0] == s[0]))
  {
    if s != [] && s[0].profit.value >= x.profit.value {
      InsertSorted(s[1..], x);
    }
  }

  /** The result is ordered best profit first. */
  lemma {:induction false} SortByProfitSorted(s: seq<Individual>)
    requires Evaluated(s)
    ensures SortedByProfit(SortByProfit(s))
  {
    if s != [] {
      SortByProfitSorted(s[..|s| - 1]);
      InsertSorted(SortByProfit(s[..|s| - 1]), s[|s| - 1]);
    }
  }

  /** The individuals of `s` with profit `p`, in order. */
  function WithProfit(s: seq<Individual>, p: real): seq<Individual>
  {
    if s == [] then []
    else WithProfit(s[..|s| - 1], p) + (if s[|s| - 1].profit == Some(p) then [s[|s| - 1]] else [])
  }

  lemma {:induction false} WithProfitAppend(a: seq<Individual>, b: seq<Individual>, p: real)
    ensures WithProfit(a + b, p) == WithProfit(a, p) + WithProfit(b, p)
  {
    if b == [] {
      assert a + b == a;
    } else {
      assert (a + b)[..|a + b| - 1] == a + b[..|b| - 1];
      WithProfitAppend(a, b[..|b| - 1], p);
    }
  }

  /** Without an individual of profit `p`, there is nothing to keep. */
  lemma {:induction false} WithProfitNone(s: seq<Individual>, p: real)
    requires forall k :: 0 <= k < |s| ==> s[k].profit != Some(p)
    ensures WithProfit(s, p) == []
  {
    if s != [] {
      WithProfitNone(s[..|s| - 1], p);
    }
  }

  lemma Associative<T>(a: seq<T>, b: seq<T>, c: seq<T>)
    ensures a + (b + c) == (a + b) + c
  {
  }

  /** Inserting keeps the equal-profit individuals in order, with `x` after them. */
  lemma {:induction false} InsertStable(s: seq<Individual>, x: Individual, p: real)
    requires Evaluated(s) && x.profit.Some? && SortedByProfit(s)
    ensures WithProfit(Insert(s, x), p) == WithProfit(s, p) + WithProfit([x], p)
    decreases |s|, 1
  {
    if s == [] {
    } else if s[0].profit.value >= x.profit.value {
      InsertStableCons(s, x, p);
    } else {
      InsertStableFront(s, x, p);
    }
  }

  lemma {:induction false} InsertStableCons(s: seq<Individual>, x: Individual, p: real)
    requires Evaluated(s) && x.profit.Some? && SortedByProfit(s)
    requires s != [] && s[0].profit.value >= x.profit.value
    ensures WithProfit(Insert(s, x), p) == WithProfit(s, p) + WithProfit([x], p)
    decreases |s|, 0
  {
    var t := s[1..];
    var head, rest, last := WithProfit([s[0]], p), WithProfit(t, p), WithProfit([x], p);
    SortedTail(s);
    InsertStable(t, x, p);
    assert Insert(s, x) == [s[0]] + Insert(t, x);
    WithProfitAppend([s[0]], Insert(t, x), p);
    assert [s[0]] + t == s;
    WithProfitAppend([s[0]], t, p);
    Associative(head, rest, last);
  }

  lemma SortedTail(s: seq<Individual>)
    requires Evaluated(s) && SortedByProfit(s) && s != []
    ensures Evaluated(s[1..]) && SortedByProfit(s[1..])
  {
    var t := s[1..];
    forall i, j | 0 <= i < j < |t|
      ensures t[i].profit.value >= t[j].profit.value
    {
      assert t[i] == s[i + 1] && t[j] == s[j + 1];
    }
  }

  lemma {:induction false} InsertStableFront(s: seq<Individual>, x: Individual, p: real)
    requires Evaluated(s) && x.profit.Some? && SortedByProfit(s)
    requires s != [] && s[0].profit.value < x.profit.value
    ensures WithProfit(Insert(s, x), p) == WithProfit(s, p) + WithProfit([x], p)
  {
    assert Insert(s, x) == [x] + s;
    WithProfitAppend([x], s, p);
    assert WithProfit([x], p) == (if x.profit == Some(p) then [x] else []) by {
      assert [x][..0] == [];
    }
    if x.profit == Some(p) {
      forall k | 0 <= k < |s|
        ensures s[k].profit != Some(p)
      {
        assert s[0].profit.value >= s[k].profit.value || k == 0;
      }
      WithProfitNone(s, p);
    }
  }

  /**
   * The sort is stable: for every profit, the individuals with that profit
   * keep their original order.
   */
  lemma {:induction false} SortByProfitStable(s: seq<Individual>, p: real)
    requires Evaluated(s)
    ensures WithProfit(SortByProfit(s), p) == WithProfit(s, p)
  {
    if s != [] {
      var front := s[..|s| - 1];
      SortByProfitStable(front, p);
      SortByProfitSorted(front);
      InsertStable(SortByProfit(front), s[|s| - 1], p);
      WithProfitAppend(front, [s[|s| - 1]], p);
      assert front + [s[|s| - 1]] == s;
    }
  }
}
