/**
 * Decision rules shared, line for line, by the two strategies in
 * pkg/usecase/strategy/inago.go and pkg/usecase/strategy/support_line_watch.go:
 * the order-interval check, the smallest contract rate, the per-position
 * totals, the support line, the callback scan over contract rates, the
 * market-sell loop and the bounded wait loop.
 *
 * Facade calls are inputs: `contractsOf` answers `Facade.GetContracts` for an
 * order id, times are whole seconds, and the rate and position fetches are
 * `Result`s.
 */
module StrategyCommon {
  import opened Wrappers
  import opened Model
  import TradeUtil

  /**
   * A rate or amount scaled by a ratio. Naming the product lets equal
   * factors give equal products without nonlinear arithmetic.
   */
  function Scale(x: real, ratio: real): real
  {
    x * ratio
  }

  /**
   * Where a configuration check stops: the index of the first true entry
   * of `e`, or `|e|` when there is none.
   */
  function FirstTrue(e: seq<bool>): (k: nat)
    ensures k <= |e|
    ensures forall j :: 0 <= j < k ==> !e[j]
    ensures k < |e| ==> e[k]
  {
    if |e| == 0 || e[0] then 0 else 1 + FirstTrue(e[1..])
  }

  /**
   * The validation both strategy configs share: an error naming the first
   * field, in checking order, that holds its zero value, or none.
   */
  function FirstEmptyField(names: seq<string>, empty: seq<bool>): (r: Option<string>)
    requires |empty| == |names|
    ensures r.None? <==> forall k :: 0 <= k < |names| ==> !empty[k]
    ensures r.Some? ==>
      exists k :: 0 <= k < |names| && empty[k] && r.value == names[k] + " is empty"
        && forall j :: 0 <= j < k ==> !empty[j]
  {
    var k := FirstTrue(empty);
    if k == |names| then None else Some(names[k] + " is empty")
  }

  /** The answers of `GetContracts` for each position's opener order, in position order. */
  type Fetches = seq<Result<seq<Contract>>>

  function FetchAll(ps: seq<Position>, contractsOf: nat -> Result<seq<Contract>>): (f: Fetches)
    ensures |f| == |ps|
    ensures forall k :: 0 <= k < |ps| ==> f[k] == contractsOf(ps[k].opener.id)
  {
    seq(|ps|, k requires 0 <= k < |ps| => contractsOf(ps[k].opener.id))
  }

  predicate AllOk(f: Fetches)
  {
    forall k :: 0 <= k < |f| ==> f[k].Ok?
  }

  /** `msg` is the error of the first failing fetch. */
  predicate FirstErrorIs(f: Fetches, msg: string)
  {
    exists k :: 0 <= k < |f| && f[k].Err? && f[k].msg == msg && AllOk(f[..k])
  }

  // ---------------------------------------------------------------------
  // canOrder
  // ---------------------------------------------------------------------

  /**
   * `canOrder`: ordering is allowed unless some position's opener order was
   * placed after `now - buyIntervalSeconds`.
   */
  method CanOrder(positions: seq<Position>, now: int, buyIntervalSeconds: int) returns (ok: bool)
    ensures ok <==> forall k :: 0 <= k < |positions| ==> positions[k].opener.orderedAt <= now - buyIntervalSeconds
  {
    var border := now - buyIntervalSeconds;
    var i := 0;
    while i < |positions|
      invariant 0 <= i <= |positions|
      invariant forall k :: 0 <= k < i ==> positions[k].opener.orderedAt <= border
    {
      if positions[i].opener.orderedAt > border {
        return false;
      }
      i := i + 1;
    }
    return true;
  }

  // ---------------------------------------------------------------------
  // The smallest contract rate (canAveragingDown)
  // ---------------------------------------------------------------------

  function Min(a: real, b: real): real { if a <= b then a else b }

  /** `math.Min` folded over `s`, starting from `init`. */
  function FoldMin(init: real, s: seq<real>): (m: real)
    ensures m <= init
    ensures forall j :: 0 <= j < |s| ==> m <= s[j]
    ensures m == init || exists j :: 0 <= j < |s| && m == s[j]
  {
    if s == [] then init
    else
      var front := s[..|s| - 1];
      assert forall j :: 0 <= j < |front| ==> front[j] == s[j];
      Min(FoldMin(init, front), s[|s| - 1])
  }

  function RatesOf(cc: seq<Contract>): (r: seq<real>)
    ensures |r| == |cc| && forall k :: 0 <= k < |cc| ==> r[k] == cc[k].rate
  {
    seq(|cc|, k requires 0 <= k < |cc| => cc[k].rate)
  }

  /** The rates of all fetched contracts, position by position. */
  function ContractRates(f: Fetches): (r: seq<real>)
    requires AllOk(f)
  {
    if f == [] then [] else ContractRates(f[..|f| - 1]) + RatesOf(f[|f| - 1].value)
  }

  /** A rate is among the contract rates exactly when some fetched contract has it. */
  lemma {:induction false} ContractRatesMembership(f: Fetches, x: real)
    requires AllOk(f)
    ensures x in ContractRates(f) <==>
      exists k, j :: 0 <= k < |f| && 0 <= j < |f[k].value| && f[k].value[j].rate == x
  {
    if f != [] {
      var front := f[..|f| - 1];
      ContractRatesMembership(front, x);
      var last := f[|f| - 1].value;
      if x in RatesOf(last) {
        var j :| 0 <= j < |last| && RatesOf(last)[j] == x;
        assert f[|f| - 1].value[j].rate == x;
      }
      if exists k, j :: 0 <= k < |f| && 0 <= j < |f[k].value| && f[k].value[j].rate == x {
        var k, j :| 0 <= k < |f| && 0 <= j < |f[k].value| && f[k].value[j].rate == x;
        if k < |f| - 1 {
          assert front[k] == f[k];
        } else {
          assert RatesOf(last)[j] == x;
        }
      }
    }
  }

  /**
   * Scaled by a positive ratio, the smallest contract rate is above `x`
   * exactly when `init` and every contract rate are.
   */
  lemma BelowScaledMin(init: real, f: Fetches, x: real, ratio: real)
    requires AllOk(f) && ratio > 0.0
    ensures x < Scale(FoldMin(init, ContractRates(f)), ratio) <==>
      x < Scale(init, ratio) && forall k, j :: 0 <= k < |f| && 0 <= j < |f[k].value| ==> x < Scale(f[k].value[j].rate, ratio)
  {
    var s := ContractRates(f);
    var m := FoldMin(init, s);
    forall k, j | 0 <= k < |f| && 0 <= j < |f[k].value|
      ensures Scale(m, ratio) <= Scale(f[k].value[j].rate, ratio)
    {
      ContractRatesMembership(f, f[k].value[j].rate);
      var y := f[k].value[j].rate;
      assert y in s;
      assert m <= y;
      ScaleMonotone(m, y, ratio);
    }
    ScaleMonotone(m, init, ratio);
    if m != init {
      var i :| 0 <= i < |s| && m == s[i];
      ContractRatesMembership(f, s[i]);
    }
  }

  lemma ScaleMonotone(a: real, b: real, ratio: real)
    requires a <= b && ratio > 0.0
    ensures Scale(a, ratio) <= Scale(b, ratio)
  {
  }

  lemma MinStep(init: real, a: seq<real>, b: seq<real>, x: real)
    ensures FoldMin(init, a + (b + [x])) == Min(FoldMin(init, a + b), x)
  {
    assert (a + (b + [x]))[..|a + (b + [x])| - 1] == a + b;
  }

  lemma RatesOfSnoc(cc: seq<Contract>, j: nat)
    requires j < |cc|
    ensures RatesOf(cc[..j + 1]) == RatesOf(cc[..j]) + [cc[j].rate]
  {
  }

  /** The inner loop of `canAveragingDown`: one position's contract rates folded into `m0`. */
  method MinOverContracts(init: real, ghost before: seq<real>, m0: real, cc: seq<Contract>) returns (m: real)
    requires m0 == FoldMin(init, before)
    ensures m == FoldMin(init, before + RatesOf(cc))
  {
    m := m0;
    assert before + RatesOf(cc[..0]) == before;
    var j := 0;
    while j < |cc|
      invariant 0 <= j <= |cc|
      invariant m == FoldMin(init, before + RatesOf(cc[..j]))
    {
      RatesOfSnoc(cc, j);
      MinStep(init, before, RatesOf(cc[..j]), cc[j].rate);
      m := Min(m, cc[j].rate);
      j := j + 1;
    }
    assert cc[..j] == cc;
  }

  /** One more successful fetch adds its contract rates at the end. */
  lemma ContractRatesSnoc(f: Fetches, i: nat)
    requires i < |f| && AllOk(f[..i]) && f[i].Ok?
    ensures AllOk(f[..i + 1])
    ensures ContractRates(f[..i + 1]) == ContractRates(f[..i]) + RatesOf(f[i].value)
  {
    assert f[..i + 1][..i] == f[..i];
  }

  /**
   * The minimum loop of `canAveragingDown`: `math.Min` over every contract
   * rate of every position, from `init`; the first failing fetch ends it
   * with that error.
   */
  method MinContractRate(init: real, positions: seq<Position>, contractsOf: nat -> Result<seq<Contract>>)
    returns (r: Result<real>)
    ensures var f := FetchAll(positions, contractsOf);
      (r.Err? <==> !AllOk(f))
      && (r.Err? ==> FirstErrorIs(f, r.msg))
      && (r.Ok? ==> r.value == FoldMin(init, ContractRates(f)))
  {
    ghost var f := FetchAll(positions, contractsOf);
    var m := init;
    var i := 0;
    while i < |positions|
      invariant 0 <= i <= |positions|
      invariant AllOk(f[..i])
      invariant m == FoldMin(init, ContractRates(f[..i]))
    {
      var cc := contractsOf(positions[i].opener.id);
      if cc.Err? {
        assert f[i].Err? && f[i].msg == cc.msg;
        return Err(cc.msg);
      }
      ContractRatesSnoc(f, i);
      m := MinOverContracts(init, ContractRates(f[..i]), m, cc.value);
      i := i + 1;
    }
    assert f[..i] == f;
    return Ok(m);
  }

  // ---------------------------------------------------------------------
  // Per-position totals (Sell)
  // ---------------------------------------------------------------------

  /** Settlement currency spent on a position's contracts: the negated decreases. */
  function Spent(cc: seq<Contract>): real
  {
    if cc == [] then 0.0 else Spent(cc[..|cc| - 1]) + (-1.0) * cc[|cc| - 1].decreaseAmount
  }

  /** Key currency obtained by a position's contracts: the increases. */
  function Bought(cc: seq<Contract>): real
  {
    if cc == [] then 0.0 else Bought(cc[..|cc| - 1]) + cc[|cc| - 1].increaseAmount
  }

  function TotalSpent(f: Fetches): real
    requires AllOk(f)
  {
    if f == [] then 0.0 else TotalSpent(f[..|f| - 1]) + Spent(f[|f| - 1].value)
  }

  function TotalBought(f: Fetches): real
    requires AllOk(f)
  {
    if f == [] then 0.0 else TotalBought(f[..|f| - 1]) + Bought(f[|f| - 1].value)
  }

  /** What the positions' bought currency is worth at `sellRate`, in JPY. */
  function Worth(sellRate: real, f: Fetches): real
    requires AllOk(f)
  {
    Scale(sellRate, TotalBought(f))
  }

  /** `amounts[p.ID] = amount` for each position in turn: a later duplicate id overwrites. */
  function Amounts(ps: seq<Position>, f: Fetches): (m: map<nat, real>)
    requires |ps| == |f| && AllOk(f)
    ensures m.Keys == set k | 0 <= k < |ps| :: ps[k].id
  {
    if ps == [] then map[]
    else Amounts(ps[..|ps| - 1], f[..|f| - 1])[ps[|ps| - 1].id := Bought(f[|f| - 1].value)]
  }

  /** With distinct position ids, each position's entry is the amount its own contracts bought. */
  lemma {:induction false} AmountsOfDistinctIds(ps: seq<Position>, f: Fetches, k: nat)
    requires |ps| == |f| && AllOk(f) && k < |ps|
    requires forall a, b :: 0 <= a < b < |ps| ==> ps[a].id != ps[b].id
    ensures Amounts(ps, f)[ps[k].id] == Bought(f[k].value)
  {
    if k < |ps| - 1 {
      AmountsOfDistinctIds(ps[..|ps| - 1], f[..|f| - 1], k);
    }
  }

  datatype Totals = Totals(buyJpy: real, currencyAmount: real, amounts: map<nat, real>)

  lemma SumStep(cc: seq<Contract>, j: nat)
    requires j < |cc|
    ensures Spent(cc[..j + 1]) == Spent(cc[..j]) + (-1.0) * cc[j].decreaseAmount
    ensures Bought(cc[..j + 1]) == Bought(cc[..j]) + cc[j].increaseAmount
  {
    assert cc[..j + 1][..j] == cc[..j];
  }

  /** One more successful fetch, as the totals see it. */
  lemma TotalsStep(ps: seq<Position>, f: Fetches, i: nat)
    requires |ps| == |f| && i < |f| && AllOk(f[..i]) && f[i].Ok?
    ensures AllOk(f[..i + 1])
    ensures TotalSpent(f[..i + 1]) == TotalSpent(f[..i]) + Spent(f[i].value)
    ensures TotalBought(f[..i + 1]) == TotalBought(f[..i]) + Bought(f[i].value)
    ensures Amounts(ps[..i + 1], f[..i + 1]) == Amounts(ps[..i], f[..i])[ps[i].id := Bought(f[i].value)]
  {
    assert f[..i + 1][..i] == f[..i];
    assert ps[..i + 1][..i] == ps[..i];
  }

  /**
   * The totals loop of `Sell`: settlement currency spent, key currency held
   * and the amount per position id, over every contract of every position;
   * the first failing fetch ends it with that error.
   */
  method PositionTotals(positions: seq<Position>, contractsOf: nat -> Result<seq<Contract>>)
    returns (r: Result<Totals>)
    ensures var f := FetchAll(positions, contractsOf);
      (r.Err? <==> !AllOk(f))
      && (r.Err? ==> FirstErrorIs(f, r.msg))
      && (r.Ok? ==> r.value == Totals(TotalSpent(f), TotalBought(f), Amounts(positions, f)))
  {
    ghost var f := FetchAll(positions, contractsOf);
    var buyJpy := 0.0;
    var currencyAmount := 0.0;
    var amounts: map<nat, real> := map[];
    var i := 0;
    while i < |positions|
      invariant 0 <= i <= |positions|
      invariant AllOk(f[..i])
      invariant buyJpy == TotalSpent(f[..i]) && currencyAmount == TotalBought(f[..i])
      invariant amounts == Amounts(positions[..i], f[..i])
    {
      var cc := contractsOf(positions[i].opener.id);
      if cc.Err? {
        assert f[i].Err? && f[i].msg == cc.msg;
        return Err(cc.msg);
      }
      TotalsStep(positions, f, i);
      ghost var spentBefore := buyJpy;
      var amount := 0.0;
      var j := 0;
      while j < |cc.value|
        invariant 0 <= j <= |cc.value|
        invariant buyJpy == spentBefore + Spent(cc.value[..j])
        invariant amount == Bought(cc.value[..j])
      {
        SumStep(cc.value, j);
        buyJpy := buyJpy + (-1.0) * cc.value[j].decreaseAmount;
        amount := amount + cc.value[j].increaseAmount;
        j := j + 1;
      }
      assert cc.value[..j] == cc.value;
      amounts := amounts[positions[i].id := amount];
      currencyAmount := currencyAmount + amount;
      i := i + 1;
    }
    assert f[..i] == f;
    assert positions[..i] == positions;
    return Ok(Totals(buyJpy, currencyAmount, amounts));
  }

  // ---------------------------------------------------------------------
  // Support line
  // ---------------------------------------------------------------------

  /** The two minima a support line is drawn through, with absolute indexes. */
  datatype Anchors = Anchors(i1: int, m1: real, i2: int, m2: real)

  /**
   * The windows `supportLineCross` scans: the first-occurring minimum of
   * `rates[n-t1 .. n-2)` and of `rates[n-t1-t2 .. n-t1-2)`, where `n` is the
   * number of rates. Go panics on an empty window, hence `t1, t2 >= 3`.
   */
  function Minima(rates: seq<real>, t1: int, t2: int): (a: Anchors)
    requires t1 >= 3 && t2 >= 3 && |rates| >= t1 + t2
    ensures |rates| - t1 <= a.i1 < |rates| - 2 && a.m1 == rates[a.i1]
    ensures |rates| - t1 - t2 <= a.i2 < |rates| - t1 - 2 && a.m2 == rates[a.i2]
    ensures a.i2 < a.i1
  {
    var n := |rates|;
    var i1 := WindowMinIndex(rates, n - t1, n - 2);
    var i2 := WindowMinIndex(rates, n - t1 - t2, n - t1 - 2);
    Anchors(i1, rates[i1], i2, rates[i2])
  }

  /** Each anchor is a smallest rate of its window. */
  lemma MinimaAreWindowMinima(rates: seq<real>, t1: int, t2: int)
    requires t1 >= 3 && t2 >= 3 && |rates| >= t1 + t2
    ensures var a := Minima(rates, t1, t2);
      (forall k :: |rates| - t1 <= k < |rates| - 2 ==> a.m1 <= rates[k])
      && (forall k :: |rates| - t1 - t2 <= k < |rates| - t1 - 2 ==> a.m2 <= rates[k])
  {
  }

  /** The index in `rates` of the first minimum of the window `rates[b .. e)`. */
  function WindowMinIndex(rates: seq<real>, b: nat, e: nat): (i: nat)
    requires b < e <= |rates|
    ensures b <= i < e
    ensures forall j :: b <= j < e ==> rates[i] <= rates[j]
  {
    var w := rates[b .. e];
    var k := TradeUtil.FirstMinIndex(w);
    assert forall j :: b <= j < e ==> rates[j] == w[j - b];
    b + k
  }

  /** What `MinRate` finds in a window, as an index into the whole sequence. */
  lemma WindowMinIndexIs(rates: seq<real>, b: nat, e: nat, k: nat)
    requires b < e <= |rates| && k == TradeUtil.FirstMinIndex(rates[b .. e])
    ensures WindowMinIndex(rates, b, e) == b + k && rates[b .. e][k] == rates[b + k]
  {
  }

  /** The value at index `x` of the line through both anchors. */
  function LineAt(a: Anchors, x: int): real
    requires a.i2 < a.i1
  {
    a.m1 + (a.m1 - a.m2) / (a.i1 - a.i2) as real * (x - a.i1) as real
  }

  /** The support line passes through both minima. */
  lemma LineThroughAnchors(a: Anchors)
    requires a.i2 < a.i1
    ensures LineAt(a, a.i1) == a.m1
    ensures LineAt(a, a.i2) == a.m2
  {
    var d := (a.i1 - a.i2) as real;
    var slope := (a.m1 - a.m2) / d;
    assert slope * d == a.m1 - a.m2;
    assert (a.i2 - a.i1) as real == -d;
    assert slope * (-d) == -(slope * d);
    assert LineAt(a, a.i2) == a.m1 + slope * (-d);
  }

  /** The support line extended to the newest rate (index `n - 1`). */
  function SupportLine(rates: seq<real>, t1: int, t2: int): real
    requires t1 >= 3 && t2 >= 3 && |rates| >= t1 + t2
  {
    LineAt(Minima(rates, t1, t2), |rates| - 1)
  }

  /**
   * The anchors `supportLineCross` as written uses: the newer minimum's
   * index is made absolute, the older one's is left relative to its window
   * `rates[n-t1-t2 ..)`.
   */
  function MinimaAsWritten(rates: seq<real>, t1: int, t2: int): (a: Anchors)
    requires t1 >= 3 && t2 >= 3 && |rates| >= t1 + t2
    ensures 0 <= a.i2 < t2 - 2 && a.i2 < a.i1
  {
    var a := Minima(rates, t1, t2);
    a.(i2 := a.i2 - (|rates| - t1 - t2))
  }

  /**
   * `supportLineCross` as written: the line is drawn through
   * `(i2 - (n - t1 - t2), m2)` rather than through the older minimum.
   */
  function SupportLineAsWritten(rates: seq<real>, t1: int, t2: int): real
    requires t1 >= 3 && t2 >= 3 && |rates| >= t1 + t2
  {
    LineAt(MinimaAsWritten(rates, t1, t2), |rates| - 1)
  }

  /**
   * The line as written passes through the newer minimum, and through the
   * older minimum's rate placed at its window-relative index.
   */
  lemma SupportLineAsWrittenThroughNewerMinimum(rates: seq<real>, t1: int, t2: int)
    requires t1 >= 3 && t2 >= 3 && |rates| >= t1 + t2
    ensures var a := Minima(rates, t1, t2);
      var w := MinimaAsWritten(rates, t1, t2);
      LineAt(w, a.i1) == a.m1 && LineAt(w, a.i2 - (|rates| - t1 - t2)) == a.m2
  {
    LineThroughAnchors(MinimaAsWritten(rates, t1, t2));
  }

  /**
   * The anchors as written are the intended ones exactly when the older
   * window starts at index 0; when it does, the two lines agree. (The lines
   * can also agree by coincidence, on a flat series for instance.)
   */
  lemma SupportLineAsWrittenAtStart(rates: seq<real>, t1: int, t2: int)
    requires t1 >= 3 && t2 >= 3 && |rates| >= t1 + t2
    ensures MinimaAsWritten(rates, t1, t2) == Minima(rates, t1, t2) <==> |rates| == t1 + t2
    ensures |rates| == t1 + t2 ==> SupportLineAsWritten(rates, t1, t2) == SupportLine(rates, t1, t2)
  {
  }

  /**
   * With rates 5 1 5 5 2 5 5 and both periods 3, the minima are 1 at index 1
   * and 2 at index 4: the line through them reaches 8/3 at the newest index,
   * the line as written only 5/2, so a sell rate of 2.6 crosses one and not
   * the other.
   */
  lemma SupportLineAsWrittenMissesOlderMinimum()
    ensures var rates := [5.0, 1.0, 5.0, 5.0, 2.0, 5.0, 5.0];
      SupportLineAsWritten(rates, 3, 3) == 5.0 / 2.0
      && SupportLine(rates, 3, 3) == 8.0 / 3.0
      && !(2.6 < SupportLineAsWritten(rates, 3, 3)) && 2.6 < SupportLine(rates, 3, 3)
  {
    var rates := [5.0, 1.0, 5.0, 5.0, 2.0, 5.0, 5.0];
    assert rates[4..5] == [2.0];
    assert rates[1..2] == [1.0];
    assert Minima(rates, 3, 3) == Anchors(4, 2.0, 1, 1.0);
  }

  /**
   * One window scan of `supportLineCross`: `MinRate` over `rates[b .. e)`,
   * its index shifted back into `rates`.
   */
  method ScanWindow(rates: seq<real>, b: nat, e: nat) returns (min: real, minIdx: nat)
    requires b < e <= |rates|
    ensures minIdx == WindowMinIndex(rates, b, e) && min == rates[minIdx]
  {
    var k;
    min, k := TradeUtil.MinRate(rates[b .. e]);
    WindowMinIndexIs(rates, b, e, k);
    minIdx := k + b;
  }

  /**
   * The two window scans of `supportLineCross`; as written, only the newer
   * window's index is shifted back into `rates`.
   */
  method TermMinima(rates: seq<real>, t1: int, t2: int) returns (a: Anchors)
    requires t1 >= 3 && t2 >= 3 && |rates| >= t1 + t2
    ensures a == MinimaAsWritten(rates, t1, t2)
  {
    var term1End := |rates| - 1;
    var term1Begin := term1End - (t1 - 1);
    var term1Min, term1MinIdx := ScanWindow(rates, term1Begin, term1End - 1);

    var term2End := term1Begin - 1;
    var term2Begin := term2End - (t2 - 1);
    var term2Min, term2MinIdx := ScanWindow(rates, term2Begin, term2End - 1);
    MinimaAsWrittenFromScans(rates, t1, t2, term1MinIdx, term2MinIdx);
    term2MinIdx := term2MinIdx - term2Begin;
    return Anchors(term1MinIdx, term1Min, term2MinIdx, term2Min);
  }

  /** The anchors as written, from the two window scans' absolute indexes. */
  lemma MinimaAsWrittenFromScans(rates: seq<real>, t1: int, t2: int, i1: nat, i2: nat)
    requires t1 >= 3 && t2 >= 3 && |rates| >= t1 + t2
    requires i1 == WindowMinIndex(rates, |rates| - 1 - (t1 - 1), |rates| - 1 - 1)
    requires i2 == WindowMinIndex(rates, |rates| - 1 - (t1 - 1) - 1 - (t2 - 1), |rates| - 1 - (t1 - 1) - 1 - 1)
    ensures MinimaAsWritten(rates, t1, t2) == Anchors(i1, rates[i1], i2 - (|rates| - t1 - t2), rates[i2])
  {
    assert Minima(rates, t1, t2) == Anchors(i1, rates[i1], i2, rates[i2]);
  }

  /**
   * `supportLineCross`: false while fewer than `t1 + t2` rates are known;
   * otherwise the sell rate crosses when it is below the support line as
   * the program draws it. The sell-rate fetch happens only in the second
   * case.
   */
  method SupportLineCross(rates: seq<real>, t1: int, t2: int, sellRate: Result<real>) returns (r: Result<bool>)
    requires |rates| < t1 + t2 || (t1 >= 3 && t2 >= 3)
    ensures |rates| < t1 + t2 ==> r == Ok(false)
    ensures |rates| >= t1 + t2 && sellRate.Err? ==> r == Err(sellRate.msg)
    ensures |rates| >= t1 + t2 && sellRate.Ok? ==> r == Ok(sellRate.value < SupportLineAsWritten(rates, t1, t2))
  {
    if |rates| < t1 + t2 {
      return Ok(false);
    }
    var anchors := TermMinima(rates, t1, t2);
    // slope = (term1Min - term2Min) / (term1MinIdx - term2MinIdx), extended to the newest index
    var supportLine := LineAt(anchors, |rates| - 1);
    if sellRate.Err? {
      return Err(sellRate.msg);
    }
    return Ok(sellRate.value < supportLine);
  }

  // ---------------------------------------------------------------------
  // The contract-rate scan of the trade callbacks
  // ---------------------------------------------------------------------

  /**
   * Walks the positions' contracts in order: `Ok(true)` as soon as a
   * contract rate meets `stop`, the error of a failing fetch reached before
   * that, `Ok(false)` when every contract was seen.
   */
  function Scan(f: Fetches, stop: real -> bool): (r: Result<bool>)
    ensures r == Ok(false) <==>
      AllOk(f) && forall k, j :: 0 <= k < |f| && 0 <= j < |f[k].value| ==> !stop(f[k].value[j].rate)
    ensures r.Err? ==> FirstErrorIs(f, r.msg)
  {
    if f == [] then Ok(false)
    else if f[0].Err? then
      assert AllOk(f[..0]);
      Err(f[0].msg)
    else if exists j :: 0 <= j < |f[0].value| && stop(f[0].value[j].rate) then Ok(true)
    else
      var r := Scan(f[1..], stop);
      assert forall k :: 1 <= k <= |f| ==> f[..k] == [f[0]] + f[1..][..k - 1];
      assert r.Err? ==> FirstErrorIs(f, r.msg) by {
        if r.Err? {
          var k :| 0 <= k < |f[1..]| && f[1..][k].Err? && f[1..][k].msg == r.msg && AllOk(f[1..][..k]);
          assert f[k + 1].Err? && AllOk(f[..k + 1]);
        }
      }
      r
  }

  /** No contract of the fetches before `k` meets `stop`. */
  predicate NoStopBefore(f: Fetches, k: nat, stop: real -> bool)
    requires k <= |f|
  {
    forall i, j :: 0 <= i < k && f[i].Ok? && 0 <= j < |f[i].value| ==> !stop(f[i].value[j].rate)
  }

  /** The scan reaches a failing fetch: every fetch before it succeeded and none of their contracts met `stop`. */
  predicate ErrorReached(f: Fetches, stop: real -> bool)
  {
    exists k :: 0 <= k < |f| && f[k].Err? && AllOk(f[..k]) && NoStopBefore(f, k, stop)
  }

  /**
   * The scan fails exactly when it reaches a failing fetch before any
   * contract meets `stop`; otherwise it answers `Ok(true)` or `Ok(false)`.
   */
  lemma {:induction false} ScanFailsIffErrorReached(f: Fetches, stop: real -> bool)
    ensures Scan(f, stop).Err? <==> ErrorReached(f, stop)
  {
    if f == [] {
    } else if f[0].Err? {
      assert AllOk(f[..0]) && NoStopBefore(f, 0, stop);
    } else if exists j :: 0 <= j < |f[0].value| && stop(f[0].value[j].rate) {
      var j :| 0 <= j < |f[0].value| && stop(f[0].value[j].rate);
      forall k | 0 <= k < |f| && f[k].Err? && AllOk(f[..k])
        ensures !NoStopBefore(f, k, stop)
      {
        assert k > 0;
      }
    } else {
      ScanFailsIffErrorReached(f[1..], stop);
      ErrorReachedShift(f, stop);
    }
  }

  /** Past a successful fetch with no stopping contract, the scan reaches an error exactly when the rest does. */
  lemma ErrorReachedShift(f: Fetches, stop: real -> bool)
    requires |f| > 0 && f[0].Ok?
    requires forall j :: 0 <= j < |f[0].value| ==> !stop(f[0].value[j].rate)
    ensures ErrorReached(f, stop) <==> ErrorReached(f[1..], stop)
  {
    var g := f[1..];
    if ErrorReached(f, stop) {
      var k :| 0 <= k < |f| && f[k].Err? && AllOk(f[..k]) && NoStopBefore(f, k, stop);
      assert k >= 1;
      ShiftAt(f, stop, k - 1);
    }
    if ErrorReached(g, stop) {
      var k :| 0 <= k < |g| && g[k].Err? && AllOk(g[..k]) && NoStopBefore(g, k, stop);
      ShiftAt(f, stop, k);
    }
  }

  /** Fetch `k + 1` of `f` is fetch `k` of its tail, with the same prefix conditions. */
  lemma ShiftAt(f: Fetches, stop: real -> bool, k: nat)
    requires k + 1 < |f| && f[0].Ok?
    requires forall j :: 0 <= j < |f[0].value| ==> !stop(f[0].value[j].rate)
    ensures f[k + 1] == f[1..][k]
    ensures AllOk(f[..k + 1]) <==> AllOk(f[1..][..k])
    ensures NoStopBefore(f, k + 1, stop) <==> NoStopBefore(f[1..], k, stop)
  {
    var g := f[1..];
    assert f[..k + 1] == [f[0]] + g[..k];
    assert forall i :: 1 <= i < k + 1 ==> f[i] == g[i - 1];
  }

  method ScanContracts(positions: seq<Position>, contractsOf: nat -> Result<seq<Contract>>, stop: real -> bool)
    returns (r: Result<bool>)
    ensures r == Scan(FetchAll(positions, contractsOf), stop)
  {
    ghost var f := FetchAll(positions, contractsOf);
    var i := 0;
    while i < |positions|
      invariant 0 <= i <= |positions|
      invariant Scan(f, stop) == Scan(f[i..], stop)
    {
      var cc := contractsOf(positions[i].opener.id);
      if cc.Err? {
        return Err(cc.msg);
      }
      var j := 0;
      while j < |cc.value|
        invariant 0 <= j <= |cc.value|
        invariant forall k :: 0 <= k < j ==> !stop(cc.value[k].rate)
      {
        if stop(cc.value[j].rate) {
          return Ok(true);
        }
        j := j + 1;
      }
      assert f[i..][1..] == f[i + 1..];
      i := i + 1;
    }
    return Ok(false);
  }

  // ---------------------------------------------------------------------
  // Sending orders position by position
  // ---------------------------------------------------------------------

  /** The market sells of `Sell`: each position with its amount, a missing id reading 0 as Go's map does. */
  function SellOrders(ps: seq<Position>, amounts: map<nat, real>): (s: seq<(Position, real)>)
    ensures |s| == |ps|
    ensures forall k :: 0 <= k < |ps| ==>
      s[k].0 == ps[k] && s[k].1 == if ps[k].id in amounts then amounts[ps[k].id] else 0.0
  {
    seq(|ps|, k requires 0 <= k < |ps| => (ps[k], if ps[k].id in amounts then amounts[ps[k].id] else 0.0))
  }

  /**
   * The outcome of sending `orders` in turn through `send` (a `None` answer
   * is success) and stopping at the first failure: `sent` orders went
   * through, and `r` is the error of the one after them, if any.
   */
  predicate SentUntil(orders: seq<(Position, real)>, send: (Position, real) -> Option<string>, sent: nat, r: Result<()>)
  {
    sent <= |orders|
    && (forall k :: 0 <= k < sent ==> send(orders[k].0, orders[k].1).None?)
    && (r.Ok? <==> sent == |orders|)
    && (r.Err? ==> send(orders[sent].0, orders[sent].1) == Some(r.msg))
  }

  /** The outcome of sending is determined by the orders and the answers. */
  lemma SentUntilIsUnique(orders: seq<(Position, real)>, send: (Position, real) -> Option<string>,
                          s1: nat, r1: Result<()>, s2: nat, r2: Result<()>)
    requires SentUntil(orders, send, s1, r1) && SentUntil(orders, send, s2, r2)
    ensures s1 == s2 && r1 == r2
  {
    if r1.Ok? {
      match r1.value { case () => }
      match r2.value { case () => }
    } else {
      assert r1.msg == r2.msg;
    }
  }

  /** Sends the orders in turn, stopping at the first failure. */
  method SendAll(orders: seq<(Position, real)>, send: (Position, real) -> Option<string>)
    returns (sent: nat, r: Result<()>)
    ensures SentUntil(orders, send, sent, r)
  {
    sent := 0;
    while sent < |orders|
      invariant 0 <= sent <= |orders|
      invariant forall k :: 0 <= k < sent ==> send(orders[k].0, orders[k].1).None?
    {
      var e := send(orders[sent].0, orders[sent].1);
      if e.Some? {
        return sent, Err(e.value);
      }
      sent := sent + 1;
    }
    return sent, Ok(());
  }

  // ---------------------------------------------------------------------
  // Wait
  // ---------------------------------------------------------------------

  /**
   * Whether the wait loop returns at tick `c`: the context is done, the
   * standby flag holds after at least one tick, the interval is used up, or
   * the one-second wait fails.
   */
  predicate WaitStops(c: nat, interval: int, standby: bool, cancelled: nat -> bool, waitErr: nat -> Option<string>)
  {
    cancelled(c) || (standby && c >= 1) || c >= interval || waitErr(c).Some?
  }

  /**
   * `Wait`: one-second waits counted in `ticks` until the first tick at which
   * the loop stops; only a failing wait is an error.
   */
  method Wait(interval: int, standby: bool, cancelled: nat -> bool, waitErr: nat -> Option<string>)
    returns (ticks: nat, r: Result<()>)
    ensures ticks <= if interval < 0 then 0 else interval
    ensures forall c :: 0 <= c < ticks ==> !WaitStops(c, interval, standby, cancelled, waitErr)
    ensures WaitStops(ticks, interval, standby, cancelled, waitErr)
    ensures r.Err? <==> !cancelled(ticks) && !(standby && ticks >= 1) && ticks < interval && waitErr(ticks).Some?
    ensures r.Err? ==> waitErr(ticks) == Some(r.msg)
  {
    var waitCount: nat := 0;
    while true
      invariant waitCount <= if interval < 0 then 0 else interval
      invariant forall c :: 0 <= c < waitCount ==> !WaitStops(c, interval, standby, cancelled, waitErr)
      decreases interval - waitCount
    {
      if cancelled(waitCount) {
        return waitCount, Ok(());
      }
      if standby && waitCount >= 1 {
        return waitCount, Ok(());
      }
      if waitCount >= interval {
        return waitCount, Ok(());
      }
      var e := waitErr(waitCount);
      if e.Some? {
        return waitCount, Err(e.value);
      }
      waitCount := waitCount + 1;
    }
  }

  /** The tick the wait loop stops at is determined: the first one satisfying `WaitStops`. */
  lemma WaitTicksUnique(t1: nat, t2: nat, interval: int, standby: bool, cancelled: nat -> bool, waitErr: nat -> Option<string>)
    requires forall c :: 0 <= c < t1 ==> !WaitStops(c, interval, standby, cancelled, waitErr)
    requires WaitStops(t1, interval, standby, cancelled, waitErr)
    requires forall c :: 0 <= c < t2 ==> !WaitStops(c, interval, standby, cancelled, waitErr)
    requires WaitStops(t2, interval, standby, cancelled, waitErr)
    ensures t1 == t2
  {
    assert !(t1 < t2) && !(t2 < t1);
  }

  /**
   * With the standby flag set, a positive interval, and a first wait that
   * succeeds without cancellation, the loop returns after exactly one tick.
   */
  lemma WaitUnderStandbyTakesOneTick(ticks: nat, interval: int, cancelled: nat -> bool, waitErr: nat -> Option<string>)
    requires interval >= 1 && !cancelled(0) && waitErr(0).None?
    requires forall c :: 0 <= c < ticks ==> !WaitStops(c, interval, true, cancelled, waitErr)
    requires WaitStops(ticks, interval, true, cancelled, waitErr)
    ensures ticks == 1
  {
    assert !WaitStops(0, interval, true, cancelled, waitErr);
    assert WaitStops(1, interval, true, cancelled, waitErr);
    WaitTicksUnique(ticks, 1, interval, true, cancelled, waitErr);
  }
}
