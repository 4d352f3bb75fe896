/**
 * Extreme-value helpers of the trade facade (pkg/usecase/trade/util.go).
 * pkg/usecase/strategy/inago.go carries identical private copies
 * (`maxRate`, `minRate`); the model keeps one definition of each.
 */
module TradeUtil {

  /** Index of the first smallest element of `s`. */
  function FirstMinIndex(s: seq<real>): (k: nat)
    requires |s| > 0
    ensures k < |s|
    ensures forall j :: 0 <= j < |s| ==> s[k] <= s[j]
    ensures forall j :: 0 <= j < k ==> s[k] < s[j]
  {
    if |s| == 1 then 0
    else
      var k := FirstMinIndex(s[..|s| - 1]);
      assert forall j :: 0 <= j < |s| - 1 ==> s[..|s| - 1][j] == s[j];
      if s[|s| - 1] < s[k] then |s| - 1 else k
  }

  /** Index of the first largest element of `s`. */
  function FirstMaxIndex(s: seq<real>): (k: nat)
    requires |s| > 0
    ensures k < |s|
    ensures forall j :: 0 <= j < |s| ==> s[j] <= s[k]
    ensures forall j :: 0 <= j < k ==> s[j] < s[k]
  {
    if |s| == 1 then 0
    else
      var k := FirstMaxIndex(s[..|s| - 1]);
      assert forall j :: 0 <= j < |s| - 1 ==> s[..|s| - 1][j] == s[j];
      if s[|s| - 1] > s[k] then |s| - 1 else k
  }

  /** The first-occurrence extremum is unique: the two properties pin the index down. */
  lemma FirstMinIsUnique(s: seq<real>, k1: nat, k2: nat)
    requires k1 < |s| && k2 < |s|
    requires forall j :: 0 <= j < |s| ==> s[k1] <= s[j]
    requires forall j :: 0 <= j < k1 ==> s[k1] < s[j]
    requires forall j :: 0 <= j < |s| ==> s[k2] <= s[j]
    requires forall j :: 0 <= j < k2 ==> s[k2] < s[j]
    ensures k1 == k2
  {
    assert s[k1] == s[k2];
  }

  lemma FirstMaxIsUnique(s: seq<real>, k1: nat, k2: nat)
    requires k1 < |s| && k2 < |s|
    requires forall j :: 0 <= j < |s| ==> s[j] <= s[k1]
    requires forall j :: 0 <= j < k1 ==> s[j] < s[k1]
    requires forall j :: 0 <= j < |s| ==> s[j] <= s[k2]
    requires forall j :: 0 <= j < k2 ==> s[j] < s[k2]
    ensures k1 == k2
  {
    assert s[k1] == s[k2];
  }

  /**
   * `Facade.MaxRate`: the largest rate and the index of its first
   * occurrence (the comparison is strict, so ties keep the earlier index).
   * An empty slice makes Go panic on `rates[0]`.
   */
  method MaxRate(rates: seq<real>) returns (max: real, maxIndex: nat)
    requires |rates| > 0
    ensures maxIndex < |rates| && max == rates[maxIndex]
    ensures forall j :: 0 <= j < |rates| ==> rates[j] <= max
    ensures forall j :: 0 <= j < maxIndex ==> rates[j] < max
    ensures maxIndex == FirstMaxIndex(rates)
  {
    max := rates[0];
    maxIndex := 0;
    var i := 0;
    while i < |rates|
      invariant 0 <= i <= |rates|
      invariant maxIndex < |rates| && max == rates[maxIndex]
      invariant forall j :: 0 <= j < i ==> rates[j] <= max
      invariant forall j :: 0 <= j < maxIndex ==> rates[j] < max
    {
      var rate := rates[i];
      if rate > max {
        max := rate;
        maxIndex := i;
      }
      i := i + 1;
    }
    FirstMaxIsUnique(rates, maxIndex, FirstMaxIndex(rates));
  }

  /**
   * `Facade.MinRate`: the smallest rate and the index of its first
   * occurrence. An empty slice makes Go panic on `rates[0]`.
   */
  method MinRate(rates: seq<real>) returns (min: real, minIndex: nat)
    requires |rates| > 0
    ensures minIndex < |rates| && min == rates[minIndex]
    ensures forall j :: 0 <= j < |rates| ==> min <= rates[j]
    ensures forall j :: 0 <= j < minIndex ==> min < rates[j]
    ensures minIndex == FirstMinIndex(rates)
  {
    min := rates[0];
    minIndex := 0;
    var i := 0;
    while i < |rates|
      invariant 0 <= i <= |rates|
      invariant minIndex < |rates| && min == rates[minIndex]
      invariant forall j :: 0 <= j < i ==> min <= rates[j]
      invariant forall j :: 0 <= j < minIndex ==> min < rates[j]
    {
      var rate := rates[i];
      if rate < min {
        min := rate;
        minIndex := i;
      }
      i := i + 1;
    }
    FirstMinIsUnique(rates, minIndex, FirstMinIndex(rates));
  }
}
