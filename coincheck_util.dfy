/**
 * Value conversions of the Coincheck client (pkg/infrastructure/coincheck/util.go).
 * Go's float parsing (`strconv.ParseFloat`) and formatting (`%d`, `%.5f`) are
 * passed in as functions; `None` from a parser is a parse error.
 */
module CoincheckUtil {
  import opened Wrappers
  import opened Model

  /** `toFloat`: the parsed value, or `def` when the text does not parse. */
  function ToFloat(s: string, def: real, parse: string -> Option<real>): (v: real)
    ensures parse(s).Some? ==> v == parse(s).value
    ensures parse(s).None? ==> v == def
  {
    match parse(s)
    case Some(x) => x
    case None => def
  }

  /** `toFloatNullable`: the parsed value, or the (possibly nil) `def` on failure. */
  function ToFloatNullable(s: string, def: Option<real>, parse: string -> Option<real>): (v: Option<real>)
    ensures parse(s).Some? ==> v == parse(s)
    ensures parse(s).None? ==> v == def
  {
    match parse(s)
    case Some(x) => Some(x)
    case None => def
  }

  /** Go's `int(x)` conversion of a float: truncation toward zero. */
  function Trunc(x: real): (n: int)
    ensures x >= 0.0 ==> 0 <= n && n as real <= x < n as real + 1.0
    ensures x < 0.0 ==> n <= 0 && n as real - 1.0 < x <= n as real
  {
    if x >= 0.0 then x.Floor else -((-x).Floor)
  }

  function MinNat(a: nat, b: nat): nat { if a <= b then a else b }

  /**
   * `toRequestString`: "" for nil; the integer part (`itoa`, Go's `%d`) when it
   * has at least five characters; otherwise the `%.5f` text (`fmt5`) cut to at
   * most six characters.
   */
  function ToRequestString(v: Option<real>, itoa: int -> string, fmt5: real -> string): (s: string)
    ensures v.None? ==> s == ""
    ensures v.Some? && |itoa(Trunc(v.value))| >= 5 ==> s == itoa(Trunc(v.value))
    ensures v.Some? && |itoa(Trunc(v.value))| < 5 ==>
      |s| == MinNat(6, |fmt5(v.value)|) && s <= fmt5(v.value)
  {
    match v
    case None => ""
    case Some(x) =>
      var integerStr := itoa(Trunc(x));
      if |integerStr| >= 5 then integerStr
      else
        var f := fmt5(x);
        if |f| < 6 then f else f[..6]
  }

  /** Index of the first separator of `s`, or `|s|` when there is none. */
  function SepIndex(s: string): (i: nat)
    ensures i <= |s|
  {
    if s == [] || s[0] == Sep then 0 else 1 + SepIndex(s[1..])
  }

  /** `SepIndex` finds the first separator, and runs to the end when there is none. */
  lemma {:induction false} SepIndexFinds(s: string)
    ensures Sep in s ==> SepIndex(s) == FirstSep(s)
    ensures Sep !in s ==> SepIndex(s) == |s|
    ensures Sep !in s[..SepIndex(s)]
  {
    if Sep !in s {
      assert s[..|s|] == s;
    }
    if s != [] && s[0] != Sep {
      SepIndexFinds(s[1..]);
      assert Sep in s <==> Sep in s[1..];
      if Sep in s {
        var j := FirstSep(s[1..]);
        assert s[1..][j] == Sep;
        assert Sep !in s[..j + 1] by {
          assert s[..j + 1] == [s[0]] + s[1..][..j];
        }
      }
    }
  }

  /**
   * `toCurrencyPair`: the first two pieces of the split (see
   * `ToCurrencyPairIsSplit`), that is, the text before the first separator
   * and the text after it up to the next one. The text must hold a
   * separator (Go panics otherwise) and later pieces are dropped.
   */
  function ToCurrencyPair(s: string): (p: CurrencyPair)
    requires Sep in s
    ensures Sep !in p.key && Sep !in p.settlement
    ensures |p.key| + 1 + |p.settlement| <= |s|
  {
    SepIndexFinds(s);
    var rest := s[SepIndex(s) + 1..];
    SepIndexFinds(rest);
    CurrencyPair(s[..SepIndex(s)], rest[..SepIndex(rest)])
  }

  /** The first piece of the split runs up to the first separator. */
  lemma SplitHead(s: string)
    ensures Split(s)[0] == s[..SepIndex(s)]
  {
    SepIndexFinds(s);
    if Sep in s {
      var i := FirstSep(s);
      assert Split(s) == [s[..i]] + Split(s[i + 1..]);
    } else {
      assert s[..|s|] == s;
    }
  }

  /** The two pieces are those `strings.Split` gives first. */
  lemma ToCurrencyPairIsSplit(s: string)
    requires Sep in s
    ensures |Split(s)| >= 2
    ensures ToCurrencyPair(s) == CurrencyPair(Split(s)[0], Split(s)[1])
  {
    SepIndexFinds(s);
    var i := FirstSep(s);
    var rest := s[i + 1..];
    assert Split(s) == [s[..i]] + Split(rest);
    SplitHead(rest);
    assert Split(s)[1] == Split(rest)[0];
  }

  /**
   * What `toCurrencyPair` gives: separator-free parts, the key and the
   * separator start the text, and the settlement follows.
   */
  lemma ToCurrencyPairShape(s: string)
    requires Sep in s
    ensures var p := ToCurrencyPair(s);
      Sep !in p.key && Sep !in p.settlement
      && |p.key| < |s| && s[..|p.key| + 1] == p.key + [Sep]
      && p.settlement <= s[|p.key| + 1..]
  {
    SepIndexFinds(s);
    var i := SepIndex(s);
    SepIndexFinds(s[i + 1..]);
    assert s[..i + 1] == s[..i] + [Sep];
  }

  /** `toCurrencyPair` inverts `CurrencyPair.String` for separator-free parts. */
  lemma ToCurrencyPairInvertsString(p: CurrencyPair)
    requires Sep !in p.key && Sep !in p.settlement
    ensures Sep in PairString(p)
    ensures ToCurrencyPair(PairString(p)) == p
  {
    assert PairString(p)[|p.key|] == Sep;
    ToCurrencyPairIsSplit(PairString(p));
    ParsePrintRoundTrip(p);
  }

  /** Wherever `ParseToCurrencyPair` succeeds, `toCurrencyPair` agrees with it. */
  lemma ToCurrencyPairAgreesWithParse(s: string)
    requires ParseToCurrencyPair(s).Ok?
    ensures Sep in s
    ensures ToCurrencyPair(s) == ParseToCurrencyPair(s).value
  {
    var p := ParseToCurrencyPair(s).value;
    assert s[|p.key|] == Sep;
    ToCurrencyPairIsSplit(s);
  }

  /** Extra pieces are ignored: `a_b_c` gives the pair (a, b). */
  lemma ToCurrencyPairDropsExtraPieces(a: string, b: string, c: string)
    requires Sep !in a && Sep !in b
    ensures Sep in a + [Sep] + b + [Sep] + c
    ensures ToCurrencyPair(a + [Sep] + b + [Sep] + c) == CurrencyPair(a, b)
  {
    var s := a + [Sep] + b + [Sep] + c;
    SepIndexAfter(a, b + [Sep] + c);
    assert s == a + [Sep] + (b + [Sep] + c);
    assert s[SepIndex(s) + 1..] == b + [Sep] + c;
    SepIndexAfter(b, c);
    assert s[..|a|] == a;
    assert (b + [Sep] + c)[..|b|] == b;
  }

  /** The first separator after a separator-free prefix is the one that ends it. */
  lemma {:induction false} SepIndexAfter(a: string, t: string)
    requires Sep !in a
    ensures Sep in a + [Sep] + t
    ensures SepIndex(a + [Sep] + t) == |a|
  {
    assert (a + [Sep] + t)[|a|] == Sep;
    if a != [] {
      assert (a + [Sep] + t)[1..] == a[1..] + [Sep] + t;
      SepIndexAfter(a[1..], t);
    }
  }
}
