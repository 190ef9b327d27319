/**
 * The guard structure of the risk estimator `calculer_risque`: simple
 * returns of a closing-price history and the rule that the volatility and
 * the 95% value-at-risk are both "N/A" or both numbers. The two statistics
 * themselves (standard deviation times the square root of 252, and the
 * 5th percentile) are left abstract: they are parameters of the estimator.
 */
module Risk {

  /** One entry of the price history; `NotNumeric` stands for data on which pandas raises. */
  datatype Close = Price(value: real) | NotNumeric

  /**
   * A simple return as pandas computes it: a finite ratio, or an infinity
   * when the previous price is 0 and the current one is not.
   */
  datatype Return = Finite(value: real) | Unbounded(positive: bool)

  /** A reported statistic: "N/A" or a number. */
  datatype Stat = NA | Value(x: real)

  datatype RiskSummary = RiskSummary(volatility: Stat, var95: Stat)

  predicate AllNumeric(history: seq<Close>)
  {
    forall i :: 0 <= i < |history| ==> history[i].Price?
  }

  function Prices(history: seq<Close>): (p: seq<real>)
    requires AllNumeric(history)
    ensures |p| == |history|
    ensures forall i :: 0 <= i < |p| ==> history[i] == Price(p[i])
  {
    if history == [] then [] else [history[0].value] + Prices(history[1..])
  }

  /**
   * `pct_change()` followed by `dropna()` for one pair of consecutive
   * prices: 0/0 is NaN and is dropped, x/0 is kept as an infinity.
   */
  function StepReturn(prev: real, cur: real): (r: seq<Return>)
    ensures |r| <= 1
    ensures r == [] <==> prev == 0.0 && cur == 0.0
    ensures prev == 0.0 && cur != 0.0 ==> r == [Unbounded(cur > 0.0)]
    ensures prev != 0.0 ==> r == [Finite(cur / prev - 1.0)]
  {
    if prev != 0.0 then
      assert prev / prev == 1.0;
      assert (cur - prev) / prev == cur / prev - prev / prev;
      [Finite((cur - prev) / prev)]
    else if cur == 0.0 then []
    else [Unbounded(cur > 0.0)]
  }

  /** `historique.pct_change().dropna()`: at most one return per consecutive pair. */
  function SimpleReturns(prices: seq<real>): (r: seq<Return>)
    ensures |prices| <= 1 ==> r == []
    ensures |prices| >= 1 ==> |r| <= |prices| - 1
  {
    if |prices| < 2 then [] else StepReturn(prices[0], prices[1]) + SimpleReturns(prices[1..])
  }

  /**
   * Built from the other end, as pandas walks the series: appending a
   * price appends the return of the last pair and nothing else.
   */
  lemma {:induction false} ReturnsAppend(prices: seq<real>, x: real)
    requires |prices| >= 1
    ensures SimpleReturns(prices + [x]) == SimpleReturns(prices) + StepReturn(prices[|prices| - 1], x)
    decreases |prices|
  {
    if |prices| >= 2 {
      ReturnsAppend(prices[1..], x);
      assert (prices + [x])[1..] == prices[1..] + [x];
    } else {
      assert SimpleReturns(prices) == [];
      assert (prices + [x])[1..] == [x];
    }
  }

  /** At zero prices: 0 to 0 is dropped, 0 to 2 is kept as +infinity, 2 to 3 is +50%. */
  lemma ZeroPriceExample()
    ensures SimpleReturns([0.0, 0.0, 2.0, 3.0]) == [Unbounded(true), Finite(0.5)]
  {
    assert [0.0, 0.0, 2.0, 3.0][1..] == [0.0, 2.0, 3.0];
    assert [0.0, 2.0, 3.0][1..] == [2.0, 3.0];
    assert [2.0, 3.0][1..] == [3.0];
  }

  /**
   * With no zero price, nothing is dropped: there is exactly one finite
   * return per consecutive pair, `(p[i+1] - p[i]) / p[i]`.
   */
  lemma {:induction false} NonZeroReturns(prices: seq<real>)
    requires |prices| >= 1
    requires forall i :: 0 <= i < |prices| ==> prices[i] != 0.0
    ensures |SimpleReturns(prices)| == |prices| - 1
    ensures forall i :: 0 <= i < |prices| - 1 ==>
              SimpleReturns(prices)[i] == Finite((prices[i + 1] - prices[i]) / prices[i])
  {
    if |prices| >= 2 {
      NonZeroReturns(prices[1..]);
      var rest := SimpleReturns(prices[1..]);
      assert SimpleReturns(prices) == [Finite((prices[1] - prices[0]) / prices[0])] + rest;
      forall i | 1 <= i < |prices| - 1
        ensures SimpleReturns(prices)[i] == Finite((prices[i + 1] - prices[i]) / prices[i])
      {
        assert SimpleReturns(prices)[i] == rest[i - 1];
        assert prices[1..][i - 1] == prices[i] && prices[1..][i] == prices[i + 1];
      }
    }
  }

  /**
   * `calculer_risque`: both statistics are "N/A" when the history cannot
   * be processed or yields fewer than two returns, and both are numbers
   * computed from the returns otherwise.
   */
  function EstimateRisk(history: seq<Close>, volatility: seq<Return> -> real,
                        valueAtRisk: seq<Return> -> real): (r: RiskSummary)
    ensures r.volatility.NA? <==> r.var95.NA?
    ensures !AllNumeric(history) ==> r == RiskSummary(NA, NA)
    ensures AllNumeric(history) ==>
              (r.volatility.NA? <==> |SimpleReturns(Prices(history))| < 2)
    ensures r.volatility.Value? ==>
              var rets := SimpleReturns(Prices(history));
              r == RiskSummary(Value(volatility(rets)), Value(valueAtRisk(rets)))
  {
    if !AllNumeric(history) then RiskSummary(NA, NA)
    else
      var rets := SimpleReturns(Prices(history));
      if |rets| < 2 then RiskSummary(NA, NA)
      else RiskSummary(Value(volatility(rets)), Value(valueAtRisk(rets)))
  }

  /** Two prices or fewer give at most one return, hence "N/A" twice. */
  lemma ShortHistoryIsNA(history: seq<Close>, volatility: seq<Return> -> real,
                         valueAtRisk: seq<Return> -> real)
    requires |history| <= 2
    ensures EstimateRisk(history, volatility, valueAtRisk) == RiskSummary(NA, NA)
  {
    if AllNumeric(history) {
      assert |SimpleReturns(Prices(history))| <= 1;
    }
  }

  /**
   * A constant non-zero price series of at least three points is not
   * "N/A": its statistics are computed from a series of zero returns.
   */
  lemma ConstantHistory(history: seq<Close>, c: real, volatility: seq<Return> -> real,
                        valueAtRisk: seq<Return> -> real)
    requires |history| >= 3 && c != 0.0
    requires forall i :: 0 <= i < |history| ==> history[i] == Price(c)
    ensures var zeros := seq(|history| - 1, _ => Finite(0.0));
      EstimateRisk(history, volatility, valueAtRisk)
        == RiskSummary(Value(volatility(zeros)), Value(valueAtRisk(zeros)))
  {
    var prices := Prices(history);
    NonZeroReturns(prices);
    var zeros := seq(|history| - 1, _ => Finite(0.0));
    forall i | 0 <= i < |zeros|
      ensures SimpleReturns(prices)[i] == zeros[i]
    {
      assert prices[i] == c && prices[i + 1] == c;
    }
    assert SimpleReturns(prices) == zeros;
  }
}
