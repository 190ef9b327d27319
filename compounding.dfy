/**
 * The compound-interest projector `calculer_capital`: a yearly contribution
 * is added to the running capital and the sum grows by the adjusted rate,
 * once per year, starting from zero capital.
 */
module Compounding {

  /** One emitted row: the year and the capital of that year rounded to cents. */
  datatype YearRow = YearRow(year: int, capital: real)

  /** The asset-class multiplier: 1.2 for "Actions", 0.8 for any other type. */
  function Multiplier(kind: string): real
  {
    if kind == "Actions" then 1.2 else 0.8
  }

  /** The yearly growth factor `1 + taux / 100 * multiplier`; at least 1 for a non-negative rate. */
  function Growth(taux: real, kind: string): (g: real)
    ensures taux >= 0.0 ==> g >= 1.0
  {
    1.0 + taux / 100.0 * Multiplier(kind)
  }

  /** The unrounded running capital after `n` years. */
  function Capital(montant: real, taux: real, kind: string, n: nat): real
  {
    if n == 0 then 0.0 else (Capital(montant, taux, kind, n - 1) + montant) * Growth(taux, kind)
  }

  /** `x` lies exactly half-way between two whole numbers of cents. */
  predicate IsTie(x: real)
  {
    x * 100.0 - (x * 100.0).Floor as real == 0.5
  }

  /**
   * `round(x, 2)` on the exact value: the nearest whole number of cents,
   * a tie going to the even number of cents.
   */
  function RoundCents(x: real): (r: real)
    ensures -0.005 <= r - x <= 0.005
    ensures (r * 100.0).Floor as real == r * 100.0
    ensures x >= 0.0 ==> r >= 0.0
    ensures IsTie(x) ==> (r * 100.0).Floor % 2 == 0
    ensures !IsTie(x) ==> -0.005 < r - x < 0.005
  {
    var scaled := x * 100.0;
    var f := scaled.Floor;
    var frac := scaled - f as real;
    var cents := if frac < 0.5 then f
                 else if frac > 0.5 then f + 1
                 else if f % 2 == 0 then f else f + 1;
    cents as real / 100.0
  }

  /** A tie goes to the even number of cents: 0.125 becomes 0.12, 0.135 becomes 0.14. */
  lemma RoundCentsTieExample()
    ensures RoundCents(0.125) == 0.12 && RoundCents(0.135) == 0.14
  {
    assert (12.5).Floor == 12;
    assert (13.5).Floor == 13;
  }

  /** Rounding to cents never reverses the order of two amounts. */
  lemma RoundCentsMonotone(x: real, y: real)
    requires x <= y
    ensures RoundCents(x) <= RoundCents(y)
  {
    var fx, fy := (x * 100.0).Floor, (y * 100.0).Floor;
    assert fx <= fy;
    if fx == fy {
      var gx, gy := x * 100.0 - fx as real, y * 100.0 - fy as real;
      assert gx <= gy;
    }
  }

  /** The table `calculer_capital` returns: one row per year 1, 2, ..., duree. */
  function Projection(montant: real, taux: real, duree: int, kind: string): (rows: seq<YearRow>)
  {
    seq(if duree < 1 then 0 else duree,
        k requires 0 <= k => YearRow(k + 1, RoundCents(Capital(montant, taux, kind, k + 1))))
  }

  /**
   * The year-by-year loop. Only the emitted value is rounded: `capital`
   * carries the unrounded value into the next year.
   */
  method ProjectCapital(montant: real, taux: real, duree: int, kind: string)
    returns (evolution: seq<YearRow>)
    ensures |evolution| == if duree < 1 then 0 else duree
    ensures forall k :: 0 <= k < |evolution| ==> evolution[k].year == k + 1
    ensures forall k :: 0 <= k < |evolution| ==>
              evolution[k].capital == RoundCents(Capital(montant, taux, kind, k + 1))
    ensures evolution == Projection(montant, taux, duree, kind)
  {
    var capital := 0.0;
    evolution := [];
    var annee := 1;
    while annee <= duree
      invariant 1 <= annee
      invariant duree >= 1 ==> annee <= duree + 1
      invariant duree < 1 ==> annee == 1
      invariant |evolution| == annee - 1
      invariant capital == Capital(montant, taux, kind, annee - 1)
      invariant forall k :: 0 <= k < |evolution| ==>
                  evolution[k] == YearRow(k + 1, RoundCents(Capital(montant, taux, kind, k + 1)))
    {
      var tauxAjuste := taux / 100.0 * (if kind == "Actions" then 1.2 else 0.8);
      assert 1.0 + tauxAjuste == Growth(taux, kind);
      capital := (capital + montant) * (1.0 + tauxAjuste);
      assert capital == Capital(montant, taux, kind, annee);
      evolution := evolution + [YearRow(annee, RoundCents(capital))];
      annee := annee + 1;
    }
    ProjectionAt(montant, taux, duree, kind, evolution);
  }

  /** A table whose rows are the projected rows, one per year, is the projection. */
  lemma ProjectionAt(montant: real, taux: real, duree: int, kind: string, rows: seq<YearRow>)
    requires |rows| == if duree < 1 then 0 else duree
    requires forall k :: 0 <= k < |rows| ==>
               rows[k] == YearRow(k + 1, RoundCents(Capital(montant, taux, kind, k + 1)))
    ensures rows == Projection(montant, taux, duree, kind)
  {
  }

  /**
   * With a non-negative contribution and rate, the capital is never
   * negative and never shrinks from one year to the next.
   */
  lemma {:induction false} CapitalGrows(montant: real, taux: real, kind: string, n: nat)
    requires montant >= 0.0 && taux >= 0.0
    ensures Capital(montant, taux, kind, n) >= 0.0
    ensures n > 0 ==> Capital(montant, taux, kind, n - 1) <= Capital(montant, taux, kind, n)
  {
    if n > 0 {
      CapitalGrows(montant, taux, kind, n - 1);
      var before := Capital(montant, taux, kind, n - 1) + montant;
      var g := Growth(taux, kind);
      assert g >= 1.0;
      assert before * g - before == before * (g - 1.0);
      assert before * (g - 1.0) >= 0.0;
    }
  }

  /** The capital is non-decreasing over the whole horizon. */
  lemma {:induction false} CapitalMonotone(montant: real, taux: real, kind: string, j: nat, k: nat)
    requires montant >= 0.0 && taux >= 0.0
    requires j <= k
    ensures Capital(montant, taux, kind, j) <= Capital(montant, taux, kind, k)
    decreases k
  {
    if j < k {
      CapitalMonotone(montant, taux, kind, j, k - 1);
      CapitalGrows(montant, taux, kind, k);
    }
  }

  /**
   * Under the form's bounds (contribution and rate at least 0), every
   * emitted capital is non-negative, the column is sorted, and so the last
   * row, which the page reports as the final capital, is the largest.
   */
  lemma ProjectionFinalIsMaximum(montant: real, taux: real, duree: int, kind: string)
    requires montant >= 0.0 && taux >= 0.0 && duree >= 1
    ensures var rows := Projection(montant, taux, duree, kind);
      && (forall k :: 0 <= k < |rows| ==> 0.0 <= rows[k].capital <= rows[|rows| - 1].capital)
      && (forall j, k :: 0 <= j <= k < |rows| ==> rows[j].capital <= rows[k].capital)
  {
    var rows := Projection(montant, taux, duree, kind);
    forall j, k | 0 <= j <= k < |rows|
      ensures rows[j].capital <= rows[k].capital
    {
      CapitalMonotone(montant, taux, kind, j + 1, k + 1);
      RoundCentsMonotone(Capital(montant, taux, kind, j + 1), Capital(montant, taux, kind, k + 1));
    }
    forall k | 0 <= k < |rows|
      ensures 0.0 <= rows[k].capital
    {
      CapitalGrows(montant, taux, kind, k + 1);
    }
  }

  /** `g^n`, and the direct sum `g + g^2 + ... + g^n` of the accumulated capital. */
  function Pow(g: real, n: nat): real
  {
    if n == 0 then 1.0 else g * Pow(g, n - 1)
  }

  function GeometricSum(g: real, n: nat): real
  {
    if n == 0 then 0.0 else GeometricSum(g, n - 1) + Pow(g, n)
  }

  lemma {:induction false} GeometricSumStep(g: real, n: nat)
    requires n >= 1
    ensures GeometricSum(g, n) == g * GeometricSum(g, n - 1) + g
  {
    if n > 1 {
      GeometricSumStep(g, n - 1);
      calc {
        GeometricSum(g, n);
        GeometricSum(g, n - 1) + Pow(g, n);
        g * GeometricSum(g, n - 2) + g + g * Pow(g, n - 1);
        g * (GeometricSum(g, n - 2) + Pow(g, n - 1)) + g;
        g * GeometricSum(g, n - 1) + g;
      }
    } else {
      assert Pow(g, 1) == g * Pow(g, 0);
    }
  }

  /** The closed form of the direct sum: `(g + ... + g^n) * (g - 1) == g * (g^n - 1)`. */
  lemma {:induction false} GeometricSumClosedForm(g: real, n: nat)
    ensures GeometricSum(g, n) * (g - 1.0) == g * (Pow(g, n) - 1.0)
  {
    if n > 0 {
      GeometricSumClosedForm(g, n - 1);
      calc {
        GeometricSum(g, n) * (g - 1.0);
        GeometricSum(g, n - 1) * (g - 1.0) + Pow(g, n) * (g - 1.0);
        g * (Pow(g, n - 1) - 1.0) + Pow(g, n) * (g - 1.0);
        Pow(g, n) - g + Pow(g, n) * g - Pow(g, n);
        g * (Pow(g, n) - 1.0);
      }
    }
  }

  /**
   * The capital in closed form: with `g` the growth factor,
   * `Capital(n) * (g - 1) == montant * g * (g^n - 1)`; for `g != 1` this
   * gives the final capital without running the recurrence.
   */
  lemma CapitalGeometric(montant: real, taux: real, kind: string, n: nat)
    ensures var g := Growth(taux, kind);
      Capital(montant, taux, kind, n) * (g - 1.0) == montant * g * (Pow(g, n) - 1.0)
  {
    var g := Growth(taux, kind);
    CapitalClosedForm(montant, taux, kind, n);
    GeometricSumClosedForm(g, n);
    calc {
      Capital(montant, taux, kind, n) * (g - 1.0);
      montant * GeometricSum(g, n) * (g - 1.0);
      montant * (GeometricSum(g, n) * (g - 1.0));
      montant * (g * (Pow(g, n) - 1.0));
    }
  }

  /**
   * The recurrence agrees with the direct sum: after `n` years the
   * capital is `montant * (g + g^2 + ... + g^n)` with `g` the growth factor.
   */
  lemma {:induction false} CapitalClosedForm(montant: real, taux: real, kind: string, n: nat)
    ensures Capital(montant, taux, kind, n) == montant * GeometricSum(Growth(taux, kind), n)
  {
    if n > 0 {
      var g := Growth(taux, kind);
      CapitalClosedForm(montant, taux, kind, n - 1);
      GeometricSumStep(g, n);
      calc {
        Capital(montant, taux, kind, n);
        (montant * GeometricSum(g, n - 1) + montant) * g;
        montant * (g * GeometricSum(g, n - 1) + g);
        montant * GeometricSum(g, n);
      }
    }
  }

  /** 1000 a year at 5% in "Actions" (growth 1.06): 1060 after one year, 2183.60 after two. */
  lemma EquityExample()
    ensures Projection(1000.0, 5.0, 2, "Actions") == [YearRow(1, 1060.0), YearRow(2, 2183.6)]
  {
    assert Capital(1000.0, 5.0, "Actions", 1) == 1060.0;
    assert Capital(1000.0, 5.0, "Actions", 2) == 2183.6;
    assert RoundCents(1060.0) == 1060.0;
    assert RoundCents(2183.6) == 2183.6;
  }

  /** Any type other than "Actions" compounds at 0.8 of the rate: 1000 at 5% gives 1040, then 2121.60. */
  lemma OtherTypeExample(kind: string)
    requires kind != "Actions"
    ensures Projection(1000.0, 5.0, 2, kind) == [YearRow(1, 1040.0), YearRow(2, 2121.6)]
  {
    assert Capital(1000.0, 5.0, kind, 1) == 1040.0;
    assert Capital(1000.0, 5.0, kind, 2) == 2121.6;
    assert RoundCents(1040.0) == 1040.0;
    assert RoundCents(2121.6) == 2121.6;
  }
}
