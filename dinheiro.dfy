/** Money at a fixed decimal scale.

    Every amount is an integer number of micro-reais (10^-6 of a real). A `DecimalField` with two
    decimal places holds whole cents, and a percentage field holds hundredths of a percent, so the
    product `salario * percentual / 100` the payroll computes is always exact at this scale. */
module Dinheiro {

  /** Micro-reais in one cent. */
  const CENTAVO: int := 10000

  /** A two-decimal amount (whole cents) at the model's scale. */
  function Reais(centavos: int): (r: int)
    ensures r % CENTAVO == 0 && r / CENTAVO == centavos
  {
    centavos * CENTAVO
  }

  /** `salario * percentual / Decimal('100')` for a salary in cents and a percentage in hundredths
      of a percent; the result is exact, with no rounding. */
  function Porcentagem(salarioCentavos: int, percentualCentesimos: int): (r: int)
    ensures r * 10000 == Reais(salarioCentavos) * percentualCentesimos
  {
    salarioCentavos * percentualCentesimos
  }

  /** `salario * fator` for a salary in cents and a factor in hundredths (`Decimal('0.50')` is 50);
      exact, with no rounding. */
  function Fator(salarioCentavos: int, fatorCentesimos: int): (r: int)
    ensures r * 100 == Reais(salarioCentavos) * fatorCentesimos
  {
    salarioCentavos * 100 * fatorCentesimos
  }

  /** `x.quantize(Decimal('0.01'))` under the decimal module's default context, whose rounding is
      ROUND_HALF_EVEN: the nearest whole cent, and on a tie the cent whose count is even. */
  function Quantizar(x: int): (r: int)
    ensures r % CENTAVO == 0
    ensures -CENTAVO <= 2 * (r - x) <= CENTAVO
    ensures (2 * (r - x) == CENTAVO || 2 * (r - x) == -CENTAVO) ==> (r / CENTAVO) % 2 == 0
  {
    var q := x / CENTAVO;
    var resto := x % CENTAVO;
    if 2 * resto < CENTAVO then q * CENTAVO
    else if 2 * resto > CENTAVO then (q + 1) * CENTAVO
    else if q % 2 == 0 then q * CENTAVO
    else (q + 1) * CENTAVO
  }

  /** The three properties in Quantizar's contract pin its result down: any whole-cent amount
      within half a cent of x, even on a tie, is Quantizar(x). */
  lemma QuantizarUnico(x: int, r: int)
    requires r % CENTAVO == 0
    requires -CENTAVO <= 2 * (r - x) <= CENTAVO
    requires (2 * (r - x) == CENTAVO || 2 * (r - x) == -CENTAVO) ==> (r / CENTAVO) % 2 == 0
    ensures r == Quantizar(x)
  {
    var s := Quantizar(x);
    var a, b := r / CENTAVO, s / CENTAVO;
    assert r == a * CENTAVO && s == b * CENTAVO;
    assert -CENTAVO <= (a - b) * CENTAVO <= CENTAVO;
    if a != b {
      assert false;
    }
  }

  /** Quantizing an amount that is already whole cents leaves it unchanged. */
  lemma QuantizarExato(x: int)
    requires x % CENTAVO == 0
    ensures Quantizar(x) == x
  {
    QuantizarUnico(x, x);
  }

  function Soma(xs: seq<int>): int {
    if xs == [] then 0 else Soma(xs[..|xs| - 1]) + xs[|xs| - 1]
  }

  lemma {:induction false} SomaDeCentavos(xs: seq<int>)
    requires forall i | 0 <= i < |xs| :: xs[i] % CENTAVO == 0
    ensures Soma(xs) % CENTAVO == 0
  {
    if xs != [] {
      SomaDeCentavos(xs[..|xs| - 1]);
    }
  }

  /** A sum of amounts each quantized to the cent is unchanged by a further quantize. */
  lemma QuantizarSomaDeQuantizados(xs: seq<int>)
    requires forall i | 0 <= i < |xs| :: xs[i] % CENTAVO == 0
    ensures Quantizar(Soma(xs)) == Soma(xs)
  {
    SomaDeCentavos(xs);
    QuantizarExato(Soma(xs));
  }

  lemma {:induction false} SomaConcat(a: seq<int>, b: seq<int>)
    ensures Soma(a + b) == Soma(a) + Soma(b)
    decreases |b|
  {
    if b != [] {
      assert (a + b)[..|a + b| - 1] == a + b[..|b| - 1];
      SomaConcat(a, b[..|b| - 1]);
    } else {
      assert a + b == a;
    }
  }

  /** Appending one amount adds it to the sum. */
  lemma SomaAnexar(xs: seq<int>, x: int)
    ensures Soma(xs + [x]) == Soma(xs) + x
  {
    assert (xs + [x])[..|xs|] == xs;
  }
}
