/** Calendar dates of the proleptic Gregorian calendar, as Python's `datetime.date` has them:
    comparison, `date.toordinal()`, and `calendar.monthrange(ano, mes)[1]`. */
module Datas {

  datatype Date = Date(ano: int, mes: int, dia: int)

  predicate Bissexto(ano: int) {
    ano % 4 == 0 && (ano % 100 != 0 || ano % 400 == 0)
  }

  /** Days in a month: the second component of `calendar.monthrange(ano, mes)`. */
  function DiasNoMes(ano: int, mes: int): (n: int)
    requires 1 <= mes <= 12
    ensures 28 <= n <= 31
    ensures n == 29 <==> mes == 2 && Bissexto(ano)
  {
    if mes == 2 then (if Bissexto(ano) then 29 else 28)
    else if mes == 4 || mes == 6 || mes == 9 || mes == 11 then 30
    else 31
  }

  function DiasNoAno(ano: int): int {
    if Bissexto(ano) then 366 else 365
  }

  predicate Valida(d: Date) {
    1 <= d.ano && 1 <= d.mes <= 12 && 1 <= d.dia <= DiasNoMes(d.ano, d.mes)
  }

  /** A value a `DateField` can hold. */
  type Data = d: Date | Valida(d) witness Date(2000, 1, 1)

  /** `a <= b` on dates. */
  predicate MenorOuIgual(a: Date, b: Date) {
    a.ano < b.ano || (a.ano == b.ano && (a.mes < b.mes || (a.mes == b.mes && a.dia <= b.dia)))
  }

  /** `a < b` on dates. */
  predicate Menor(a: Date, b: Date) {
    MenorOuIgual(a, b) && a != b
  }

  lemma MenorOuIgualTotal(a: Date, b: Date)
    ensures MenorOuIgual(a, b) || MenorOuIgual(b, a)
    ensures MenorOuIgual(a, b) && MenorOuIgual(b, a) ==> a == b
    ensures !MenorOuIgual(a, b) <==> Menor(b, a)
  {
  }

  /** Python's `_days_before_year`. */
  function DiasAntesDoAno(ano: int): int
    requires ano >= 1
  {
    var y := ano - 1;
    y * 365 + y / 4 - y / 100 + y / 400
  }

  /** Python's `_days_before_month`. */
  function DiasAntesDoMes(ano: int, mes: int): int
    requires 1 <= mes <= 12
  {
    var tabela := [0, 31, 59, 90, 120, 151, 181, 212, 243, 273, 304, 334];
    tabela[mes - 1] + (if mes > 2 && Bissexto(ano) then 1 else 0)
  }

  /** `date.toordinal()`: 1 January of year 1 is day 1. */
  function Ordinal(d: Data): int {
    DiasAntesDoAno(d.ano) + DiasAntesDoMes(d.ano, d.mes) + d.dia
  }

  function PrimeiroDia(ano: int, mes: int): (d: Data)
    requires ano >= 1 && 1 <= mes <= 12
  {
    Date(ano, mes, 1)
  }

  /** The exclusive end of the month's period: the first day of the following month. */
  function PrimeiroDiaSeguinte(ano: int, mes: int): (d: Data)
    requires ano >= 1 && 1 <= mes <= 12
  {
    if mes == 12 then Date(ano + 1, 1, 1) else Date(ano, mes + 1, 1)
  }

  /** `date(ano, mes, calendar.monthrange(ano, mes)[1])`. */
  function UltimoDia(ano: int, mes: int): (d: Data)
    requires ano >= 1 && 1 <= mes <= 12
    ensures d.ano == ano && d.mes == mes
    ensures forall x: Data :: x.ano == ano && x.mes == mes ==> MenorOuIgual(x, d)
  {
    Date(ano, mes, DiasNoMes(ano, mes))
  }

  /** The half-open period [first day, first day of next month) holds exactly the dates of that month. */
  lemma PeriodoEhOMes(ano: int, mes: int, d: Data)
    requires ano >= 1 && 1 <= mes <= 12
    ensures MenorOuIgual(PrimeiroDia(ano, mes), d) && Menor(d, PrimeiroDiaSeguinte(ano, mes))
            <==> d.ano == ano && d.mes == mes
  {
  }

  lemma DiasAntesDoAnoPasso(ano: int)
    requires ano >= 1
    ensures DiasAntesDoAno(ano + 1) == DiasAntesDoAno(ano) + DiasNoAno(ano)
  {
    assert ano / 4 - (ano - 1) / 4 == (if ano % 4 == 0 then 1 else 0);
    assert ano / 100 - (ano - 1) / 100 == (if ano % 100 == 0 then 1 else 0);
    assert ano / 400 - (ano - 1) / 400 == (if ano % 400 == 0 then 1 else 0);
  }

  lemma {:induction false} DiasAntesDoAnoCresce(a: int, b: int)
    requires 1 <= a <= b
    ensures DiasAntesDoAno(a) + (b - a) * 365 <= DiasAntesDoAno(b)
    decreases b - a
  {
    if a < b {
      DiasAntesDoAnoPasso(a);
      DiasAntesDoAnoCresce(a + 1, b);
    }
  }

  lemma {:induction false} DiasAntesDoMesCresce(ano: int, m1: int, m2: int)
    requires 1 <= m1 < m2 <= 12
    ensures DiasAntesDoMes(ano, m1) + DiasNoMes(ano, m1) <= DiasAntesDoMes(ano, m2)
    decreases m2 - m1
  {
    if m1 + 1 < m2 {
      DiasAntesDoMesCresce(ano, m1 + 1, m2);
    }
  }

  lemma DiasAntesDoMesNoAno(ano: int, mes: int)
    requires 1 <= mes <= 12
    ensures DiasAntesDoMes(ano, mes) + DiasNoMes(ano, mes) <= DiasNoAno(ano)
  {
  }

  /** `toordinal` is strictly monotone: it orders valid dates exactly as date comparison does. */
  lemma {:induction false} OrdinalOrdena(a: Data, b: Data)
    ensures Menor(a, b) <==> Ordinal(a) < Ordinal(b)
  {
    if Menor(a, b) {
      OrdinalMenor(a, b);
    } else if a != b {
      MenorOuIgualTotal(a, b);
      OrdinalMenor(b, a);
    }
  }

  lemma OrdinalMenor(a: Data, b: Data)
    requires Menor(a, b)
    ensures Ordinal(a) < Ordinal(b)
  {
    if a.ano < b.ano {
      DiasAntesDoMesNoAno(a.ano, a.mes);
      DiasAntesDoAnoPasso(a.ano);
      DiasAntesDoAnoCresce(a.ano + 1, b.ano);
    } else if a.mes < b.mes {
      DiasAntesDoMesCresce(a.ano, a.mes, b.mes);
    }
  }

  /** The last day of a month is the day just before the first day of the next month. */
  lemma UltimoDiaAntecedeSeguinte(ano: int, mes: int)
    requires ano >= 1 && 1 <= mes <= 12
    ensures Ordinal(UltimoDia(ano, mes)) + 1 == Ordinal(PrimeiroDiaSeguinte(ano, mes))
  {
    if mes == 12 {
      DiasAntesDoAnoPasso(ano);
    }
  }
}
