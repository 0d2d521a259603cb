/** Master data of core/models.py: the pay-component catalogue (ProventoDesconto) and the general
    fixed entries applied to every employee (LancamentoFixoGeral). */
module Core {
  import opened Base
  import opened Datas

  /** `ProventoDesconto.tipo`: 'P' (credit) or 'D' (debit). */
  datatype Tipo = Provento | Desconto

  /** `ProventoDesconto.impacto`: 'F' (fixed amount) or 'P' (percentage of the base salary). */
  datatype Impacto = ValorFixo | PercentualBase

  datatype ProventoDesconto = ProventoDesconto(
    nome: string,
    codigo: string,
    tipo: Tipo,
    impacto: Impacto,
    ativo: bool)

  /** `nome` and `codigo_referencia` are both declared unique. */
  predicate CodigosUnicos(catalogo: seq<ProventoDesconto>) {
    forall i, j | 0 <= i < j < |catalogo| ::
      catalogo[i].codigo != catalogo[j].codigo && catalogo[i].nome != catalogo[j].nome
  }

  /** The three components the services look up by reference code. */
  const SALARIO: nat := 0
  const ADIANTAMENTO: nat := 1
  const SALARIO_13: nat := 2

  /** What the services' get-or-create would produce for each of SALARIO, ADIANTAMENTO and SALARIO_13. */
  const Semente: seq<ProventoDesconto> := [
    ProventoDesconto("Salário Base", "SALARIO", Provento, ValorFixo, true),
    ProventoDesconto("Adiantamento Salarial", "ADIANTAMENTO", Desconto, ValorFixo, true),
    ProventoDesconto("13º Salário", "SALARIO_13", Provento, ValorFixo, true)
  ]

  /** The catalogue starts with the seeded components and has unique codes. */
  predicate CatalogoSemeado(catalogo: seq<ProventoDesconto>) {
    |catalogo| >= 3 && catalogo[..3] == Semente && CodigosUnicos(catalogo)
  }

  lemma CatalogoSemeadoTipos(catalogo: seq<ProventoDesconto>)
    requires CatalogoSemeado(catalogo)
    ensures catalogo[SALARIO].tipo == Provento && catalogo[SALARIO].codigo == "SALARIO"
    ensures catalogo[ADIANTAMENTO].tipo == Desconto && catalogo[ADIANTAMENTO].codigo == "ADIANTAMENTO"
    ensures catalogo[SALARIO_13].tipo == Provento && catalogo[SALARIO_13].codigo == "SALARIO_13"
  {
    assert catalogo[SALARIO] == catalogo[..3][0];
    assert catalogo[ADIANTAMENTO] == catalogo[..3][1];
    assert catalogo[SALARIO_13] == catalogo[..3][2];
  }

  /** Amounts are cents, percentages hundredths of a percent; `None` is a null column. */
  datatype LancamentoFixoGeral = LancamentoFixoGeral(
    provento: nat,
    valor: Option<int>,
    percentual: Option<int>,
    inicio: Data,
    fim: Option<Data>,
    ativo: bool)

  /** The guard chain shared by `LancamentoFixoGeral.clean` and `LancamentoFixo.clean`:
      end before start, then neither amount nor percentage truthy, then both truthy. */
  function ValidarLancamento(inicio: Data, fim: Option<Data>, valor: Option<int>, percentual: Option<int>): (r: Outcome)
    ensures r == Fail(DataFimAnteriorAoInicio) <==> fim.Some? && Menor(fim.value, inicio)
    ensures r == Fail(ValorOuPercentualAusente)
            <==> (fim.None? || MenorOuIgual(inicio, fim.value)) && !Truthy(valor) && !Truthy(percentual)
    ensures r == Fail(ValorEPercentualAmbos)
            <==> (fim.None? || MenorOuIgual(inicio, fim.value)) && Truthy(valor) && Truthy(percentual)
    ensures r.Pass? <==> (fim.None? || MenorOuIgual(inicio, fim.value)) && (Truthy(valor) != Truthy(percentual))
  {
    if fim.Some? && Menor(fim.value, inicio) then Fail(DataFimAnteriorAoInicio)
    else if !Truthy(valor) && !Truthy(percentual) then Fail(ValorOuPercentualAusente)
    else if Truthy(valor) && Truthy(percentual) then Fail(ValorEPercentualAmbos)
    else Pass
  }

  /** `LancamentoFixoGeral.clean`: accepted exactly when the end is not before the start and exactly
      one of amount and percentage is truthy (a zero counts as missing). */
  function CleanLancamentoGeral(l: LancamentoFixoGeral): (r: Outcome)
    ensures r.Pass? <==> (l.fim.None? || MenorOuIgual(l.inicio, l.fim.value)) && (Truthy(l.valor) != Truthy(l.percentual))
    ensures r.Fail? && (l.fim.None? || MenorOuIgual(l.inicio, l.fim.value)) ==>
              r.erro == (if Truthy(l.valor) then ValorEPercentualAmbos else ValorOuPercentualAusente)
  {
    ValidarLancamento(l.inicio, l.fim, l.valor, l.percentual)
  }

  /** `inicio <= hoje <= fim`, or `inicio <= hoje` when open-ended. */
  function AtivoEm(inicio: Data, fim: Option<Data>, hoje: Data): (r: bool)
    ensures r <==> MenorOuIgual(inicio, hoje) && (fim.None? || MenorOuIgual(hoje, fim.value))
  {
    if fim.Some? then MenorOuIgual(inicio, hoje) && MenorOuIgual(hoje, fim.value)
    else MenorOuIgual(inicio, hoje)
  }

  /** `LancamentoFixoGeral.esta_ativo`, with today as a parameter: never active while the flag
      `ativo` is off, otherwise active on the days of its interval. */
  function EstaAtivoGeral(l: LancamentoFixoGeral, hoje: Data): (r: bool)
    ensures !l.ativo ==> !r
    ensures l.ativo ==> (r <==> MenorOuIgual(l.inicio, hoje) && (l.fim.None? || MenorOuIgual(hoje, l.fim.value)))
  {
    if !l.ativo then false else AtivoEm(l.inicio, l.fim, hoje)
  }
}
