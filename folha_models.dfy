/** The records of folha/models.py: the monthly competence (FolhaPagamento), its payment events
    (EventoPagamento), the line items (ItemFolha) and the per-employee summary
    (ResumoFolhaFuncionario), with their validations, totals and status transitions as functions
    on values. The store that holds them is in folha_services.dfy. */
module FolhaModels {
  import opened Base
  import opened Datas
  import opened Core

  // ---------------------------------------------------------------- competence

  /** 'R', 'F', 'P', 'C'. */
  datatype StatusFolha = FolhaRascunho | FolhaFechada | FolhaPaga | FolhaCancelada

  /** `dataFechamento` is the `DateTimeField` as an instant supplied by the caller; `contratosAtivos`
      lists the primary keys of the attached contracts. */
  datatype FolhaPagamento = FolhaPagamento(
    mes: int,
    ano: int,
    status: StatusFolha,
    dataFechamento: Option<int>,
    contratosAtivos: seq<nat>)

  /** Every error `FolhaPagamento.full_clean()` raises together for a competence with primary key
      `pk` (absent before the first save): the month's field and `clean` errors when the month is not
      in 1..12, the year's field error below 2000, and the duplicate-period error, which `clean` looks
      for only once the month is in range. */
  function ErrosFolha(mes: int, ano: int, folhas: seq<FolhaPagamento>, pk: Option<nat>): set<Erro> {
    (if 1 <= mes <= 12 then {} else {MesInvalido})
    + (if ano < 2000 then {AnoInvalido} else {})
    + (if 1 <= mes <= 12 && exists j :: 0 <= j < |folhas| && pk != Some(j) && folhas[j].mes == mes && folhas[j].ano == ano
       then {FolhaDuplicada} else {})
  }

  /** `FolhaPagamento.full_clean()`, reduced to the first entry of the error dictionary it raises:
      the field validators come first (month at least 1, then year at least 2000), then `clean`
      (month at most 12, no other competence for the same month and year). */
  function ValidarFolha(mes: int, ano: int, folhas: seq<FolhaPagamento>, pk: Option<nat>): (r: Outcome)
    ensures r.Pass? <==> ErrosFolha(mes, ano, folhas, pk) == {}
    ensures r.Fail? ==> r.erro in ErrosFolha(mes, ano, folhas, pk)
    ensures r == Fail(MesInvalido) <==> mes < 1 || (ano >= 2000 && mes > 12)
    ensures r == Fail(AnoInvalido) <==> mes >= 1 && ano < 2000
    ensures r == Fail(FolhaDuplicada) <==>
              1 <= mes <= 12 && ano >= 2000
              && exists j :: 0 <= j < |folhas| && pk != Some(j) && folhas[j].mes == mes && folhas[j].ano == ano
    ensures r.Pass? || r == Fail(MesInvalido) || r == Fail(AnoInvalido) || r == Fail(FolhaDuplicada)
  {
    if mes < 1 then Fail(MesInvalido)
    else if ano < 2000 then Fail(AnoInvalido)
    else if mes > 12 then Fail(MesInvalido)
    else if exists j :: 0 <= j < |folhas| && pk != Some(j) && folhas[j].mes == mes && folhas[j].ano == ano then
      Fail(FolhaDuplicada)
    else Pass
  }

  /** `data_fechamento` is set exactly while the competence is closed or paid. */
  predicate FechamentoConsistente(fp: FolhaPagamento) {
    fp.dataFechamento.Some? <==> fp.status == FolhaFechada || fp.status == FolhaPaga
  }

  /** `fechar_folha`: only a draft closes; it becomes closed and records the closing instant. */
  function FecharFolha(fp: FolhaPagamento, agora: int): (r: Result<FolhaPagamento>)
    ensures r.Ok? <==> fp.status == FolhaRascunho
    ensures r.Err? ==> r.erro == FolhaNaoPodeSerFechada
    ensures r.Ok? ==> r.value.status == FolhaFechada && r.value.dataFechamento == Some(agora)
    ensures r.Ok? ==> r.value.(status := fp.status, dataFechamento := fp.dataFechamento) == fp
  {
    if fp.status != FolhaRascunho then Err(FolhaNaoPodeSerFechada)
    else Ok(fp.(status := FolhaFechada, dataFechamento := Some(agora)))
  }

  /** `reabrir_folha`: only a closed competence reopens; it becomes a draft and forgets the closing instant. */
  function ReabrirFolha(fp: FolhaPagamento): (r: Result<FolhaPagamento>)
    ensures r.Ok? <==> fp.status == FolhaFechada
    ensures r.Err? ==> r.erro == FolhaNaoPodeSerReaberta
    ensures r.Ok? ==> r.value.status == FolhaRascunho && r.value.dataFechamento.None?
    ensures r.Ok? ==> r.value.(status := fp.status, dataFechamento := fp.dataFechamento) == fp
  {
    if fp.status != FolhaFechada then Err(FolhaNaoPodeSerReaberta)
    else Ok(fp.(status := FolhaRascunho, dataFechamento := None))
  }

  /** `marcar_como_paga`: only a closed competence is paid; the closing instant is kept. */
  function MarcarFolhaComoPaga(fp: FolhaPagamento): (r: Result<FolhaPagamento>)
    ensures r.Ok? <==> fp.status == FolhaFechada
    ensures r.Err? ==> r.erro == FolhaNaoPodeSerPaga
    ensures r.Ok? ==> r.value.status == FolhaPaga
    ensures r.Ok? ==> r.value.(status := fp.status) == fp
  {
    if fp.status != FolhaFechada then Err(FolhaNaoPodeSerPaga)
    else Ok(fp.(status := FolhaPaga))
  }

  /** Every competence transition keeps the closing instant consistent with the status. */
  lemma TransicoesFolhaConsistentes(fp: FolhaPagamento, agora: int)
    requires FechamentoConsistente(fp)
    ensures FecharFolha(fp, agora).Ok? ==> FechamentoConsistente(FecharFolha(fp, agora).value)
    ensures ReabrirFolha(fp).Ok? ==> FechamentoConsistente(ReabrirFolha(fp).value)
    ensures MarcarFolhaComoPaga(fp).Ok? ==> FechamentoConsistente(MarcarFolhaComoPaga(fp).value)
  {
  }

  /** Closing a consistent draft and reopening it gives back the same competence. */
  lemma FecharReabrirFolha(fp: FolhaPagamento, agora: int)
    requires fp.status == FolhaRascunho && FechamentoConsistente(fp)
    ensures FecharFolha(fp, agora).Ok?
    ensures ReabrirFolha(FecharFolha(fp, agora).value) == Ok(fp)
  {
  }

  /** A paid competence admits none of the three transitions. */
  lemma FolhaPagaEhFinal(fp: FolhaPagamento, agora: int)
    requires fp.status == FolhaPaga
    ensures FecharFolha(fp, agora).Err? && ReabrirFolha(fp).Err? && MarcarFolhaComoPaga(fp).Err?
  {
  }

  // ---------------------------------------------------------------- payment event

  /** 'AD' fortnightly advance, 'PF' final payment, '13' thirteenth salary ('DT' here), 'FE' leave,
      'RE' termination, 'OU' other. */
  datatype TipoEvento = AD | PF | DT | FE | RE | OU

  /** 'R', 'F', 'P', 'C'. */
  datatype StatusEvento = EventoRascunho | EventoFechado | EventoPago | EventoCancelado

  /** `valorTotal` in micro-reais. */
  datatype EventoPagamento = EventoPagamento(
    folha: nat,
    tipo: TipoEvento,
    descricao: string,
    data: Data,
    dataPagamento: Option<Data>,
    status: StatusEvento,
    valorTotal: int)

  /** Every error `EventoPagamento.full_clean()` raises together for an event of competence `fp`
      (primary key `folha`): the field error of a blank or over-long `descricao`, the error of `clean`
      for a date outside the competence, and the `unique_together` error on (competence,
      description), which is not looked for once `descricao` has a field error. */
  function ErrosEvento(fp: FolhaPagamento, folha: nat, descricao: string, data: Data,
                       eventos: seq<EventoPagamento>, pk: Option<nat>): set<Erro> {
    (if descricao == [] || |descricao| > 200 then {DescricaoInvalida} else {})
    + (if data.mes != fp.mes || data.ano != fp.ano then {DataForaDaCompetencia} else {})
    + (if descricao != [] && |descricao| <= 200
          && exists j :: 0 <= j < |eventos| && pk != Some(j) && eventos[j].folha == folha && eventos[j].descricao == descricao
       then {DescricaoDuplicada} else {})
  }

  /** `EventoPagamento.full_clean()` for an event of competence `fp` (primary key `folha`), reduced
      to the first error it raises: the field check of `descricao` (not blank, at most 200
      characters), then `clean` (the date lies in the competence's month and year), then
      `unique_together` on (competence, description). */
  function ValidarEvento(fp: FolhaPagamento, folha: nat, descricao: string, data: Data,
                         eventos: seq<EventoPagamento>, pk: Option<nat>): (r: Outcome)
    ensures r.Pass? <==> ErrosEvento(fp, folha, descricao, data, eventos, pk) == {}
    ensures r.Fail? ==> r.erro in ErrosEvento(fp, folha, descricao, data, eventos, pk)
    ensures r == Fail(DescricaoInvalida) <==> descricao == [] || |descricao| > 200
    ensures r == Fail(DataForaDaCompetencia) <==>
              descricao != [] && |descricao| <= 200 && (data.mes != fp.mes || data.ano != fp.ano)
    ensures r == Fail(DescricaoDuplicada) <==>
              descricao != [] && |descricao| <= 200 && data.mes == fp.mes && data.ano == fp.ano
              && exists j :: 0 <= j < |eventos| && pk != Some(j) && eventos[j].folha == folha && eventos[j].descricao == descricao
    ensures r.Pass? || r == Fail(DescricaoInvalida) || r == Fail(DataForaDaCompetencia) || r == Fail(DescricaoDuplicada)
  {
    if descricao == [] || |descricao| > 200 then Fail(DescricaoInvalida)
    else if data.mes != fp.mes || data.ano != fp.ano then Fail(DataForaDaCompetencia)
    else if exists j :: 0 <= j < |eventos| && pk != Some(j) && eventos[j].folha == folha && eventos[j].descricao == descricao then
      Fail(DescricaoDuplicada)
    else Pass
  }

  /** `fechar_evento`: only a draft closes; it becomes closed with `valor_total` set to `liquido`,
      the event's net at that moment. */
  function FecharEvento(ev: EventoPagamento, liquido: int): (r: Result<EventoPagamento>)
    ensures r.Ok? <==> ev.status == EventoRascunho
    ensures r.Err? ==> r.erro == EventoNaoPodeSerFechado
    ensures r.Ok? ==> r.value.status == EventoFechado && r.value.valorTotal == liquido
    ensures r.Ok? ==> r.value.(status := ev.status, valorTotal := ev.valorTotal) == ev
  {
    if ev.status != EventoRascunho then Err(EventoNaoPodeSerFechado)
    else Ok(ev.(status := EventoFechado, valorTotal := liquido))
  }

  /** `marcar_como_pago`: a closed or draft event is paid, on the given date or else today. */
  function MarcarEventoComoPago(ev: EventoPagamento, dataPagamento: Option<Data>, hoje: Data): (r: Result<EventoPagamento>)
    ensures r.Ok? <==> ev.status == EventoFechado || ev.status == EventoRascunho
    ensures r.Err? ==> r.erro == EventoNaoPodeSerPago
    ensures r.Ok? ==> r.value.status == EventoPago
    ensures r.Ok? ==> r.value.dataPagamento == Some(dataPagamento.GetOr(hoje))
    ensures r.Ok? && dataPagamento.Some? ==> r.value.dataPagamento == dataPagamento
    ensures r.Ok? && dataPagamento.None? ==> r.value.dataPagamento == Some(hoje)
    ensures r.Ok? ==> r.value.(status := ev.status, dataPagamento := ev.dataPagamento) == ev
  {
    if ev.status != EventoFechado && ev.status != EventoRascunho then Err(EventoNaoPodeSerPago)
    else Ok(ev.(status := EventoPago, dataPagamento := Some(dataPagamento.GetOr(hoje))))
  }

  /** `reabrir_evento`: only a closed event reopens, as a draft; its total is kept. */
  function ReabrirEvento(ev: EventoPagamento): (r: Result<EventoPagamento>)
    ensures r.Ok? <==> ev.status == EventoFechado
    ensures r.Err? ==> r.erro == EventoNaoPodeSerReaberto
    ensures r.Ok? ==> r.value.status == EventoRascunho
    ensures r.Ok? ==> r.value.(status := ev.status) == ev
  {
    if ev.status != EventoFechado then Err(EventoNaoPodeSerReaberto)
    else Ok(ev.(status := EventoRascunho))
  }

  /** Closing a draft and reopening it leaves the draft with its total recomputed. */
  lemma FecharReabrirEvento(ev: EventoPagamento, liquido: int)
    requires ev.status == EventoRascunho
    ensures FecharEvento(ev, liquido).Ok?
    ensures ReabrirEvento(FecharEvento(ev, liquido).value) == Ok(ev.(valorTotal := liquido))
  {
  }

  /** Paid and cancelled events admit none of the three transitions. */
  lemma EventoPagoOuCanceladoEhFinal(ev: EventoPagamento, liquido: int, data: Option<Data>, hoje: Data)
    requires ev.status == EventoPago || ev.status == EventoCancelado
    ensures FecharEvento(ev, liquido).Err? && MarcarEventoComoPago(ev, data, hoje).Err? && ReabrirEvento(ev).Err?
  {
  }

  /** "Pagamento Final MM/AAAA": the description of the default final-payment event, with the month
      zero-padded to two digits. */
  function DescricaoPF(mes: int, ano: int): string
    requires 1 <= mes <= 12 && ano >= 0
  {
    "Pagamento Final " + [Digito(mes / 10), Digito(mes % 10)] + "/" + Decimal(ano)
  }

  function Digito(d: int): char
    requires 0 <= d <= 9
  {
    ('0' as int + d) as char
  }

  predicate SoDigitos(s: string) {
    forall k | 0 <= k < |s| :: '0' <= s[k] <= '9'
  }

  /** The number a string of decimal digits spells, most significant digit first. */
  function ValorDecimal(s: string): nat
    requires SoDigitos(s)
  {
    if s == [] then 0 else 10 * ValorDecimal(s[..|s| - 1]) + (s[|s| - 1] as int - '0' as int)
  }

  /** The decimal numeral `str(n)` of a natural number: digits only, no leading zero, spelling n. */
  function Decimal(n: nat): (s: string)
    ensures 1 <= |s| && SoDigitos(s)
    ensures |s| > 1 ==> s[0] != '0'
    ensures ValorDecimal(s) == n
  {
    if n < 10 then [Digito(n)]
    else
      var s := Decimal(n / 10) + [Digito(n % 10)];
      assert s[..|s| - 1] == Decimal(n / 10);
      s
  }

  /** A year of at most four digits has a numeral of at most four characters. */
  lemma DecimalCurto(n: nat)
    requires n <= 9999
    ensures |Decimal(n)| <= 4
  {
    assert (n / 10) / 10 == n / 100 && (n / 100) / 10 == n / 1000;
    if n >= 10 {
      if n / 10 >= 10 {
        if n / 100 >= 10 {
          assert |Decimal(n / 1000)| == 1;
          assert |Decimal(n / 100)| == 2;
        }
        assert |Decimal(n / 100)| <= 2;
      }
      assert |Decimal(n / 10)| <= 3;
    }
  }

  /** "Pagamento Final ", the month in two digits, "/" and the year's numeral, in that order. */
  lemma DescricaoPFSoletra(mes: int, ano: int)
    requires 1 <= mes <= 12 && ano >= 0
    ensures var d := DescricaoPF(mes, ano);
            |d| >= 20 && d[..16] == "Pagamento Final " && d[18] == '/' && d[19..] == Decimal(ano)
            && SoDigitos(d[16..18]) && ValorDecimal(d[16..18]) == mes
  {
    var d := DescricaoPF(mes, ano);
    var m := [Digito(mes / 10), Digito(mes % 10)];
    assert d == "Pagamento Final " + m + "/" + Decimal(ano);
    assert d[16..18] == m;
    assert m[..1] == [Digito(mes / 10)] && m[..0] == [];
    assert ValorDecimal(m[..1]) == mes / 10;
    assert ValorDecimal(m) == 10 * (mes / 10) + mes % 10;
  }

  /** Distinct competences get distinct default descriptions, so the uniqueness of descriptions
      within a competence never confuses two periods. */
  lemma DescricaoPFInjetiva(m1: int, a1: int, m2: int, a2: int)
    requires 1 <= m1 <= 12 && a1 >= 0 && 1 <= m2 <= 12 && a2 >= 0
    requires DescricaoPF(m1, a1) == DescricaoPF(m2, a2)
    ensures m1 == m2 && a1 == a2
  {
    DescricaoPFSoletra(m1, a1);
    DescricaoPFSoletra(m2, a2);
  }

  /** The default description is a well-formed event description for any year up to 9999. */
  lemma DescricaoPFValida(mes: int, ano: int)
    requires 1 <= mes <= 12 && 0 <= ano <= 9999
    ensures var d := DescricaoPF(mes, ano); d != [] && |d| <= 200
  {
    DecimalCurto(ano);
  }

  // ---------------------------------------------------------------- line items and totals

  /** `valor` and `base` in micro-reais; `origem` is the advance a debit item deducts. */
  datatype ItemFolha = ItemFolha(
    evento: nat,
    folha: nat,
    funcionario: nat,
    provento: nat,
    valor: int,
    base: Option<int>,
    origem: Option<nat>)

  /** The item sets over which the system sums: a competence's items, an event's items, or one
      employee's items in a competence across all its events. */
  datatype Escopo = DaFolha(folha: nat) | DoEvento(evento: nat) | DoFuncionario(folha: nat, funcionario: nat)

  predicate Em(it: ItemFolha, escopo: Escopo) {
    match escopo
    case DaFolha(f) => it.folha == f
    case DoEvento(e) => it.evento == e
    case DoFuncionario(f, func) => it.folha == f && it.funcionario == func
  }

  /** What one item adds to the total of `tipo` within `escopo`. */
  function Parcela(it: ItemFolha, catalogo: seq<ProventoDesconto>, escopo: Escopo, tipo: Tipo): int {
    if Em(it, escopo) && it.provento < |catalogo| && catalogo[it.provento].tipo == tipo then it.valor else 0
  }

  /** `itens.filter(provento_desconto__tipo=tipo).aggregate(Sum('valor_lancado'))['total'] or 0`. */
  function Total(itens: seq<ItemFolha>, catalogo: seq<ProventoDesconto>, escopo: Escopo, tipo: Tipo): int {
    if itens == [] then 0
    else Total(itens[..|itens| - 1], catalogo, escopo, tipo) + Parcela(itens[|itens| - 1], catalogo, escopo, tipo)
  }

  /** `total_liquido`: credits minus debits. */
  function Liquido(itens: seq<ItemFolha>, catalogo: seq<ProventoDesconto>, escopo: Escopo): int {
    Total(itens, catalogo, escopo, Provento) - Total(itens, catalogo, escopo, Desconto)
  }

  /** Totals add up over a concatenation of item lists. */
  lemma {:induction false} TotalConcat(a: seq<ItemFolha>, b: seq<ItemFolha>, catalogo: seq<ProventoDesconto>, escopo: Escopo, tipo: Tipo)
    ensures Total(a + b, catalogo, escopo, tipo) == Total(a, catalogo, escopo, tipo) + Total(b, catalogo, escopo, tipo)
    decreases |b|
  {
    if b == [] {
      assert a + b == a;
    } else {
      assert (a + b)[..|a + b| - 1] == a + b[..|b| - 1];
      TotalConcat(a, b[..|b| - 1], catalogo, escopo, tipo);
    }
  }

  /** Appending one item adds exactly its share. */
  lemma TotalAnexar(itens: seq<ItemFolha>, it: ItemFolha, catalogo: seq<ProventoDesconto>, escopo: Escopo, tipo: Tipo)
    ensures Total(itens + [it], catalogo, escopo, tipo) == Total(itens, catalogo, escopo, tipo) + Parcela(it, catalogo, escopo, tipo)
  {
    assert (itens + [it])[..|itens|] == itens;
  }

  /** Deleting the item at position k subtracts exactly its share. */
  lemma TotalRemover(itens: seq<ItemFolha>, k: nat, catalogo: seq<ProventoDesconto>, escopo: Escopo, tipo: Tipo)
    requires k < |itens|
    ensures Total(itens[..k] + itens[k + 1..], catalogo, escopo, tipo)
            == Total(itens, catalogo, escopo, tipo) - Parcela(itens[k], catalogo, escopo, tipo)
  {
    assert itens == itens[..k] + ([itens[k]] + itens[k + 1..]);
    TotalConcat(itens[..k], [itens[k]] + itens[k + 1..], catalogo, escopo, tipo);
    TotalConcat([itens[k]], itens[k + 1..], catalogo, escopo, tipo);
    TotalConcat(itens[..k], itens[k + 1..], catalogo, escopo, tipo);
    assert [itens[k]][..0] == [];
  }

  /** Items outside the scope do not change its totals. */
  lemma {:induction false} TotalForaDoEscopo(itens: seq<ItemFolha>, catalogo: seq<ProventoDesconto>, escopo: Escopo, tipo: Tipo)
    requires forall k | 0 <= k < |itens| :: !Em(itens[k], escopo)
    ensures Total(itens, catalogo, escopo, tipo) == 0
  {
    if itens != [] {
      TotalForaDoEscopo(itens[..|itens| - 1], catalogo, escopo, tipo);
    }
  }

  /** What one item adds to a net inside its scope: its amount for a credit, minus it for a debit. */
  function Efeito(it: ItemFolha, catalogo: seq<ProventoDesconto>): int {
    if it.provento < |catalogo| then (if catalogo[it.provento].tipo == Provento then it.valor else -it.valor) else 0
  }

  /** Adding an item of the scope moves the net by its effect. */
  lemma LiquidoComItem(itens: seq<ItemFolha>, it: ItemFolha, catalogo: seq<ProventoDesconto>, escopo: Escopo)
    requires Em(it, escopo)
    ensures Liquido(itens + [it], catalogo, escopo) == Liquido(itens, catalogo, escopo) + Efeito(it, catalogo)
  {
    LiquidoAnexar(itens, it, catalogo, escopo);
  }

  /** Deleting an item of the scope moves the net back by its effect. */
  lemma LiquidoSemItem(itens: seq<ItemFolha>, k: nat, catalogo: seq<ProventoDesconto>, escopo: Escopo)
    requires k < |itens| && Em(itens[k], escopo)
    ensures Liquido(itens[..k] + itens[k + 1..], catalogo, escopo) == Liquido(itens, catalogo, escopo) - Efeito(itens[k], catalogo)
  {
    TotalRemover(itens, k, catalogo, escopo, Provento);
    TotalRemover(itens, k, catalogo, escopo, Desconto);
  }

  /** Two scopes that select the same items have the same totals. */
  lemma {:induction false} TotalMesmoEscopo(itens: seq<ItemFolha>, catalogo: seq<ProventoDesconto>, a: Escopo, b: Escopo, tipo: Tipo)
    requires forall k | 0 <= k < |itens| :: Em(itens[k], a) <==> Em(itens[k], b)
    ensures Total(itens, catalogo, a, tipo) == Total(itens, catalogo, b, tipo)
  {
    if itens != [] {
      TotalMesmoEscopo(itens[..|itens| - 1], catalogo, a, b, tipo);
    }
  }

  /** An item's share counts towards exactly one kind: credit or debit. */
  lemma LiquidoAnexar(itens: seq<ItemFolha>, it: ItemFolha, catalogo: seq<ProventoDesconto>, escopo: Escopo)
    ensures Liquido(itens + [it], catalogo, escopo) ==
            Liquido(itens, catalogo, escopo)
            + (if Em(it, escopo) && it.provento < |catalogo| then
                 (if catalogo[it.provento].tipo == Provento then it.valor else -it.valor)
               else 0)
  {
    TotalAnexar(itens, it, catalogo, escopo, Provento);
    TotalAnexar(itens, it, catalogo, escopo, Desconto);
  }

  /** The competence total splits into the totals of its employees: the items of a competence that
      belong to `func` are exactly that employee's items. */
  lemma {:induction false} TotalDoFuncionarioNaFolha(itens: seq<ItemFolha>, catalogo: seq<ProventoDesconto>, f: nat, func: nat, tipo: Tipo)
    requires forall k | 0 <= k < |itens| :: itens[k].folha == f ==> itens[k].funcionario == func
    ensures Total(itens, catalogo, DoFuncionario(f, func), tipo) == Total(itens, catalogo, DaFolha(f), tipo)
  {
    if itens != [] {
      TotalDoFuncionarioNaFolha(itens[..|itens| - 1], catalogo, f, func, tipo);
    }
  }

  /** `ResumoFolhaFuncionario`: the summary table's row for one employee in one competence. */
  datatype Resumo = Resumo(totalProventos: int, totalDescontos: int, valorLiquido: int)

  /** What `calcular_totais` stores: the employee's credits and debits across every event of the
      competence, and their difference. */
  function ResumoDe(itens: seq<ItemFolha>, catalogo: seq<ProventoDesconto>, f: nat, func: nat): (r: Resumo)
    ensures r.valorLiquido == r.totalProventos - r.totalDescontos
    ensures r.valorLiquido == Liquido(itens, catalogo, DoFuncionario(f, func))
  {
    var p := Total(itens, catalogo, DoFuncionario(f, func), Provento);
    var d := Total(itens, catalogo, DoFuncionario(f, func), Desconto);
    Resumo(p, d, p - d)
  }

  /** Items of other employees or other competences leave an employee's summary unchanged. */
  lemma ResumoIgnoraOutros(itens: seq<ItemFolha>, novos: seq<ItemFolha>, catalogo: seq<ProventoDesconto>, f: nat, func: nat)
    requires forall k | 0 <= k < |novos| :: novos[k].folha != f || novos[k].funcionario != func
    ensures ResumoDe(itens + novos, catalogo, f, func) == ResumoDe(itens, catalogo, f, func)
  {
    TotalConcat(itens, novos, catalogo, DoFuncionario(f, func), Provento);
    TotalConcat(itens, novos, catalogo, DoFuncionario(f, func), Desconto);
    TotalForaDoEscopo(novos, catalogo, DoFuncionario(f, func), Provento);
    TotalForaDoEscopo(novos, catalogo, DoFuncionario(f, func), Desconto);
  }

  // ---------------------------------------------------------------- totals over events

  /** `Pagos` selects status 'P', `Pendentes` every other status, `Todos` every event. */
  datatype FiltroEventos = Pagos | Pendentes | Todos

  predicate Seleciona(filtro: FiltroEventos, s: StatusEvento) {
    match filtro
    case Pagos => s == EventoPago
    case Pendentes => s != EventoPago
    case Todos => true
  }

  /** Sum of `valor_total` over the competence's events that the filter selects, 0 when none. */
  function TotalEventos(eventos: seq<EventoPagamento>, f: nat, filtro: FiltroEventos): int {
    if eventos == [] then 0
    else
      var ev := eventos[|eventos| - 1];
      TotalEventos(eventos[..|eventos| - 1], f, filtro)
      + (if ev.folha == f && Seleciona(filtro, ev.status) then ev.valorTotal else 0)
  }

  /** `get_total_eventos_pagos() + get_total_eventos_pendentes()` is the total of all the
      competence's events. */
  lemma {:induction false} PagosMaisPendentes(eventos: seq<EventoPagamento>, f: nat)
    ensures TotalEventos(eventos, f, Pagos) + TotalEventos(eventos, f, Pendentes) == TotalEventos(eventos, f, Todos)
  {
    if eventos != [] {
      PagosMaisPendentes(eventos[..|eventos| - 1], f);
    }
  }
}
