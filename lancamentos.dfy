/** What the services of folha/services.py post, as functions of the master data: which contracts a
    competence attaches, how a fixed entry is valued, which items the default final-payment event
    receives per employee, and how pending advances become debit items linked back to them. The
    store's methods in folha_services.dfy are proved to do exactly this. */
module Lancamentos {
  import opened Base
  import opened Datas
  import opened Dinheiro
  import opened Core
  import opened Funcionarios
  import opened FolhaModels

  /** Master data the payroll services read but never change. */
  datatype Cadastro = Cadastro(
    catalogo: seq<ProventoDesconto>,
    gerais: seq<LancamentoFixoGeral>,
    funcionarios: seq<Funcionario>,
    contratos: seq<Contrato>,
    fixos: seq<LancamentoFixo>)

  /** Every general entry names an existing component. */
  predicate GeraisValidos(cad: Cadastro) {
    forall i | 0 <= i < |cad.gerais| :: cad.gerais[i].provento < |cad.catalogo|
  }

  /** Every contract names an existing employee. */
  predicate ContratosValidos(cad: Cadastro) {
    forall i | 0 <= i < |cad.contratos| :: cad.contratos[i].funcionario < |cad.funcionarios|
  }

  /** Every per-employee entry names an existing employee and component. */
  predicate FixosValidos(cad: Cadastro) {
    forall i | 0 <= i < |cad.fixos| :: cad.fixos[i].funcionario < |cad.funcionarios| && cad.fixos[i].provento < |cad.catalogo|
  }

  /** The seeded catalogue, and every foreign key pointing at an existing row. */
  predicate CadastroValido(cad: Cadastro) {
    CatalogoSemeado(cad.catalogo) && GeraisValidos(cad) && ContratosValidos(cad) && FixosValidos(cad)
  }

  // ---------------------------------------------------------------- eligibility

  /** The contract filter of `gerar_folha`: the employee takes part in the payroll, the contract
      starts no later than the first day of the next month (inclusive), and it has no end or ends on
      or after the first day of the month. */
  predicate ContratoElegivel(cad: Cadastro, c: nat, mes: int, ano: int)
    requires c < |cad.contratos| && 1 <= mes <= 12 && ano >= 1
  {
    var ct := cad.contratos[c];
    ct.funcionario < |cad.funcionarios| && cad.funcionarios[ct.funcionario].participaFolha
    && MenorOuIgual(ct.inicio, PrimeiroDiaSeguinte(ano, mes))
    && (ct.fim.None? || MenorOuIgual(PrimeiroDia(ano, mes), ct.fim.value))
  }

  /** The date filter of the fixed-entry helpers: the entry starts strictly before the first day of
      the next month, and has no end or ends on or after the first day of the month. */
  predicate VigenteNoMes(inicio: Data, fim: Option<Data>, mes: int, ano: int)
    requires 1 <= mes <= 12 && ano >= 1
  {
    Menor(inicio, PrimeiroDiaSeguinte(ano, mes)) && (fim.None? || MenorOuIgual(PrimeiroDia(ano, mes), fim.value))
  }

  /** For an interval whose end is not before its start, the fixed-entry filter holds exactly when the
      entry is in force on some day of the month. */
  lemma VigenteSeAtivoEmAlgumDia(inicio: Data, fim: Option<Data>, mes: int, ano: int)
    requires 1 <= mes <= 12 && ano >= 1
    requires fim.None? || MenorOuIgual(inicio, fim.value)
    ensures VigenteNoMes(inicio, fim, mes, ano) <==>
            exists d: Data :: d.ano == ano && d.mes == mes && AtivoEm(inicio, fim, d)
  {
    var primeiro, seguinte := PrimeiroDia(ano, mes), PrimeiroDiaSeguinte(ano, mes);
    if VigenteNoMes(inicio, fim, mes, ano) {
      var d: Data := if MenorOuIgual(inicio, primeiro) then primeiro else inicio;
      PeriodoEhOMes(ano, mes, d);
      assert d.ano == ano && d.mes == mes && AtivoEm(inicio, fim, d);
    }
    if exists d: Data :: d.ano == ano && d.mes == mes && AtivoEm(inicio, fim, d) {
      var d: Data :| d.ano == ano && d.mes == mes && AtivoEm(inicio, fim, d);
      PeriodoEhOMes(ano, mes, d);
    }
  }

  /** The filter of `_lancar_lancamentos_fixos_gerais` admits a general entry whose interval passes
      its `clean` exactly when `esta_ativo` holds for it on some day of the month. */
  lemma GeralFiltradoSeAtivoNoMes(g: LancamentoFixoGeral, mes: int, ano: int)
    requires 1 <= mes <= 12 && ano >= 1
    requires g.fim.None? || MenorOuIgual(g.inicio, g.fim.value)
    ensures g.ativo && VigenteNoMes(g.inicio, g.fim, mes, ano) <==>
            exists d: Data :: d.ano == ano && d.mes == mes && EstaAtivoGeral(g, d)
  {
    VigenteSeAtivoEmAlgumDia(g.inicio, g.fim, mes, ano);
    if g.ativo && VigenteNoMes(g.inicio, g.fim, mes, ano) {
      var d: Data :| d.ano == ano && d.mes == mes && AtivoEm(g.inicio, g.fim, d);
      assert EstaAtivoGeral(g, d);
    }
  }

  /** The filter of `_lancar_lancamentos_fixos` admits an entry of the employee whose interval passes
      its `clean` exactly when `esta_ativo` holds for it on some day of the month. */
  lemma FixoFiltradoSeAtivoNoMes(l: LancamentoFixo, func: nat, mes: int, ano: int)
    requires 1 <= mes <= 12 && ano >= 1
    requires l.fim.None? || MenorOuIgual(l.inicio, l.fim.value)
    ensures l.funcionario == func && VigenteNoMes(l.inicio, l.fim, mes, ano) <==>
            l.funcionario == func && exists d: Data :: d.ano == ano && d.mes == mes && LancamentoFixoEstaAtivo(l, d)
  {
    VigenteSeAtivoEmAlgumDia(l.inicio, l.fim, mes, ano);
    if VigenteNoMes(l.inicio, l.fim, mes, ano) {
      var d: Data :| d.ano == ano && d.mes == mes && AtivoEm(l.inicio, l.fim, d);
      assert LancamentoFixoEstaAtivo(l, d);
    }
  }

  /** The contract filter accepts, besides the contracts in force on some day of the month, exactly
      the contracts that start on the first day of the next month. */
  lemma ContratoElegivelInclusivo(cad: Cadastro, c: nat, mes: int, ano: int)
    requires c < |cad.contratos| && 1 <= mes <= 12 && ano >= 1
    requires !FimAntesDoInicio(cad.contratos[c].inicio, cad.contratos[c].fim)
    requires cad.contratos[c].funcionario < |cad.funcionarios| && cad.funcionarios[cad.contratos[c].funcionario].participaFolha
    ensures ContratoElegivel(cad, c, mes, ano) <==>
            VigenteNoMes(cad.contratos[c].inicio, cad.contratos[c].fim, mes, ano)
            || cad.contratos[c].inicio == PrimeiroDiaSeguinte(ano, mes)
  {
  }

  /** A contract and a fixed entry that both start on 1 February 2024: January's competence attaches
      the contract but does not post the entry. */
  lemma AssimetriaInicioNoMesSeguinte()
    ensures var cad := Cadastro(Semente, [], [Funcionario("Ana", 300000, Ativo, true, None, 0, 0)],
                                [Contrato(0, Date(2024, 2, 1), None, 40)], []);
            ContratoElegivel(cad, 0, 1, 2024) && !VigenteNoMes(Date(2024, 2, 1), None, 1, 2024)
  {
  }

  // ---------------------------------------------------------------- valuation

  /** Amount and `base_calculo` of a fixed entry: impact 'F' gives the amount (or 0) with no base;
      impact 'P' gives salary times percentage over 100, with the salary as base. */
  function Valoracao(impacto: Impacto, valor: Option<int>, percentual: Option<int>, salario: nat): (r: (int, Option<int>))
    ensures impacto == ValorFixo ==> r.1.None? && r.0 == Reais(valor.GetOr(0))
    ensures impacto == PercentualBase ==>
              r.1 == Some(Reais(salario)) && r.0 * 10000 == r.1.value * percentual.GetOr(0)
  {
    if impacto == ValorFixo then (Reais(valor.GetOr(0)), None)
    else (Porcentagem(salario, percentual.GetOr(0)), Some(Reais(salario)))
  }

  /** The item one fixed entry posts: none when its amount is not positive. */
  function ItemDeLancamento(cad: Cadastro, f: nat, e: nat, func: nat, provento: nat,
                            valor: Option<int>, percentual: Option<int>): seq<ItemFolha>
    requires provento < |cad.catalogo| && func < |cad.funcionarios|
  {
    var v := Valoracao(cad.catalogo[provento].impacto, valor, percentual, cad.funcionarios[func].salarioBase);
    if v.0 <= 0 then [] else [ItemFolha(e, f, func, provento, v.0, v.1, None)]
  }

  /** An item of competence f, event e and employee func, with no advance behind it. */
  predicate ItemDoFuncionario(it: ItemFolha, f: nat, e: nat, func: nat) {
    it.folha == f && it.evento == e && it.funcionario == func && it.origem.None?
  }

  /** `_lancar_lancamentos_fixos_gerais` over the first n general entries, in table order. */
  function ItensGerais(cad: Cadastro, n: nat, f: nat, e: nat, func: nat, mes: int, ano: int): (r: seq<ItemFolha>)
    requires GeraisValidos(cad) && n <= |cad.gerais| && func < |cad.funcionarios| && 1 <= mes <= 12 && ano >= 1
    ensures forall k | 0 <= k < |r| :: ItemDoFuncionario(r[k], f, e, func) && r[k].valor > 0 && r[k].provento < |cad.catalogo|
  {
    if n == 0 then []
    else
      var g := cad.gerais[n - 1];
      ItensGerais(cad, n - 1, f, e, func, mes, ano)
      + (if g.ativo && VigenteNoMes(g.inicio, g.fim, mes, ano)
         then ItemDeLancamento(cad, f, e, func, g.provento, g.valor, g.percentual) else [])
  }

  /** `_lancar_lancamentos_fixos` over the first n per-employee entries, in table order. */
  function ItensFixos(cad: Cadastro, n: nat, f: nat, e: nat, func: nat, mes: int, ano: int): (r: seq<ItemFolha>)
    requires FixosValidos(cad) && n <= |cad.fixos| && func < |cad.funcionarios| && 1 <= mes <= 12 && ano >= 1
    ensures forall k | 0 <= k < |r| :: ItemDoFuncionario(r[k], f, e, func) && r[k].valor > 0 && r[k].provento < |cad.catalogo|
  {
    if n == 0 then []
    else
      var l := cad.fixos[n - 1];
      ItensFixos(cad, n - 1, f, e, func, mes, ano)
      + (if l.funcionario == func && VigenteNoMes(l.inicio, l.fim, mes, ano)
         then ItemDeLancamento(cad, f, e, func, l.provento, l.valor, l.percentual) else [])
  }

  /** A general entry that is flagged active, in force in the month and of positive value posts
      exactly its own item; anything else posts nothing. */
  lemma ItensGeraisPasso(cad: Cadastro, n: nat, f: nat, e: nat, func: nat, mes: int, ano: int)
    requires GeraisValidos(cad) && 0 < n <= |cad.gerais| && func < |cad.funcionarios| && 1 <= mes <= 12 && ano >= 1
    ensures var g := cad.gerais[n - 1];
            var v := Valoracao(cad.catalogo[g.provento].impacto, g.valor, g.percentual, cad.funcionarios[func].salarioBase);
            var antes := ItensGerais(cad, n - 1, f, e, func, mes, ano);
            ItensGerais(cad, n, f, e, func, mes, ano) ==
              (if g.ativo && VigenteNoMes(g.inicio, g.fim, mes, ano) && v.0 > 0
               then antes + [ItemFolha(e, f, func, g.provento, v.0, v.1, None)] else antes)
  {
  }

  /** The same step for the per-employee entries. */
  lemma ItensFixosPasso(cad: Cadastro, n: nat, f: nat, e: nat, func: nat, mes: int, ano: int)
    requires FixosValidos(cad) && 0 < n <= |cad.fixos| && func < |cad.funcionarios| && 1 <= mes <= 12 && ano >= 1
    ensures var l := cad.fixos[n - 1];
            var v := Valoracao(cad.catalogo[l.provento].impacto, l.valor, l.percentual, cad.funcionarios[func].salarioBase);
            var antes := ItensFixos(cad, n - 1, f, e, func, mes, ano);
            ItensFixos(cad, n, f, e, func, mes, ano) ==
              (if l.funcionario == func && VigenteNoMes(l.inicio, l.fim, mes, ano) && v.0 > 0
               then antes + [ItemFolha(e, f, func, l.provento, v.0, v.1, None)] else antes)
  {
  }

  /** `_lancar_salario_base`: the salary credit. */
  function ItemSalario(cad: Cadastro, f: nat, e: nat, func: nat): (it: ItemFolha)
    requires func < |cad.funcionarios|
    ensures ItemDoFuncionario(it, f, e, func) && it.provento == SALARIO && it.base.None?
    ensures it.valor == Reais(cad.funcionarios[func].salarioBase)
  {
    ItemFolha(e, f, func, SALARIO, Reais(cad.funcionarios[func].salarioBase), None, None)
  }

  // ---------------------------------------------------------------- advances

  predicate Pendente(a: Adiantamento, func: nat) {
    a.funcionario == func && a.status == StatusAdiantamento.Pendente
  }

  /** The debit items `_lancar_adiantamentos` posts for the employee's pending advances among the
      first n, each linked to its advance. */
  function ItensAdiantamentos(ads: seq<Adiantamento>, n: nat, f: nat, e: nat, func: nat): (r: seq<ItemFolha>)
    requires n <= |ads|
    ensures forall k | 0 <= k < |r| ::
              r[k].folha == f && r[k].evento == e && r[k].funcionario == func && r[k].provento == ADIANTAMENTO
              && r[k].base.None? && r[k].origem.Some? && r[k].origem.value < n
              && Pendente(ads[r[k].origem.value], func) && r[k].valor == ads[r[k].origem.value].valor
  {
    if n == 0 then []
    else
      ItensAdiantamentos(ads, n - 1, f, e, func)
      + (if Pendente(ads[n - 1], func) then [ItemFolha(e, f, func, ADIANTAMENTO, ads[n - 1].valor, None, Some(n - 1))] else [])
  }

  /** The advances after `_lancar_adiantamentos`: the employee's pending ones become deducted. */
  function Deduzir(ads: seq<Adiantamento>, func: nat): (r: seq<Adiantamento>)
    ensures |r| == |ads|
    ensures forall i {:trigger r[i]} | 0 <= i < |ads| ::
              r[i] == (if Pendente(ads[i], func) then ads[i].(status := Descontado) else ads[i])
  {
    seq(|ads|, i requires 0 <= i < |ads| => if Pendente(ads[i], func) then ads[i].(status := Descontado) else ads[i])
  }

  /** Number of items linked to advance a. */
  function ContaOrigem(itens: seq<ItemFolha>, a: nat): nat {
    if itens == [] then 0
    else ContaOrigem(itens[..|itens| - 1], a) + (if itens[|itens| - 1].origem == Some(a) then 1 else 0)
  }

  lemma {:induction false} ContaOrigemConcat(a: seq<ItemFolha>, b: seq<ItemFolha>, x: nat)
    ensures ContaOrigem(a + b, x) == ContaOrigem(a, x) + ContaOrigem(b, x)
    decreases |b|
  {
    if b == [] {
      assert a + b == a;
    } else {
      assert (a + b)[..|a + b| - 1] == a + b[..|b| - 1];
      ContaOrigemConcat(a, b[..|b| - 1], x);
    }
  }

  lemma {:induction false} ContaOrigemZero(itens: seq<ItemFolha>, x: nat)
    requires forall k | 0 <= k < |itens| :: itens[k].origem != Some(x)
    ensures ContaOrigem(itens, x) == 0
  {
    if itens != [] {
      ContaOrigemZero(itens[..|itens| - 1], x);
    }
  }

  /** Traceability of deductions: an item linked to an advance points at an existing advance that is
      deducted, and no two items are linked to the same advance. */
  predicate Rastreabilidade(itens: seq<ItemFolha>, ads: seq<Adiantamento>) {
    (forall k | 0 <= k < |itens| && itens[k].origem.Some? ::
       itens[k].origem.value < |ads| && ads[itens[k].origem.value].status == Descontado)
    && (forall k, l | 0 <= k < l < |itens| && itens[k].origem.Some? :: itens[k].origem != itens[l].origem)
  }

  /** Under traceability each advance has at most one item, and an advance that is not deducted has none. */
  lemma {:induction false} RastreabilidadeConta(itens: seq<ItemFolha>, ads: seq<Adiantamento>, x: nat)
    requires Rastreabilidade(itens, ads)
    ensures ContaOrigem(itens, x) <= 1
    ensures x < |ads| && ads[x].status != Descontado ==> ContaOrigem(itens, x) == 0
  {
    if itens != [] {
      var pre := itens[..|itens| - 1];
      assert Rastreabilidade(pre, ads);
      RastreabilidadeConta(pre, ads, x);
      if itens[|itens| - 1].origem == Some(x) {
        ContaOrigemZero(pre, x);
      }
    }
  }

  /** Posting a debit for a pending advance and marking it deducted keeps traceability. */
  lemma RastreabilidadeDeduzir(itens: seq<ItemFolha>, ads: seq<Adiantamento>, it: ItemFolha, a: nat)
    requires Rastreabilidade(itens, ads)
    requires a < |ads| && ads[a].status == StatusAdiantamento.Pendente && it.origem == Some(a)
    ensures Rastreabilidade(itens + [it], ads[a := ads[a].(status := Descontado)])
  {
  }

  /** Posting an item with no advance behind it keeps traceability. */
  lemma RastreabilidadeSemOrigem(itens: seq<ItemFolha>, ads: seq<Adiantamento>, novos: seq<ItemFolha>)
    requires Rastreabilidade(itens, ads)
    requires forall k | 0 <= k < |novos| :: novos[k].origem.None?
    ensures Rastreabilidade(itens + novos, ads)
  {
  }

  /** Recording new advances keeps traceability. */
  lemma RastreabilidadeNovos(itens: seq<ItemFolha>, ads: seq<Adiantamento>, novos: seq<Adiantamento>)
    requires Rastreabilidade(itens, ads)
    ensures Rastreabilidade(itens, ads + novos)
  {
  }

  /** Deleting an item keeps traceability. */
  lemma RastreabilidadeRemover(itens: seq<ItemFolha>, ads: seq<Adiantamento>, k: nat)
    requires Rastreabilidade(itens, ads) && k < |itens|
    ensures Rastreabilidade(itens[..k] + itens[k + 1..], ads)
  {
    var r := itens[..k] + itens[k + 1..];
    forall i, j | 0 <= i < j < |r| && r[i].origem.Some? ensures r[i].origem != r[j].origem {
      var i', j' := if i < k then i else i + 1, if j < k then j else j + 1;
      assert r[i] == itens[i'] && r[j] == itens[j'];
    }
  }

  /** Among the items posted for the first n advances, advance x has one item if it was pending for
      the employee, and none otherwise. */
  lemma {:induction false} ContaOrigemAdiantamentos(ads: seq<Adiantamento>, n: nat, f: nat, e: nat, func: nat, x: nat)
    requires n <= |ads|
    ensures ContaOrigem(ItensAdiantamentos(ads, n, f, e, func), x) == (if x < n && Pendente(ads[x], func) then 1 else 0)
  {
    if n > 0 {
      var antes := ItensAdiantamentos(ads, n - 1, f, e, func);
      var novo: seq<ItemFolha> := if Pendente(ads[n - 1], func) then [ItemFolha(e, f, func, ADIANTAMENTO, ads[n - 1].valor, None, Some(n - 1))] else [];
      ContaOrigemAdiantamentos(ads, n - 1, f, e, func, x);
      ContaOrigemConcat(antes, novo, x);
      assert novo == [] || novo[..0] == [];
    }
  }

  /** After `_lancar_adiantamentos`, every advance of the employee that was pending is deducted and
      has exactly one debit item linked to it. */
  lemma UmItemPorAdiantamento(itens: seq<ItemFolha>, ads: seq<Adiantamento>, f: nat, e: nat, func: nat, x: nat)
    requires Rastreabilidade(itens, ads)
    requires x < |ads| && Pendente(ads[x], func)
    ensures ContaOrigem(itens + ItensAdiantamentos(ads, |ads|, f, e, func), x) == 1
    ensures Deduzir(ads, func)[x].status == Descontado
  {
    RastreabilidadeConta(itens, ads, x);
    ContaOrigemAdiantamentos(ads, |ads|, f, e, func, x);
    ContaOrigemConcat(itens, ItensAdiantamentos(ads, |ads|, f, e, func), x);
  }

  /** Once deducted, the employee has no pending advance: a second run posts nothing. */
  lemma {:induction false} SegundaDeducaoVazia(ads: seq<Adiantamento>, n: nat, f: nat, e: nat, func: nat)
    requires n <= |ads|
    ensures ItensAdiantamentos(Deduzir(ads, func), n, f, e, func) == []
    ensures Deduzir(Deduzir(ads, func), func) == Deduzir(ads, func)
  {
    if n > 0 {
      SegundaDeducaoVazia(ads, n - 1, f, e, func);
    }
  }

  /** Deduction touches only the employee's pending advances. */
  lemma DeduzirPreservaOutros(ads: seq<Adiantamento>, func: nat, i: nat)
    requires i < |ads| && ads[i].funcionario != func
    ensures Deduzir(ads, func)[i] == ads[i]
  {
  }

  // ---------------------------------------------------------------- default final-payment event

  /** Everything `gerar_folha` posts for one employee: salary credit, general fixed entries,
      per-employee fixed entries, then debits for the advances pending in `ads`. */
  function PostagensFuncionario(cad: Cadastro, ads: seq<Adiantamento>, f: nat, e: nat, func: nat, mes: int, ano: int): seq<ItemFolha>
    requires GeraisValidos(cad) && FixosValidos(cad) && func < |cad.funcionarios| && 1 <= mes <= 12 && ano >= 1
  {
    [ItemSalario(cad, f, e, func)]
    + ItensGerais(cad, |cad.gerais|, f, e, func, mes, ano)
    + ItensFixos(cad, |cad.fixos|, f, e, func, mes, ano)
    + ItensAdiantamentos(ads, |ads|, f, e, func)
  }

  /** The employees of the first n attached contracts, processed in order; the advances are threaded
      through, so an employee met twice has its advances deducted only the first time. */
  function PostagensPF(cad: Cadastro, ads: seq<Adiantamento>, f: nat, e: nat, funcs: seq<nat>, n: nat, mes: int, ano: int): (r: (seq<ItemFolha>, seq<Adiantamento>))
    requires GeraisValidos(cad) && FixosValidos(cad) && n <= |funcs| && 1 <= mes <= 12 && ano >= 1
    requires forall k | 0 <= k < |funcs| :: funcs[k] < |cad.funcionarios|
    ensures |r.1| == |ads|
  {
    if n == 0 then ([], ads)
    else
      var antes := PostagensPF(cad, ads, f, e, funcs, n - 1, mes, ano);
      var func := funcs[n - 1];
      (antes.0 + PostagensFuncionario(cad, antes.1, f, e, func, mes, ano), Deduzir(antes.1, func))
  }

  /** The default event's advances keep their employees. */
  lemma {:induction false} PostagensPFFuncionarios(cad: Cadastro, ads: seq<Adiantamento>, f: nat, e: nat, funcs: seq<nat>, n: nat, mes: int, ano: int)
    requires GeraisValidos(cad) && FixosValidos(cad) && n <= |funcs| && 1 <= mes <= 12 && ano >= 1
    requires forall k | 0 <= k < |funcs| :: funcs[k] < |cad.funcionarios|
    ensures var r := PostagensPF(cad, ads, f, e, funcs, n, mes, ano).1;
            forall i | 0 <= i < |ads| :: r[i].funcionario == ads[i].funcionario
  {
    if n > 0 {
      var antes := PostagensPF(cad, ads, f, e, funcs, n - 1, mes, ano).1;
      var r := PostagensPF(cad, ads, f, e, funcs, n, mes, ano).1;
      PostagensPFFuncionarios(cad, ads, f, e, funcs, n - 1, mes, ano);
      assert r == Deduzir(antes, funcs[n - 1]);
      forall i | 0 <= i < |ads| ensures r[i].funcionario == ads[i].funcionario {
        assert r[i].funcionario == antes[i].funcionario;
      }
    }
  }

  /** Items posted to competence f and event e. */
  predicate NoEvento(r: seq<ItemFolha>, f: nat, e: nat) {
    forall k | 0 <= k < |r| :: r[k].folha == f && r[k].evento == e
  }

  lemma NoEventoConcat(a: seq<ItemFolha>, b: seq<ItemFolha>, f: nat, e: nat)
    requires NoEvento(a, f, e) && NoEvento(b, f, e)
    ensures NoEvento(a + b, f, e)
  {
    var r := a + b;
    forall k | 0 <= k < |r| ensures r[k].folha == f && r[k].evento == e {
      if k < |a| {
        assert r[k] == a[k];
      } else {
        assert r[k] == b[k - |a|];
      }
    }
  }

  /** The default event's postings belong to its competence and event. */
  lemma {:induction false} PostagensPFDoEvento(cad: Cadastro, ads: seq<Adiantamento>, f: nat, e: nat, funcs: seq<nat>, n: nat, mes: int, ano: int)
    requires GeraisValidos(cad) && FixosValidos(cad) && |cad.catalogo| >= 3 && n <= |funcs| && 1 <= mes <= 12 && ano >= 1
    requires forall k | 0 <= k < |funcs| :: funcs[k] < |cad.funcionarios|
    ensures NoEvento(PostagensPF(cad, ads, f, e, funcs, n, mes, ano).0, f, e)
  {
    if n > 0 {
      var antes := PostagensPF(cad, ads, f, e, funcs, n - 1, mes, ano);
      var novos := PostagensFuncionario(cad, antes.1, f, e, funcs[n - 1], mes, ano);
      PostagensPFDoEvento(cad, ads, f, e, funcs, n - 1, mes, ano);
      PostagensDoFuncionario(cad, antes.1, f, e, funcs[n - 1], mes, ano);
      assert NoEvento(novos, f, e);
      NoEventoConcat(antes.0, novos, f, e);
      PostagensPFPasso(cad, ads, f, e, funcs, n - 1, mes, ano);
    }
  }

  /** One more contract's employee extends the postings and deducts that employee's advances. */
  lemma PostagensPFPasso(cad: Cadastro, ads: seq<Adiantamento>, f: nat, e: nat, funcs: seq<nat>, i: nat, mes: int, ano: int)
    requires GeraisValidos(cad) && FixosValidos(cad) && i < |funcs| && 1 <= mes <= 12 && ano >= 1
    requires forall k | 0 <= k < |funcs| :: funcs[k] < |cad.funcionarios|
    ensures var antes := PostagensPF(cad, ads, f, e, funcs, i, mes, ano);
            PostagensPF(cad, ads, f, e, funcs, i + 1, mes, ano)
            == (antes.0 + PostagensFuncionario(cad, antes.1, f, e, funcs[i], mes, ano), Deduzir(antes.1, funcs[i]))
  {
  }

  /** Everything posted for one employee belongs to that employee, competence and event. */
  lemma PostagensDoFuncionario(cad: Cadastro, ads: seq<Adiantamento>, f: nat, e: nat, func: nat, mes: int, ano: int)
    requires GeraisValidos(cad) && FixosValidos(cad) && |cad.catalogo| >= 3 && func < |cad.funcionarios| && 1 <= mes <= 12 && ano >= 1
    ensures var r := PostagensFuncionario(cad, ads, f, e, func, mes, ano);
            forall k | 0 <= k < |r| ::
              r[k].folha == f && r[k].evento == e && r[k].funcionario == func && r[k].provento < |cad.catalogo|
  {
    var g := ItensGerais(cad, |cad.gerais|, f, e, func, mes, ano);
    var x := ItensFixos(cad, |cad.fixos|, f, e, func, mes, ano);
    var a := ItensAdiantamentos(ads, |ads|, f, e, func);
    var r := PostagensFuncionario(cad, ads, f, e, func, mes, ano);
    forall k | 0 <= k < |r| ensures r[k].folha == f && r[k].evento == e && r[k].funcionario == func && r[k].provento < |cad.catalogo| {
      if k == 0 {
      } else if k < 1 + |g| {
        assert r[k] == g[k - 1];
      } else if k < 1 + |g| + |x| {
        assert r[k] == x[k - 1 - |g|];
      } else {
        assert r[k] == a[k - 1 - |g| - |x|];
      }
    }
  }

  /** Items that name an existing employee and component. */
  predicate DoCadastro(cad: Cadastro, r: seq<ItemFolha>) {
    forall k | 0 <= k < |r| :: r[k].funcionario < |cad.funcionarios| && r[k].provento < |cad.catalogo|
  }

  lemma DoCadastroConcat(cad: Cadastro, a: seq<ItemFolha>, b: seq<ItemFolha>)
    requires DoCadastro(cad, a) && DoCadastro(cad, b)
    ensures DoCadastro(cad, a + b)
  {
    var r := a + b;
    forall k | 0 <= k < |r| ensures r[k].funcionario < |cad.funcionarios| && r[k].provento < |cad.catalogo| {
      if k < |a| {
        assert r[k] == a[k];
      } else {
        assert r[k] == b[k - |a|];
      }
    }
  }

  /** Everything the default event posts names an existing employee and component. */
  lemma {:induction false} PostagensPFValidas(cad: Cadastro, ads: seq<Adiantamento>, f: nat, e: nat, funcs: seq<nat>, n: nat, mes: int, ano: int)
    requires GeraisValidos(cad) && FixosValidos(cad) && |cad.catalogo| >= 3 && n <= |funcs| && 1 <= mes <= 12 && ano >= 1
    requires forall j | 0 <= j < |funcs| :: funcs[j] < |cad.funcionarios|
    ensures DoCadastro(cad, PostagensPF(cad, ads, f, e, funcs, n, mes, ano).0)
  {
    if n > 0 {
      var antes := PostagensPF(cad, ads, f, e, funcs, n - 1, mes, ano);
      var novos := PostagensFuncionario(cad, antes.1, f, e, funcs[n - 1], mes, ano);
      PostagensPFValidas(cad, ads, f, e, funcs, n - 1, mes, ano);
      PostagensDoFuncionario(cad, antes.1, f, e, funcs[n - 1], mes, ano);
      assert DoCadastro(cad, novos);
      DoCadastroConcat(cad, antes.0, novos);
      PostagensPFPasso(cad, ads, f, e, funcs, n - 1, mes, ano);
    }
  }

  /** After the default event, an employee met in the loop has no pending advance left. */
  lemma {:induction false} PFDeduzTudo(cad: Cadastro, ads: seq<Adiantamento>, f: nat, e: nat, funcs: seq<nat>, n: nat, mes: int, ano: int, i: nat, k: nat)
    requires GeraisValidos(cad) && FixosValidos(cad) && n <= |funcs| && 1 <= mes <= 12 && ano >= 1
    requires forall j | 0 <= j < |funcs| :: funcs[j] < |cad.funcionarios|
    requires k < n && i < |ads|
    ensures !Pendente(PostagensPF(cad, ads, f, e, funcs, n, mes, ano).1[i], funcs[k])
  {
    var antes := PostagensPF(cad, ads, f, e, funcs, n - 1, mes, ano);
    if k < n - 1 {
      PFDeduzTudo(cad, ads, f, e, funcs, n - 1, mes, ano, i, k);
    }
  }

  /** The sweep of pending advances that closing a final-payment event runs first: the advances of
      the employees of the first n attached contracts, in order. */
  function Varredura(ads: seq<Adiantamento>, f: nat, e: nat, funcs: seq<nat>, n: nat): (r: (seq<ItemFolha>, seq<Adiantamento>))
    requires n <= |funcs|
    ensures |r.1| == |ads| && forall i {:trigger r.1[i]} | 0 <= i < |ads| :: r.1[i].funcionario == ads[i].funcionario
    ensures forall k | 0 <= k < |r.0| ::
              r.0[k].folha == f && r.0[k].evento == e && r.0[k].origem.Some? && r.0[k].provento == ADIANTAMENTO
              && r.0[k].funcionario in funcs[..n]
  {
    if n == 0 then ([], ads)
    else
      var antes := Varredura(ads, f, e, funcs, n - 1);
      (antes.0 + ItensAdiantamentos(antes.1, |antes.1|, f, e, funcs[n - 1]), Deduzir(antes.1, funcs[n - 1]))
  }

  /** After the sweep, no employee of the first n attached contracts has a pending advance. */
  lemma {:induction false} VarreduraDeduzTudo(ads: seq<Adiantamento>, f: nat, e: nat, funcs: seq<nat>, n: nat, i: nat, k: nat)
    requires n <= |funcs| && k < n && i < |ads|
    ensures !Pendente(Varredura(ads, f, e, funcs, n).1[i], funcs[k])
  {
    if k < n - 1 {
      VarreduraDeduzTudo(ads, f, e, funcs, n - 1, i, k);
    }
  }

  /** One more contract's employee extends the sweep by that employee's debits and deductions. */
  lemma VarreduraPasso(ads: seq<Adiantamento>, f: nat, e: nat, funcs: seq<nat>, i: nat)
    requires i < |funcs|
    ensures var antes := Varredura(ads, f, e, funcs, i);
            Varredura(ads, f, e, funcs, i + 1)
            == (antes.0 + ItensAdiantamentos(antes.1, |antes.1|, f, e, funcs[i]), Deduzir(antes.1, funcs[i]))
  {
  }

  /** Everything the sweep posts names an existing employee and component. */
  lemma VarreduraValida(cad: Cadastro, ads: seq<Adiantamento>, f: nat, e: nat, funcs: seq<nat>)
    requires |cad.catalogo| >= 3
    requires forall j | 0 <= j < |funcs| :: funcs[j] < |cad.funcionarios|
    ensures var r := Varredura(ads, f, e, funcs, |funcs|).0;
            forall k | 0 <= k < |r| :: r[k].funcionario < |cad.funcionarios| && r[k].provento < |cad.catalogo|
  {
    var r := Varredura(ads, f, e, funcs, |funcs|).0;
    forall k | 0 <= k < |r| ensures r[k].funcionario < |cad.funcionarios| {
      assert funcs[..|funcs|] == funcs;
    }
  }

  /** One pending advance of the only attached employee: the sweep posts its debit, whatever the
      event's status. */
  lemma VarreduraPostaDebito()
    ensures var ads := [NovoAdiantamento(0, Date(2024, 1, 15), 13000000)];
            Varredura(ads, 0, 0, [0], 1).0 == [ItemFolha(0, 0, 0, ADIANTAMENTO, 13000000, None, Some(0))]
            && Varredura(ads, 0, 0, [0], 1).1[0].status == Descontado
  {
    var ads := [NovoAdiantamento(0, Date(2024, 1, 15), 13000000)];
    assert ItensAdiantamentos(ads, 1, 0, 0, 0) == [ItemFolha(0, 0, 0, ADIANTAMENTO, 13000000, None, Some(0))];
  }

  // ---------------------------------------------------------------- other events

  /** The primary keys 0 .. n-1, in order. */
  function Todos(n: nat): (r: seq<nat>)
    ensures |r| == n && forall i | 0 <= i < n :: r[i] == i
  {
    seq(n, i requires 0 <= i < n => i)
  }

  /** `criar_evento_pagamento` with processing: one salary credit per attached contract, in order. */
  function ItensSalario(cad: Cadastro, f: nat, e: nat, contratos: seq<nat>, n: nat): (r: seq<ItemFolha>)
    requires ContratosValidos(cad) && n <= |contratos|
    requires forall k | 0 <= k < |contratos| :: contratos[k] < |cad.contratos|
    ensures |r| == n
    ensures forall k {:trigger r[k]} | 0 <= k < n ::
              r[k] == ItemSalario(cad, f, e, cad.contratos[contratos[k]].funcionario)
  {
    if n == 0 then [] else ItensSalario(cad, f, e, contratos, n - 1) + [ItemSalario(cad, f, e, cad.contratos[contratos[n - 1]].funcionario)]
  }

  /** `(salario_base * Decimal('0.50')).quantize(Decimal('0.01'))`: the factor is 0.50 whichever
      installment is asked for. */
  function ValorDecimo(salario: nat): (v: int)
    ensures v % CENTAVO == 0 && -CENTAVO <= 2 * (v - Reais(salario) / 2) <= CENTAVO
  {
    Quantizar(Fator(salario, 50))
  }

  /** `criar_evento_decimo_terceiro`: one SALARIO_13 credit per attached contract, in order. */
  function ItensDecimo(cad: Cadastro, f: nat, e: nat, contratos: seq<nat>, n: nat): (r: seq<ItemFolha>)
    requires ContratosValidos(cad) && n <= |contratos|
    requires forall k | 0 <= k < |contratos| :: contratos[k] < |cad.contratos|
    ensures |r| == n
  {
    if n == 0 then []
    else
      var func := cad.contratos[contratos[n - 1]].funcionario;
      ItensDecimo(cad, f, e, contratos, n - 1) + [ItemFolha(e, f, func, SALARIO_13, ValorDecimo(cad.funcionarios[func].salarioBase), None, None)]
  }

  /** The k-th installment credit is the 13th-salary item of the k-th contract's employee. */
  lemma {:induction false} ItensDecimoPontual(cad: Cadastro, f: nat, e: nat, contratos: seq<nat>, n: nat)
    requires ContratosValidos(cad) && n <= |contratos|
    requires forall k | 0 <= k < |contratos| :: contratos[k] < |cad.contratos|
    ensures var r := ItensDecimo(cad, f, e, contratos, n);
            forall k | 0 <= k < n ::
              var func := cad.contratos[contratos[k]].funcionario;
              r[k] == ItemFolha(e, f, func, SALARIO_13, ValorDecimo(cad.funcionarios[func].salarioBase), None, None)
  {
    if n > 0 {
      ItensDecimoPontual(cad, f, e, contratos, n - 1);
      var antes := ItensDecimo(cad, f, e, contratos, n - 1);
      var r := ItensDecimo(cad, f, e, contratos, n);
      forall k | 0 <= k < n - 1 ensures r[k] == antes[k] {
      }
    }
  }

  /** The installment credits are SALARIO_13 credits of event e and competence f for existing
      employees, with no advance behind them. */
  lemma DecimosValidos(cad: Cadastro, f: nat, e: nat, contratos: seq<nat>)
    requires ContratosValidos(cad)
    requires forall k | 0 <= k < |contratos| :: contratos[k] < |cad.contratos|
    ensures var r := ItensDecimo(cad, f, e, contratos, |contratos|);
            forall k | 0 <= k < |r| ::
              r[k].evento == e && r[k].folha == f && r[k].funcionario < |cad.funcionarios|
              && r[k].provento == SALARIO_13 && r[k].origem.None?
    ensures var v := Valores(ItensDecimo(cad, f, e, contratos, |contratos|));
            forall i | 0 <= i < |v| :: v[i] % CENTAVO == 0
  {
    ItensDecimoPontual(cad, f, e, contratos, |contratos|);
  }

  /** The amounts of a list of items, in order. */
  function Valores(itens: seq<ItemFolha>): (r: seq<int>)
    ensures |r| == |itens| && forall k {:trigger r[k]} | 0 <= k < |r| :: r[k] == itens[k].valor
  {
    seq(|itens|, k requires 0 <= k < |itens| => itens[k].valor)
  }

  /** One more installment credit appends one item and adds its amount to the running sum. */
  lemma DecimosPasso(cad: Cadastro, f: nat, e: nat, contratos: seq<nat>, k: nat)
    requires ContratosValidos(cad) && k < |contratos|
    requires forall j | 0 <= j < |contratos| :: contratos[j] < |cad.contratos|
    ensures var func := cad.contratos[contratos[k]].funcionario;
            var it := ItemFolha(e, f, func, SALARIO_13, ValorDecimo(cad.funcionarios[func].salarioBase), None, None);
            ItensDecimo(cad, f, e, contratos, k + 1) == ItensDecimo(cad, f, e, contratos, k) + [it]
            && Soma(Valores(ItensDecimo(cad, f, e, contratos, k + 1))) == Soma(Valores(ItensDecimo(cad, f, e, contratos, k))) + it.valor
  {
    var func := cad.contratos[contratos[k]].funcionario;
    var it := ItemFolha(e, f, func, SALARIO_13, ValorDecimo(cad.funcionarios[func].salarioBase), None, None);
    var antes := ItensDecimo(cad, f, e, contratos, k);
    assert Valores(antes + [it]) == Valores(antes) + [it.valor];
    SomaAnexar(Valores(antes), it.valor);
  }

  /** In an event holding only credits, the net is the plain sum of the amounts. */
  lemma {:induction false} LiquidoDeCreditos(itens: seq<ItemFolha>, catalogo: seq<ProventoDesconto>, e: nat)
    requires forall k | 0 <= k < |itens| ::
               itens[k].evento == e && itens[k].provento < |catalogo| && catalogo[itens[k].provento].tipo == Provento
    ensures Liquido(itens, catalogo, DoEvento(e)) == Soma(Valores(itens))
  {
    if itens != [] {
      var pre := itens[..|itens| - 1];
      LiquidoDeCreditos(pre, catalogo, e);
      assert Valores(itens)[..|itens| - 1] == Valores(pre);
    }
  }

  /** A new event holding only credits: its net over the whole store is the sum of its amounts. */
  lemma LiquidoDoNovoEvento(antes: seq<ItemFolha>, novos: seq<ItemFolha>, catalogo: seq<ProventoDesconto>, e: nat)
    requires forall k | 0 <= k < |antes| :: antes[k].evento != e
    requires forall k | 0 <= k < |novos| ::
               novos[k].evento == e && novos[k].provento < |catalogo| && catalogo[novos[k].provento].tipo == Provento
    ensures Liquido(antes + novos, catalogo, DoEvento(e)) == Soma(Valores(novos))
  {
    TotalConcat(antes, novos, catalogo, DoEvento(e), Provento);
    TotalConcat(antes, novos, catalogo, DoEvento(e), Desconto);
    TotalForaDoEscopo(antes, catalogo, DoEvento(e), Provento);
    TotalForaDoEscopo(antes, catalogo, DoEvento(e), Desconto);
    LiquidoDeCreditos(novos, catalogo, e);
  }

  /** The amount of one bulk advance: `valor` when truthy, else salary times percentage over 100;
      `arredondar` applies the quantize of the event-creating service. */
  function ValorAdiantamento(valor: Option<int>, percentual: Option<int>, salario: nat, arredondar: bool): (v: int)
    ensures Truthy(valor) ==> v == Reais(valor.value)
    ensures !Truthy(valor) && !arredondar ==> v * 10000 == Reais(salario) * percentual.GetOr(0)
    ensures !Truthy(valor) && arredondar ==>
              -CENTAVO * 10000 <= (v * 10000 - Reais(salario) * percentual.GetOr(0)) * 2 <= CENTAVO * 10000
    ensures arredondar ==> v % CENTAVO == 0
  {
    var bruto := if Truthy(valor) then Reais(valor.value) else Porcentagem(salario, percentual.GetOr(0));
    if arredondar then
      if Truthy(valor) then QuantizarExato(bruto); Quantizar(bruto) else Quantizar(bruto)
    else bruto
  }

  /** The advances a bulk run records, one pending advance per selected employee, in order. */
  function NovosAdiantamentos(cad: Cadastro, selecionados: seq<nat>, data: Data, valor: Option<int>, percentual: Option<int>, arredondar: bool): (r: seq<Adiantamento>)
    requires forall k | 0 <= k < |selecionados| :: selecionados[k] < |cad.funcionarios|
    ensures |r| == |selecionados|
    ensures forall k {:trigger r[k]} | 0 <= k < |r| ::
              r[k] == NovoAdiantamento(selecionados[k], data,
                         ValorAdiantamento(valor, percentual, cad.funcionarios[selecionados[k]].salarioBase, arredondar))
  {
    seq(|selecionados|, k requires 0 <= k < |selecionados| =>
      NovoAdiantamento(selecionados[k], data, ValorAdiantamento(valor, percentual, cad.funcionarios[selecionados[k]].salarioBase, arredondar)))
  }

  function ValoresAdiantamentos(ads: seq<Adiantamento>): (r: seq<int>)
    ensures |r| == |ads| && forall k {:trigger r[k]} | 0 <= k < |r| :: r[k] == ads[k].valor
  {
    seq(|ads|, k requires 0 <= k < |ads| => ads[k].valor)
  }

  /** One more selected employee appends one advance and adds its amount to the running sum. */
  lemma NovosAdiantamentosPasso(cad: Cadastro, selecionados: seq<nat>, k: nat, data: Data, valor: Option<int>, percentual: Option<int>, arredondar: bool)
    requires k < |selecionados| && forall j | 0 <= j < |selecionados| :: selecionados[j] < |cad.funcionarios|
    ensures var a := NovoAdiantamento(selecionados[k], data,
                       ValorAdiantamento(valor, percentual, cad.funcionarios[selecionados[k]].salarioBase, arredondar));
            var antes := NovosAdiantamentos(cad, selecionados[..k], data, valor, percentual, arredondar);
            var depois := NovosAdiantamentos(cad, selecionados[..k + 1], data, valor, percentual, arredondar);
            depois == antes + [a] && Soma(ValoresAdiantamentos(depois)) == Soma(ValoresAdiantamentos(antes)) + a.valor
  {
    var a := NovoAdiantamento(selecionados[k], data,
               ValorAdiantamento(valor, percentual, cad.funcionarios[selecionados[k]].salarioBase, arredondar));
    var antes := NovosAdiantamentos(cad, selecionados[..k], data, valor, percentual, arredondar);
    var depois := NovosAdiantamentos(cad, selecionados[..k + 1], data, valor, percentual, arredondar);
    assert depois == antes + [a];
    assert ValoresAdiantamentos(antes + [a]) == ValoresAdiantamentos(antes) + [a.valor];
    SomaAnexar(ValoresAdiantamentos(antes), a.valor);
  }

  /** The bulk event's total, the quantized sum of the quantized amounts, is their exact sum. */
  lemma TotalMassivoExato(cad: Cadastro, selecionados: seq<nat>, data: Data, valor: Option<int>, percentual: Option<int>)
    requires forall k | 0 <= k < |selecionados| :: selecionados[k] < |cad.funcionarios|
    ensures var vs := ValoresAdiantamentos(NovosAdiantamentos(cad, selecionados, data, valor, percentual, true));
            Quantizar(Soma(vs)) == Soma(vs)
  {
    QuantizarSomaDeQuantizados(ValoresAdiantamentos(NovosAdiantamentos(cad, selecionados, data, valor, percentual, true)));
  }

  /** The employees of the given contracts, in contract order, repeats kept. */
  function FuncionariosDe(cad: Cadastro, contratos: seq<nat>): (r: seq<nat>)
    requires ContratosValidos(cad)
    requires forall k | 0 <= k < |contratos| :: contratos[k] < |cad.contratos|
    ensures |r| == |contratos|
    ensures forall k {:trigger r[k]} | 0 <= k < |r| :: r[k] == cad.contratos[contratos[k]].funcionario && r[k] < |cad.funcionarios|
  {
    seq(|contratos|, k requires 0 <= k < |contratos| => cad.contratos[contratos[k]].funcionario)
  }

  /** The employees among the first n, in primary-key order, that are in `entre` and pass `filtro`. */
  function Filtrar(cad: Cadastro, entre: seq<nat>, filtro: Funcionario -> bool, n: nat): (r: seq<nat>)
    requires n <= |cad.funcionarios|
    ensures forall k | 0 <= k < |r| :: r[k] < n && r[k] in entre && filtro(cad.funcionarios[r[k]])
    ensures forall k, l | 0 <= k < l < |r| :: r[k] < r[l]
    ensures forall i | 0 <= i < n && i in entre && filtro(cad.funcionarios[i]) :: i in r
  {
    if n == 0 then []
    else
      Filtrar(cad, entre, filtro, n - 1)
      + (if n - 1 in entre && filtro(cad.funcionarios[n - 1]) then [n - 1] else [])
  }

  /** The employees a bulk advance event covers: with no filter, the employee of every attached
      contract, repeats kept; with a filter, the distinct employees among them that pass it. */
  function SelecionadosMassivo(cad: Cadastro, contratos: seq<nat>, filtro: Option<Funcionario -> bool>): (r: seq<nat>)
    requires ContratosValidos(cad)
    requires forall k | 0 <= k < |contratos| :: contratos[k] < |cad.contratos|
    ensures forall k | 0 <= k < |r| :: r[k] < |cad.funcionarios|
    ensures filtro.None? ==> r == FuncionariosDe(cad, contratos)
    ensures filtro.Some? ==> forall i :: i in r <==> i in FuncionariosDe(cad, contratos) && filtro.value(cad.funcionarios[i])
  {
    if filtro.None? then FuncionariosDe(cad, contratos)
    else Filtrar(cad, FuncionariosDe(cad, contratos), filtro.value, |cad.funcionarios|)
  }
}
