/** The payroll store and the operations of folha/services.py (FolhaService, AdiantamentoService),
    together with the model methods of folha/models.py that change stored rows. Each table is a
    sequence indexed by primary key; the summaries are keyed by (competence, employee). Every
    operation either fails leaving the store as it was (the services run in a transaction), or
    returns the new state described by the functions of the Lancamentos and FolhaModels modules.
    The exception is `FecharEventoPagamentoFinal`, the closing view of folha/views.py, which runs
    outside a transaction: as written it can fail after its sweep has posted debits and deducted
    advances. */
module FolhaServices {
  import opened Base
  import opened Datas
  import opened Dinheiro
  import opened Core
  import opened Funcionarios
  import opened FolhaModels
  import opened Lancamentos

  /** Competences: valid month and year (a year `datetime.date` can represent), attached contracts
      that exist, a closing instant consistent with the status, and at most one competence per month
      and year. */
  predicate FolhasValidas(folhas: seq<FolhaPagamento>, nContratos: nat) {
    (forall i | 0 <= i < |folhas| ::
       1 <= folhas[i].mes <= 12 && 2000 <= folhas[i].ano <= 9999 && FechamentoConsistente(folhas[i])
       && forall k | 0 <= k < |folhas[i].contratosAtivos| :: folhas[i].contratosAtivos[k] < nContratos)
    && (forall i, j | 0 <= i < j < |folhas| :: folhas[i].mes != folhas[j].mes || folhas[i].ano != folhas[j].ano)
  }

  /** Events: an existing competence, a date inside it, and descriptions unique per competence. */
  predicate EventosValidos(eventos: seq<EventoPagamento>, folhas: seq<FolhaPagamento>) {
    (forall i | 0 <= i < |eventos| ::
       eventos[i].folha < |folhas|
       && eventos[i].data.mes == folhas[eventos[i].folha].mes && eventos[i].data.ano == folhas[eventos[i].folha].ano)
    && (forall i, j | 0 <= i < j < |eventos| && eventos[i].folha == eventos[j].folha :: eventos[i].descricao != eventos[j].descricao)
  }

  /** Items: an existing event whose competence is the item's, an existing employee and component. */
  predicate ItensValidos(itens: seq<ItemFolha>, eventos: seq<EventoPagamento>, cad: Cadastro) {
    forall k | 0 <= k < |itens| ::
      itens[k].evento < |eventos| && itens[k].folha == eventos[itens[k].evento].folha
      && itens[k].funcionario < |cad.funcionarios| && itens[k].provento < |cad.catalogo|
  }

  /** `e` comes first in `EventoPagamento`'s ordering (by date; equal dates by primary key). */
  predicate AntesNaOrdem(eventos: seq<EventoPagamento>, e: nat, j: nat)
    requires e < |eventos| && j < |eventos|
  {
    Menor(eventos[e].data, eventos[j].data) || (eventos[e].data == eventos[j].data && e <= j)
  }

  predicate EhPFDa(eventos: seq<EventoPagamento>, j: int, f: nat) {
    0 <= j < |eventos| && eventos[j].folha == f && eventos[j].tipo == PF
  }

  /** p is the final-payment event of competence f that `first()` returns: no other one comes
      before it in the events' order. */
  predicate PrimeiroPF(eventos: seq<EventoPagamento>, f: nat, p: nat) {
    EhPFDa(eventos, p, f)
    && forall j | 0 <= j < |eventos| && EhPFDa(eventos, j, f) :: AntesNaOrdem(eventos, p, j)
  }

  /** The order of `first()` on a competence's events is total: two events that each come first are
      the same event. */
  lemma PrimeiroPFUnico(eventos: seq<EventoPagamento>, f: nat, a: nat, b: nat)
    requires PrimeiroPF(eventos, f, a) && PrimeiroPF(eventos, f, b)
    ensures a == b
  {
    assert AntesNaOrdem(eventos, a, b) && AntesNaOrdem(eventos, b, a);
  }

  /** The store's invariant: every foreign key resolves, the validations of the stored rows hold, and
      deductions are traceable. */
  predicate Consistente(cad: Cadastro, ads: seq<Adiantamento>, folhas: seq<FolhaPagamento>,
                        eventos: seq<EventoPagamento>, itens: seq<ItemFolha>) {
    CadastroValido(cad)
    && (forall i | 0 <= i < |ads| :: ads[i].funcionario < |cad.funcionarios|)
    && FolhasValidas(folhas, |cad.contratos|)
    && EventosValidos(eventos, folhas)
    && ItensValidos(itens, eventos, cad)
    && Rastreabilidade(itens, ads)
  }

  /** Posting items of an existing event, for existing employees and components and with no advance
      behind them, keeps the store consistent. */
  lemma AnexarItens(cad: Cadastro, ads: seq<Adiantamento>, folhas: seq<FolhaPagamento>,
                    eventos: seq<EventoPagamento>, itens: seq<ItemFolha>, novos: seq<ItemFolha>)
    requires Consistente(cad, ads, folhas, eventos, itens)
    requires forall k | 0 <= k < |novos| ::
               novos[k].evento < |eventos| && novos[k].folha == eventos[novos[k].evento].folha
               && novos[k].funcionario < |cad.funcionarios| && novos[k].provento < |cad.catalogo| && novos[k].origem.None?
    ensures Consistente(cad, ads, folhas, eventos, itens + novos)
  {
    RastreabilidadeSemOrigem(itens, ads, novos);
  }

  /** The same when the new items deduct advances: the advances keep their employees and the
      deductions stay traceable. */
  lemma AnexarDebitos(cad: Cadastro, ads: seq<Adiantamento>, ads2: seq<Adiantamento>, folhas: seq<FolhaPagamento>,
                      eventos: seq<EventoPagamento>, itens: seq<ItemFolha>, novos: seq<ItemFolha>)
    requires Consistente(cad, ads, folhas, eventos, itens)
    requires |ads2| == |ads| && forall i | 0 <= i < |ads| :: ads2[i].funcionario == ads[i].funcionario
    requires forall k | 0 <= k < |novos| ::
               novos[k].evento < |eventos| && novos[k].folha == eventos[novos[k].evento].folha
               && novos[k].funcionario < |cad.funcionarios| && novos[k].provento < |cad.catalogo|
    requires Rastreabilidade(itens + novos, ads2)
    ensures Consistente(cad, ads2, folhas, eventos, itens + novos)
  {
  }

  /** Recording new advances of existing employees keeps the store consistent. */
  lemma AnexarAdiantamentos(cad: Cadastro, ads: seq<Adiantamento>, folhas: seq<FolhaPagamento>,
                            eventos: seq<EventoPagamento>, itens: seq<ItemFolha>, novos: seq<Adiantamento>)
    requires Consistente(cad, ads, folhas, eventos, itens)
    requires forall k | 0 <= k < |novos| :: novos[k].funcionario < |cad.funcionarios|
    ensures Consistente(cad, ads + novos, folhas, eventos, itens)
  {
    RastreabilidadeNovos(itens, ads, novos);
  }

  /** A new competence, validated and with existing contracts, keeps the store consistent. */
  lemma AnexarFolha(cad: Cadastro, ads: seq<Adiantamento>, folhas: seq<FolhaPagamento>,
                    eventos: seq<EventoPagamento>, itens: seq<ItemFolha>, fp: FolhaPagamento)
    requires Consistente(cad, ads, folhas, eventos, itens)
    requires 1 <= fp.mes <= 12 && 2000 <= fp.ano <= 9999 && FechamentoConsistente(fp)
    requires forall k | 0 <= k < |fp.contratosAtivos| :: fp.contratosAtivos[k] < |cad.contratos|
    requires forall j | 0 <= j < |folhas| :: folhas[j].mes != fp.mes || folhas[j].ano != fp.ano
    ensures Consistente(cad, ads, folhas + [fp], eventos, itens)
  {
    var fs := folhas + [fp];
    forall i | 0 <= i < |eventos|
      ensures eventos[i].data.mes == fs[eventos[i].folha].mes && eventos[i].data.ano == fs[eventos[i].folha].ano
    {
      assert fs[eventos[i].folha] == folhas[eventos[i].folha];
    }
  }

  /** A competence whose month, year and contracts stay put, with a consistent closing instant,
      keeps the store consistent. */
  lemma AtualizarFolha(cad: Cadastro, ads: seq<Adiantamento>, folhas: seq<FolhaPagamento>,
                       eventos: seq<EventoPagamento>, itens: seq<ItemFolha>, f: nat, fp: FolhaPagamento)
    requires Consistente(cad, ads, folhas, eventos, itens) && f < |folhas|
    requires fp.mes == folhas[f].mes && fp.ano == folhas[f].ano && fp.contratosAtivos == folhas[f].contratosAtivos
    requires FechamentoConsistente(fp)
    ensures Consistente(cad, ads, folhas[f := fp], eventos, itens)
  {
  }

  /** A new event of an existing competence, dated inside it and with a fresh description, keeps the
      store consistent. */
  lemma AnexarEvento(cad: Cadastro, ads: seq<Adiantamento>, folhas: seq<FolhaPagamento>,
                     eventos: seq<EventoPagamento>, itens: seq<ItemFolha>, ev: EventoPagamento)
    requires Consistente(cad, ads, folhas, eventos, itens)
    requires ev.folha < |folhas| && ev.data.mes == folhas[ev.folha].mes && ev.data.ano == folhas[ev.folha].ano
    requires forall j | 0 <= j < |eventos| && eventos[j].folha == ev.folha :: eventos[j].descricao != ev.descricao
    ensures Consistente(cad, ads, folhas, eventos + [ev], itens)
  {
    var es := eventos + [ev];
    forall k | 0 <= k < |itens|
      ensures itens[k].evento < |es| && itens[k].folha == es[itens[k].evento].folha
    {
      assert es[itens[k].evento] == eventos[itens[k].evento];
    }
  }

  /** An event whose competence, date and description stay put keeps the store consistent. */
  lemma AtualizarEvento(cad: Cadastro, ads: seq<Adiantamento>, folhas: seq<FolhaPagamento>,
                        eventos: seq<EventoPagamento>, itens: seq<ItemFolha>, e: nat, ev: EventoPagamento)
    requires Consistente(cad, ads, folhas, eventos, itens) && e < |eventos|
    requires ev.folha == eventos[e].folha && ev.data == eventos[e].data && ev.descricao == eventos[e].descricao
    ensures Consistente(cad, ads, folhas, eventos[e := ev], itens)
  {
  }

  /** Deleting an item keeps the store consistent. */
  lemma RemoverDoConsistente(cad: Cadastro, ads: seq<Adiantamento>, folhas: seq<FolhaPagamento>,
                             eventos: seq<EventoPagamento>, itens: seq<ItemFolha>, k: nat)
    requires Consistente(cad, ads, folhas, eventos, itens) && k < |itens|
    ensures Consistente(cad, ads, folhas, eventos, itens[..k] + itens[k + 1..])
  {
    RastreabilidadeRemover(itens, ads, k);
    var r := itens[..k] + itens[k + 1..];
    forall j | 0 <= j < |r|
      ensures r[j].evento < |eventos| && r[j].folha == eventos[r[j].evento].folha
              && r[j].funcionario < |cad.funcionarios| && r[j].provento < |cad.catalogo|
    {
      assert r[j] == if j < k then itens[j] else itens[j + 1];
    }
  }

  /** Items of the events before e lie outside e's scope. */
  lemma ForaDoNovoEvento(itens: seq<ItemFolha>, catalogo: seq<ProventoDesconto>, e: nat)
    requires forall k | 0 <= k < |itens| :: itens[k].evento < e
    ensures Liquido(itens, catalogo, DoEvento(e)) == 0
  {
    TotalForaDoEscopo(itens, catalogo, DoEvento(e), Provento);
    TotalForaDoEscopo(itens, catalogo, DoEvento(e), Desconto);
  }

  /** When a competence's items before its only event belong to other competences and events, its
      net is that event's net. */
  lemma LiquidoDoEventoUnico(antes: seq<ItemFolha>, novos: seq<ItemFolha>, catalogo: seq<ProventoDesconto>, f: nat, e: nat)
    requires forall k | 0 <= k < |antes| :: antes[k].folha != f && antes[k].evento != e
    requires forall k | 0 <= k < |novos| :: novos[k].folha == f && novos[k].evento == e
    ensures Liquido(antes + novos, catalogo, DaFolha(f)) == Liquido(antes + novos, catalogo, DoEvento(e))
  {
    var itens := antes + novos;
    forall k | 0 <= k < |itens| ensures Em(itens[k], DaFolha(f)) <==> Em(itens[k], DoEvento(e)) {
      if k < |antes| {
        assert itens[k] == antes[k];
      } else {
        assert itens[k] == novos[k - |antes|];
      }
    }
    TotalMesmoEscopo(itens, catalogo, DaFolha(f), DoEvento(e), Provento);
    TotalMesmoEscopo(itens, catalogo, DaFolha(f), DoEvento(e), Desconto);
  }

  /** The summary rows of competence f for the employees in `funcs`, computed in order over `itens`
      (an employee met twice is recomputed, to the same row). */
  function ResumosDe(itens: seq<ItemFolha>, catalogo: seq<ProventoDesconto>, f: nat, funcs: seq<nat>): map<(nat, nat), Resumo>
    decreases |funcs|
  {
    if funcs == [] then map[]
    else ResumosDe(itens, catalogo, f, funcs[..|funcs| - 1])[(f, funcs[|funcs| - 1]) := ResumoDe(itens, catalogo, f, funcs[|funcs| - 1])]
  }

  /** The summaries hold exactly one row per listed employee of competence f, and that row is the
      employee's totals over `itens`. */
  lemma {:induction false} ResumosDeChaves(itens: seq<ItemFolha>, catalogo: seq<ProventoDesconto>, f: nat, funcs: seq<nat>)
    ensures forall key :: key in ResumosDe(itens, catalogo, f, funcs) <==> key.0 == f && key.1 in funcs
    ensures forall key | key in ResumosDe(itens, catalogo, f, funcs) ::
              ResumosDe(itens, catalogo, f, funcs)[key] == ResumoDe(itens, catalogo, f, key.1)
    decreases |funcs|
  {
    if funcs != [] {
      var pre := funcs[..|funcs| - 1];
      ResumosDeChaves(itens, catalogo, f, pre);
      assert funcs == pre + [funcs[|funcs| - 1]];
    }
  }

  /** Items of employee x only: recomputing x's row afterwards gives the same summaries whether the
      other rows were computed before or after the items. */
  lemma {:induction false} ResumosDeExceto(antes: seq<ItemFolha>, novos: seq<ItemFolha>, catalogo: seq<ProventoDesconto>,
                                           f: nat, funcs: seq<nat>, x: nat, v: Resumo)
    requires forall k | 0 <= k < |novos| :: novos[k].folha == f && novos[k].funcionario == x
    ensures ResumosDe(antes + novos, catalogo, f, funcs)[(f, x) := v] == ResumosDe(antes, catalogo, f, funcs)[(f, x) := v]
    decreases |funcs|
  {
    if funcs != [] {
      var pre, y := funcs[..|funcs| - 1], funcs[|funcs| - 1];
      ResumosDeExceto(antes, novos, catalogo, f, pre, x, v);
      var kx: (nat, nat), ky: (nat, nat) := (f, x), (f, y);
      var md: map<(nat, nat), Resumo> := ResumosDe(antes + novos, catalogo, f, pre);
      var ma: map<(nat, nat), Resumo> := ResumosDe(antes, catalogo, f, pre);
      if y != x {
        ResumoIgnoraOutros(antes, novos, catalogo, f, y);
        var r := ResumoDe(antes, catalogo, f, y);
        assert md[ky := r][kx := v] == md[kx := v][ky := r];
        assert ma[ky := r][kx := v] == ma[kx := v][ky := r];
      } else {
        assert md[ky := ResumoDe(antes + novos, catalogo, f, y)][kx := v] == md[kx := v];
        assert ma[ky := ResumoDe(antes, catalogo, f, y)][kx := v] == ma[kx := v];
      }
    }
  }

  /** Posting one employee's items and recomputing that employee's summary: the summaries of the
      employees seen so far, then that one, are those over the new item list. */
  lemma ResumosDeAnexar(antes: seq<ItemFolha>, novos: seq<ItemFolha>, depois: seq<ItemFolha>,
                        catalogo: seq<ProventoDesconto>, f: nat, funcs: seq<nat>, i: nat)
    requires i < |funcs|
    requires forall k | 0 <= k < |novos| :: novos[k].folha == f && novos[k].funcionario == funcs[i]
    requires depois == antes + novos
    ensures ResumosDe(depois, catalogo, f, funcs[..i + 1])
            == ResumosDe(antes, catalogo, f, funcs[..i])[(f, funcs[i]) := ResumoDe(depois, catalogo, f, funcs[i])]
  {
    assert funcs[..i + 1][..i] == funcs[..i];
    ResumosDeExceto(antes, novos, catalogo, f, funcs[..i], funcs[i], ResumoDe(depois, catalogo, f, funcs[i]));
  }

  /** Before the loop no summary has been computed. */
  lemma ResumosDeVazio(itens: seq<ItemFolha>, catalogo: seq<ProventoDesconto>, f: nat, res0: map<(nat, nat), Resumo>)
    ensures res0 + ResumosDe(itens, catalogo, f, []) == res0
  {
    assert ResumosDe(itens, catalogo, f, []) == map[];
  }

  lemma AtualizarUniao<K, V>(m0: map<K, V>, m1: map<K, V>, k: K, v: V)
    ensures (m0 + m1)[k := v] == m0 + m1[k := v]
  {
  }

  /** One step of `gerar_folha`'s loop on the summaries: posting one employee's items and recomputing
      that employee's summary leaves every summary already computed up to date. */
  lemma ResumosPasso(res0: map<(nat, nat), Resumo>, resAntes: map<(nat, nat), Resumo>, resDepois: map<(nat, nat), Resumo>,
                     antes: seq<ItemFolha>, novos: seq<ItemFolha>, depois: seq<ItemFolha>,
                     catalogo: seq<ProventoDesconto>, f: nat, funcs: seq<nat>, i: nat)
    requires i < |funcs|
    requires forall k | 0 <= k < |novos| :: novos[k].folha == f && novos[k].funcionario == funcs[i]
    requires depois == antes + novos
    requires resAntes == res0 + ResumosDe(antes, catalogo, f, funcs[..i])
    requires resDepois == resAntes[(f, funcs[i]) := ResumoDe(depois, catalogo, f, funcs[i])]
    ensures resDepois == res0 + ResumosDe(depois, catalogo, f, funcs[..i + 1])
  {
    AtualizarUniao(res0, ResumosDe(antes, catalogo, f, funcs[..i]), (f, funcs[i]), ResumoDe(depois, catalogo, f, funcs[i]));
    ResumosDeAnexar(antes, novos, depois, catalogo, f, funcs, i);
  }

  lemma Associar<T>(o: seq<T>, s: seq<T>, g: seq<T>, x: seq<T>, a: seq<T>)
    ensures o + s + g + x + a == o + (s + g + x + a)
  {
  }

  lemma Anexar<T>(o: seq<T>, a: seq<T>, x: T)
    ensures o + a + [x] == o + (a + [x])
  {
  }

  lemma AtualizarUltimo<T>(s: seq<T>, x: T, y: T)
    ensures (s + [x])[|s| := y] == s + [y]
  {
  }

  lemma AnexarSeq<T>(o: seq<T>, a: seq<T>, b: seq<T>)
    ensures o + a + b == o + (a + b)
  {
  }

  /** A paid final-payment event with one pending advance of its only attached employee: closing
      it fails, yet the sweep that runs first posts a debit into it and deducts the advance. */
  lemma VarreduraEmEventoPago()
    ensures var ev := EventoPagamento(0, PF, "Pagamento Final 01/2024", Date(2024, 1, 31), Some(Date(2024, 2, 5)), EventoPago, 0);
            var ads := [NovoAdiantamento(0, Date(2024, 1, 15), 13000000)];
            FolhaModels.FecharEvento(ev, 0).Err?
            && Varredura(ads, 0, 0, [0], 1).0 == [ItemFolha(0, 0, 0, ADIANTAMENTO, 13000000, None, Some(0))]
            && Varredura(ads, 0, 0, [0], 1).1[0].status == Descontado
  {
    VarreduraPostaDebito();
  }

  class Banco {
    const cad: Cadastro
    var adiantamentos: seq<Adiantamento>
    var folhas: seq<FolhaPagamento>
    var eventos: seq<EventoPagamento>
    var itens: seq<ItemFolha>
    var resumos: map<(nat, nat), Resumo>

    ghost predicate Valid()
      reads this
    {
      Consistente(cad, adiantamentos, folhas, eventos, itens)
      && forall key | key in resumos :: key.0 < |folhas|
    }

    /** A store holding the master data and the advances already recorded, with no competence yet. */
    constructor (cad: Cadastro, adiantamentos: seq<Adiantamento>)
      requires CadastroValido(cad)
      requires forall i | 0 <= i < |adiantamentos| :: adiantamentos[i].funcionario < |cad.funcionarios|
      ensures Valid()
      ensures this.cad == cad && this.adiantamentos == adiantamentos
      ensures folhas == [] && eventos == [] && itens == [] && resumos == map[]
    {
      this.cad := cad;
      this.adiantamentos := adiantamentos;
      folhas := [];
      eventos := [];
      itens := [];
      resumos := map[];
    }

    // ------------------------------------------------------------ queries

    /** The contract query of `gerar_folha`, in primary-key order. */
    method ContratosElegiveis(mes: int, ano: int) returns (cs: seq<nat>)
      requires ContratosValidos(cad) && 1 <= mes <= 12 && ano >= 1
      ensures forall k | 0 <= k < |cs| :: cs[k] < |cad.contratos| && ContratoElegivel(cad, cs[k], mes, ano)
      ensures forall c | 0 <= c < |cad.contratos| && ContratoElegivel(cad, c, mes, ano) :: c in cs
      ensures forall k, l | 0 <= k < l < |cs| :: cs[k] < cs[l]
    {
      var primeiro, seguinte := PrimeiroDia(ano, mes), PrimeiroDiaSeguinte(ano, mes);
      cs := [];
      var c := 0;
      while c < |cad.contratos|
        invariant 0 <= c <= |cad.contratos|
        invariant forall k | 0 <= k < |cs| :: cs[k] < c && ContratoElegivel(cad, cs[k], mes, ano)
        invariant forall j | 0 <= j < c && ContratoElegivel(cad, j, mes, ano) :: j in cs
        invariant forall k, l | 0 <= k < l < |cs| :: cs[k] < cs[l]
      {
        var ct := cad.contratos[c];
        if cad.funcionarios[ct.funcionario].participaFolha && MenorOuIgual(ct.inicio, seguinte)
           && (ct.fim.None? || MenorOuIgual(primeiro, ct.fim.value)) {
          cs := cs + [c];
        }
        c := c + 1;
      }
    }

    /** `folha.eventos.filter(tipo_evento='PF').first()`: the competence's final-payment event that
        comes first by date, or none. */
    method PrimeiroEventoPF(f: nat) returns (r: Option<nat>)
      ensures r.None? <==> forall j | 0 <= j < |eventos| :: !EhPFDa(eventos, j, f)
      ensures r.Some? ==> EhPFDa(eventos, r.value, f)
                          && forall j | 0 <= j < |eventos| && EhPFDa(eventos, j, f) :: AntesNaOrdem(eventos, r.value, j)
    {
      r := None;
      var j := 0;
      while j < |eventos|
        invariant 0 <= j <= |eventos|
        invariant r.None? <==> forall i | 0 <= i < j :: !EhPFDa(eventos, i, f)
        invariant r.Some? ==> r.value < j && EhPFDa(eventos, r.value, f)
                              && forall i | 0 <= i < j && EhPFDa(eventos, i, f) :: AntesNaOrdem(eventos, r.value, i)
      {
        if eventos[j].folha == f && eventos[j].tipo == PF {
          assert EhPFDa(eventos, j, f);
          if r.None? || Menor(eventos[j].data, eventos[r.value].data) {
            r := Some(j);
          } else {
            MenorOuIgualTotal(eventos[j].data, eventos[r.value].data);
          }
        }
        j := j + 1;
      }
    }


    // ------------------------------------------------------------ posting helpers

    /** `_lancar_salario_base`: one credit of the employee's base salary. */
    method LancarSalarioBase(f: nat, e: nat, func: nat)
      requires func < |cad.funcionarios|
      modifies this`itens
      ensures itens == old(itens) + [ItemSalario(cad, f, e, func)]
    {
      itens := itens + [ItemFolha(e, f, func, SALARIO, Reais(cad.funcionarios[func].salarioBase), None, None)];
    }

    /** `_lancar_lancamentos_fixos_gerais`: one item per active general entry in force in the month
        whose value is positive. */
    method LancarLancamentosFixosGerais(f: nat, e: nat, func: nat, mes: int, ano: int)
      requires GeraisValidos(cad) && func < |cad.funcionarios| && 1 <= mes <= 12 && ano >= 1
      modifies this`itens
      ensures itens == old(itens) + ItensGerais(cad, |cad.gerais|, f, e, func, mes, ano)
    {
      var primeiro, seguinte := PrimeiroDia(ano, mes), PrimeiroDiaSeguinte(ano, mes);
      var i := 0;
      var novos: seq<ItemFolha> := [];
      while i < |cad.gerais|
        invariant 0 <= i <= |cad.gerais|
        invariant novos == ItensGerais(cad, i, f, e, func, mes, ano)
        invariant itens == old(itens)
      {
        var g := cad.gerais[i];
        var vigente := Menor(g.inicio, seguinte) && (g.fim.None? || MenorOuIgual(primeiro, g.fim.value));
        assert vigente == VigenteNoMes(g.inicio, g.fim, mes, ano);
        if g.ativo && vigente {
          novos := novos + ItemDeLancamento(cad, f, e, func, g.provento, g.valor, g.percentual);
        }
        i := i + 1;
      }
      itens := itens + novos;
    }

    /** `_lancar_lancamentos_fixos`: one item per fixed entry of the employee in force in the month
        whose value is positive. */
    method LancarLancamentosFixos(f: nat, e: nat, func: nat, mes: int, ano: int)
      requires FixosValidos(cad) && func < |cad.funcionarios| && 1 <= mes <= 12 && ano >= 1
      modifies this`itens
      ensures itens == old(itens) + ItensFixos(cad, |cad.fixos|, f, e, func, mes, ano)
    {
      var primeiro, seguinte := PrimeiroDia(ano, mes), PrimeiroDiaSeguinte(ano, mes);
      var i := 0;
      var novos: seq<ItemFolha> := [];
      while i < |cad.fixos|
        invariant 0 <= i <= |cad.fixos|
        invariant novos == ItensFixos(cad, i, f, e, func, mes, ano)
        invariant itens == old(itens)
      {
        var l := cad.fixos[i];
        var vigente := Menor(l.inicio, seguinte) && (l.fim.None? || MenorOuIgual(primeiro, l.fim.value));
        assert vigente == VigenteNoMes(l.inicio, l.fim, mes, ano);
        if l.funcionario == func && vigente {
          novos := novos + ItemDeLancamento(cad, f, e, func, l.provento, l.valor, l.percentual);
        }
        i := i + 1;
      }
      itens := itens + novos;
    }

    /** `_lancar_adiantamentos`: a debit linked to each pending advance of the employee, in order,
        each advance then marked deducted; deductions stay traceable. */
    method LancarAdiantamentos(f: nat, e: nat, func: nat)
      requires Rastreabilidade(itens, adiantamentos)
      modifies this`itens, this`adiantamentos
      ensures Rastreabilidade(itens, adiantamentos)
      ensures itens == old(itens) + ItensAdiantamentos(old(adiantamentos), |old(adiantamentos)|, f, e, func)
      ensures adiantamentos == Deduzir(old(adiantamentos), func)
    {
      ghost var ads0 := adiantamentos;
      var i := 0;
      while i < |adiantamentos|
        invariant 0 <= i <= |adiantamentos| == |ads0|
        invariant forall j | 0 <= j < |ads0| :: adiantamentos[j] == (if j < i then Deduzir(ads0, func)[j] else ads0[j])
        invariant itens == old(itens) + ItensAdiantamentos(ads0, i, f, e, func)
        invariant Rastreabilidade(itens, adiantamentos)
      {
        var a := adiantamentos[i];
        if a.funcionario == func && a.status == StatusAdiantamento.Pendente {
          var it := ItemFolha(e, f, func, ADIANTAMENTO, a.valor, None, Some(i));
          Anexar(old(itens), ItensAdiantamentos(ads0, i, f, e, func), it);
          RastreabilidadeDeduzir(itens, adiantamentos, it, i);
          itens := itens + [it];
          adiantamentos := adiantamentos[i := a.(status := Descontado)];
        }
        i := i + 1;
      }
    }

    /** `_criar_resumo_funcionario` with `ResumoFolhaFuncionario.calcular_totais`: the summary row of
        (f, func) is created if missing and recomputed from all of the employee's items in f. */
    method CriarResumoFuncionario(f: nat, func: nat)
      modifies this`resumos
      ensures resumos == old(resumos)[(f, func) := ResumoDe(itens, cad.catalogo, f, func)]
    {
      var p := Total(itens, cad.catalogo, DoFuncionario(f, func), Provento);
      var d := Total(itens, cad.catalogo, DoFuncionario(f, func), Desconto);
      resumos := resumos[(f, func) := Resumo(p, d, p - d)];
    }

    /** `EventoPagamento.calcular_valor_total`: `valor_total` becomes the event's net. */
    method CalcularValorTotal(e: nat)
      requires Valid() && e < |eventos|
      modifies this`eventos
      ensures Valid()
      ensures eventos == old(eventos)[e := old(eventos)[e].(valorTotal := Liquido(itens, cad.catalogo, DoEvento(e)))]
    {
      AtualizarEvento(cad, adiantamentos, folhas, eventos, itens, e, eventos[e].(valorTotal := Liquido(itens, cad.catalogo, DoEvento(e))));
      eventos := eventos[e := eventos[e].(valorTotal := Liquido(itens, cad.catalogo, DoEvento(e)))];
    }

    /** `EventoPagamento.objects.create` of a draft event with total zero: the event's `full_clean`,
        then the insertion. */
    method CriarEvento(f: nat, tipo: TipoEvento, descricao: string, data: Data) returns (r: Result<nat>)
      requires Valid() && f < |folhas|
      modifies this`eventos
      ensures Valid()
      ensures var v := ValidarEvento(folhas[f], f, descricao, data, old(eventos), None);
              (v.Fail? ==> r == Err(v.erro) && eventos == old(eventos))
              && (v.Pass? ==>
                    r == Ok(|old(eventos)|)
                    && eventos == old(eventos) + [EventoPagamento(f, tipo, descricao, data, None, EventoRascunho, 0)])
      ensures r.Ok? ==> forall k | 0 <= k < |itens| :: itens[k].evento < r.value
    {
      var v := ValidarEvento(folhas[f], f, descricao, data, eventos, None);
      if v.Fail? {
        return Err(v.erro);
      }
      var ev := EventoPagamento(f, tipo, descricao, data, None, EventoRascunho, 0);
      AnexarEvento(cad, adiantamentos, folhas, eventos, itens, ev);
      r := Ok(|eventos|);
      eventos := eventos + [ev];
    }

    // ------------------------------------------------------------ gerar_folha

    /** The four postings of one employee of `gerar_folha`'s loop, in order: salary, general entries,
        fixed entries, pending advances. */
    method LancarPostagens(f: nat, e: nat, func: nat, mes: int, ano: int)
      requires GeraisValidos(cad) && FixosValidos(cad) && func < |cad.funcionarios| && 1 <= mes <= 12 && ano >= 1
      requires Rastreabilidade(itens, adiantamentos)
      modifies this`itens, this`adiantamentos
      ensures Rastreabilidade(itens, adiantamentos)
      ensures itens == old(itens) + PostagensFuncionario(cad, old(adiantamentos), f, e, func, mes, ano)
      ensures adiantamentos == Deduzir(old(adiantamentos), func)
    {
      ghost var itens0, ads0 := itens, adiantamentos;
      ghost var s, g, x, a := [ItemSalario(cad, f, e, func)], ItensGerais(cad, |cad.gerais|, f, e, func, mes, ano),
                              ItensFixos(cad, |cad.fixos|, f, e, func, mes, ano), ItensAdiantamentos(adiantamentos, |adiantamentos|, f, e, func);
      LancarSalarioBase(f, e, func);
      RastreabilidadeSemOrigem(itens0, ads0, s);
      LancarLancamentosFixosGerais(f, e, func, mes, ano);
      RastreabilidadeSemOrigem(itens0 + s, ads0, g);
      LancarLancamentosFixos(f, e, func, mes, ano);
      RastreabilidadeSemOrigem(itens0 + s + g, ads0, x);
      LancarAdiantamentos(f, e, func);
      assert itens == itens0 + s + g + x + a;
      Associar(itens0, s, g, x, a);
    }

    /** One employee of `gerar_folha`'s loop: the postings, then the employee's summary. */
    method ProcessarFuncionarioPF(f: nat, e: nat, func: nat, mes: int, ano: int)
      requires GeraisValidos(cad) && FixosValidos(cad) && |cad.catalogo| >= 3 && func < |cad.funcionarios| && 1 <= mes <= 12 && ano >= 1
      requires Rastreabilidade(itens, adiantamentos)
      modifies this`itens, this`adiantamentos, this`resumos
      ensures Rastreabilidade(itens, adiantamentos)
      ensures itens == old(itens) + PostagensFuncionario(cad, old(adiantamentos), f, e, func, mes, ano)
      ensures adiantamentos == Deduzir(old(adiantamentos), func)
      ensures resumos == old(resumos)[(f, func) := ResumoDe(itens, cad.catalogo, f, func)]
    {
      LancarPostagens(f, e, func, mes, ano);
      CriarResumoFuncionario(f, func);
    }

    /** One turn of `gerar_folha`'s loop over the attached contracts, stated against the postings
        and summaries of the contracts before it. */
    method PassoContratos(f: nat, e: nat, funcs: seq<nat>, i: nat, mes: int, ano: int,
                          ghost itens0: seq<ItemFolha>, ghost ads0: seq<Adiantamento>,
                          ghost res0: map<(nat, nat), Resumo>, ghost acc: seq<ItemFolha>)
      returns (ghost acc2: seq<ItemFolha>)
      requires GeraisValidos(cad) && FixosValidos(cad) && |cad.catalogo| >= 3 && 1 <= mes <= 12 && ano >= 1
      requires forall k | 0 <= k < |funcs| :: funcs[k] < |cad.funcionarios|
      requires i < |funcs| && Rastreabilidade(itens, adiantamentos)
      requires itens == itens0 + acc && (acc, adiantamentos) == PostagensPF(cad, ads0, f, e, funcs, i, mes, ano)
      requires resumos == res0 + ResumosDe(itens, cad.catalogo, f, funcs[..i])
      modifies this`itens, this`adiantamentos, this`resumos
      ensures Rastreabilidade(itens, adiantamentos)
      ensures itens == itens0 + acc2 && (acc2, adiantamentos) == PostagensPF(cad, ads0, f, e, funcs, i + 1, mes, ano)
      ensures resumos == res0 + ResumosDe(itens, cad.catalogo, f, funcs[..i + 1])
    {
      var func := funcs[i];
      ghost var novos := PostagensFuncionario(cad, adiantamentos, f, e, func, mes, ano);
      PostagensDoFuncionario(cad, adiantamentos, f, e, func, mes, ano);
      PostagensPFPasso(cad, ads0, f, e, funcs, i, mes, ano);
      ghost var antes, resAntes := itens, resumos;
      AnexarSeq(itens0, acc, novos);
      ProcessarFuncionarioPF(f, e, func, mes, ano);
      ResumosPasso(res0, resAntes, resumos, antes, novos, itens, cad.catalogo, f, funcs, i);
      acc2 := acc + novos;
    }

    /** `gerar_folha`'s loop over the attached contracts, processing each contract's employee in
        order: the postings accumulate as `PostagensPF` says, and each processed employee's summary
        is that employee's totals over the whole competence. */
    method ProcessarContratos(f: nat, e: nat, funcs: seq<nat>, mes: int, ano: int)
      requires GeraisValidos(cad) && FixosValidos(cad) && |cad.catalogo| >= 3 && 1 <= mes <= 12 && ano >= 1
      requires forall k | 0 <= k < |funcs| :: funcs[k] < |cad.funcionarios|
      requires Rastreabilidade(itens, adiantamentos)
      modifies this`itens, this`adiantamentos, this`resumos
      ensures Rastreabilidade(itens, adiantamentos)
      ensures var p := PostagensPF(cad, old(adiantamentos), f, e, funcs, |funcs|, mes, ano);
              itens == old(itens) + p.0 && adiantamentos == p.1
      ensures resumos == old(resumos) + ResumosDe(itens, cad.catalogo, f, funcs)
    {
      ghost var itens0, ads0, res0 := itens, adiantamentos, resumos;
      ghost var acc: seq<ItemFolha> := [];
      assert funcs[..0] == [];
      ResumosDeVazio(itens, cad.catalogo, f, res0);
      var i := 0;
      while i < |funcs|
        invariant 0 <= i <= |funcs|
        invariant Rastreabilidade(itens, adiantamentos)
        invariant itens == itens0 + acc && (acc, adiantamentos) == PostagensPF(cad, ads0, f, e, funcs, i, mes, ano)
        invariant resumos == res0 + ResumosDe(itens, cad.catalogo, f, funcs[..i])
      {
        acc := PassoContratos(f, e, funcs, i, mes, ano, itens0, ads0, res0, acc);
        i := i + 1;
      }
      assert funcs[..|funcs|] == funcs;
    }

    /** The postings of the default final-payment event e of competence f, whose earlier items all
        belong elsewhere: every attached contract's postings and summary, then the event's total,
        which is also the competence's net. */
    method PostarEventoPadrao(f: nat, e: nat, funcs: seq<nat>, mes: int, ano: int)
      requires Valid() && e < |eventos| && eventos[e].folha == f && 1 <= mes <= 12 && ano >= 1
      requires forall k | 0 <= k < |funcs| :: funcs[k] < |cad.funcionarios|
      requires forall k | 0 <= k < |itens| :: itens[k].folha != f && itens[k].evento != e
      modifies this`eventos, this`itens, this`adiantamentos, this`resumos
      ensures Valid()
      ensures var p := PostagensPF(cad, old(adiantamentos), f, e, funcs, |funcs|, mes, ano);
              itens == old(itens) + p.0 && adiantamentos == p.1
              && resumos == old(resumos) + ResumosDe(itens, cad.catalogo, f, funcs)
      ensures eventos == old(eventos)[e := old(eventos)[e].(valorTotal := Liquido(itens, cad.catalogo, DoEvento(e)))]
      ensures Liquido(itens, cad.catalogo, DaFolha(f)) == Liquido(itens, cad.catalogo, DoEvento(e))
    {
      ghost var itens0, ads0 := itens, adiantamentos;
      ProcessarContratos(f, e, funcs, mes, ano);
      PostagensPFValidas(cad, ads0, f, e, funcs, |funcs|, mes, ano);
      PostagensPFFuncionarios(cad, ads0, f, e, funcs, |funcs|, mes, ano);
      PostagensPFDoEvento(cad, ads0, f, e, funcs, |funcs|, mes, ano);
      AnexarDebitos(cad, ads0, adiantamentos, folhas, eventos, itens0, PostagensPF(cad, ads0, f, e, funcs, |funcs|, mes, ano).0);
      ResumosDeChaves(itens, cad.catalogo, f, funcs);
      assert forall key | key in resumos :: key.0 < |folhas|;
      CalcularValorTotal(e);
      LiquidoDoEventoUnico(itens0, PostagensPF(cad, ads0, f, e, funcs, |funcs|, mes, ano).0, cad.catalogo, f, e);
    }

    /** The creation of the default final-payment event of competence f, which has no events yet:
        "Pagamento Final MM/AAAA", dated on the month's last day, a draft with total zero. Its
        `full_clean` passes, and none of the items recorded so far belongs to f or to the event. */
    method CriarEventoPF(f: nat) returns (e: nat)
      requires Valid() && f < |folhas|
      requires forall j | 0 <= j < |eventos| :: eventos[j].folha != f
      modifies this`eventos
      ensures Valid()
      ensures var fp := folhas[f];
              e == |old(eventos)|
              && eventos == old(eventos) + [EventoPagamento(f, PF, DescricaoPF(fp.mes, fp.ano), UltimoDia(fp.ano, fp.mes),
                                                            None, EventoRascunho, 0)]
      ensures forall k | 0 <= k < |itens| :: itens[k].folha != f && itens[k].evento != e
    {
      var fp := folhas[f];
      DescricaoPFValida(fp.mes, fp.ano);
      var data := UltimoDia(fp.ano, fp.mes);
      assert ValidarEvento(fp, f, DescricaoPF(fp.mes, fp.ano), data, eventos, None).Pass?;
      var c := CriarEvento(f, PF, DescricaoPF(fp.mes, fp.ano), data);
      e := c.value;
    }

    /** The default final-payment event of competence f, which has no events yet: the event, then
        its postings; its total is the competence's net. */
    method GerarEventoPadrao(f: nat) returns (e: nat)
      requires Valid() && f < |folhas|
      requires forall j | 0 <= j < |eventos| :: eventos[j].folha != f
      modifies this`eventos, this`itens, this`adiantamentos, this`resumos
      ensures Valid()
      ensures var fp := folhas[f];
              var funcs := FuncionariosDe(cad, fp.contratosAtivos);
              var p := PostagensPF(cad, old(adiantamentos), f, e, funcs, |funcs|, fp.mes, fp.ano);
              e == |old(eventos)|
              && eventos == old(eventos) + [EventoPagamento(f, PF, DescricaoPF(fp.mes, fp.ano), UltimoDia(fp.ano, fp.mes),
                                                            None, EventoRascunho, Liquido(itens, cad.catalogo, DaFolha(f)))]
              && itens == old(itens) + p.0 && adiantamentos == p.1
              && resumos == old(resumos) + ResumosDe(itens, cad.catalogo, f, funcs)
    {
      ghost var eventos0 := eventos;
      e := CriarEventoPF(f);
      ghost var ev := eventos[e];
      PostarEventoPadrao(f, e, FuncionariosDe(cad, folhas[f].contratosAtivos), folhas[f].mes, folhas[f].ano);
      AtualizarUltimo(eventos0, ev, ev.(valorTotal := Liquido(itens, cad.catalogo, DoEvento(e))));
    }

    /** `gerar_folha`: the competence's `full_clean`, then the dates of the month (which
        `datetime.date` cannot build past December 9999), then the competence with the eligible
        contracts and, when asked for, its default final-payment event. On an error the transaction
        leaves the store as it was. */
    method GerarFolha(mes: int, ano: int, criarEventoPadrao: bool) returns (r: Result<nat>)
      requires Valid()
      modifies this
      ensures Valid()
      ensures var v := ValidarFolha(mes, ano, old(folhas), None);
              (v.Fail? ==> r == Err(v.erro))
              && (v.Pass? && (ano > 9999 || (ano == 9999 && mes == 12)) ==> r == Err(AnoForaDoCalendario))
              && (v.Pass? && (ano < 9999 || (ano == 9999 && mes < 12)) ==> r == Ok(|old(folhas)|))
      ensures r.Err? ==> folhas == old(folhas) && eventos == old(eventos) && itens == old(itens)
                         && adiantamentos == old(adiantamentos) && resumos == old(resumos)
      ensures r.Ok? ==>
                |folhas| == |old(folhas)| + 1 && folhas[..r.value] == old(folhas)
                && var fp := folhas[r.value];
                   fp.mes == mes && fp.ano == ano && fp.status == FolhaRascunho && fp.dataFechamento.None?
                   && (forall k | 0 <= k < |fp.contratosAtivos| ::
                         fp.contratosAtivos[k] < |cad.contratos| && ContratoElegivel(cad, fp.contratosAtivos[k], mes, ano))
                   && (forall c | 0 <= c < |cad.contratos| && ContratoElegivel(cad, c, mes, ano) :: c in fp.contratosAtivos)
                   && (forall k, l | 0 <= k < l < |fp.contratosAtivos| :: fp.contratosAtivos[k] < fp.contratosAtivos[l])
      ensures r.Ok? && !criarEventoPadrao ==>
                eventos == old(eventos) && itens == old(itens) && adiantamentos == old(adiantamentos) && resumos == old(resumos)
      ensures r.Ok? && criarEventoPadrao ==>
                var f := r.value;
                var funcs := FuncionariosDe(cad, folhas[f].contratosAtivos);
                var p := PostagensPF(cad, old(adiantamentos), f, |old(eventos)|, funcs, |funcs|, mes, ano);
                eventos == old(eventos) + [EventoPagamento(f, PF, DescricaoPF(mes, ano), UltimoDia(ano, mes),
                                                           None, EventoRascunho, Liquido(itens, cad.catalogo, DaFolha(f)))]
                && itens == old(itens) + p.0 && adiantamentos == p.1
                && resumos == old(resumos) + ResumosDe(itens, cad.catalogo, f, funcs)
    {
      var v := ValidarFolha(mes, ano, folhas, None);
      if v.Fail? {
        return Err(v.erro);
      }
      if ano > 9999 || (ano == 9999 && mes == 12) {
        return Err(AnoForaDoCalendario);
      }
      var f := InserirFolha(mes, ano);
      r := Ok(f);
      if criarEventoPadrao {
        var e := GerarEventoPadrao(f);
      }
    }

    /** The insertion of `gerar_folha`: a draft competence of the month holding the eligible
        contracts, in primary-key order. No event and no summary belongs to it yet. */
    method InserirFolha(mes: int, ano: int) returns (f: nat)
      requires Valid() && ValidarFolha(mes, ano, folhas, None).Pass? && (ano < 9999 || (ano == 9999 && mes < 12))
      modifies this`folhas
      ensures Valid()
      ensures f == |old(folhas)| && |folhas| == f + 1 && folhas[..f] == old(folhas)
      ensures var fp := folhas[f];
              fp.mes == mes && fp.ano == ano && fp.status == FolhaRascunho && fp.dataFechamento.None?
              && (forall k | 0 <= k < |fp.contratosAtivos| ::
                    fp.contratosAtivos[k] < |cad.contratos| && ContratoElegivel(cad, fp.contratosAtivos[k], mes, ano))
              && (forall c | 0 <= c < |cad.contratos| && ContratoElegivel(cad, c, mes, ano) :: c in fp.contratosAtivos)
              && (forall k, l | 0 <= k < l < |fp.contratosAtivos| :: fp.contratosAtivos[k] < fp.contratosAtivos[l])
      ensures forall j | 0 <= j < |eventos| :: eventos[j].folha != f
    {
      var cs := ContratosElegiveis(mes, ano);
      var fp := FolhaPagamento(mes, ano, FolhaRascunho, None, cs);
      AnexarFolha(cad, adiantamentos, folhas, eventos, itens, fp);
      f := |folhas|;
      folhas := folhas + [fp];
      assert folhas[..f] == old(folhas);
    }
    /** Sets the total of event e, keeping the store consistent. */
    method DefinirTotal(e: nat, v: int)
      requires Valid() && e < |eventos|
      modifies this`eventos
      ensures Valid()
      ensures eventos == old(eventos)[e := old(eventos)[e].(valorTotal := v)]
    {
      AtualizarEvento(cad, adiantamentos, folhas, eventos, itens, e, eventos[e].(valorTotal := v));
      eventos := eventos[e := eventos[e].(valorTotal := v)];
    }


    // ------------------------------------------------------------ further events

    /** `criar_evento_pagamento`'s loop: the base salary of each attached contract's employee. */
    method LancarSalarios(f: nat, e: nat, cs: seq<nat>)
      requires ContratosValidos(cad) && forall k | 0 <= k < |cs| :: cs[k] < |cad.contratos|
      modifies this`itens
      ensures itens == old(itens) + ItensSalario(cad, f, e, cs, |cs|)
    {
      var k := 0;
      while k < |cs|
        invariant 0 <= k <= |cs|
        invariant itens == old(itens) + ItensSalario(cad, f, e, cs, k)
      {
        var it := ItemSalario(cad, f, e, cad.contratos[cs[k]].funcionario);
        Anexar(old(itens), ItensSalario(cad, f, e, cs, k), it);
        assert ItensSalario(cad, f, e, cs, k) + [it] == ItensSalario(cad, f, e, cs, k + 1);
        LancarSalarioBase(f, e, cad.contratos[cs[k]].funcionario);
        k := k + 1;
      }
    }

    /** The processing half of `criar_evento_pagamento` for the new event e of competence f: the
        salary credits, then the event's total, which is their sum and the event's net. */
    method ProcessarEventoPagamento(f: nat, e: nat)
      requires Valid() && f < |folhas| && e < |eventos| && eventos[e].folha == f
      requires forall k | 0 <= k < |itens| :: itens[k].evento != e
      modifies this`eventos, this`itens
      ensures Valid()
      ensures var novos := ItensSalario(cad, f, e, folhas[f].contratosAtivos, |folhas[f].contratosAtivos|);
              itens == old(itens) + novos
              && eventos == old(eventos)[e := old(eventos)[e].(valorTotal := Soma(Valores(novos)))]
              && Soma(Valores(novos)) == Liquido(itens, cad.catalogo, DoEvento(e))
    {
      var cs := folhas[f].contratosAtivos;
      ghost var itens0 := itens;
      ghost var novos := ItensSalario(cad, f, e, cs, |cs|);
      LancarSalarios(f, e, cs);
      CatalogoSemeadoTipos(cad.catalogo);
      AnexarItens(cad, adiantamentos, folhas, eventos, itens0, novos);
      LiquidoDoNovoEvento(itens0, novos, cad.catalogo, e);
      CalcularValorTotal(e);
    }

    /** `criar_evento_pagamento`: only a draft competence takes new events; the event's `full_clean`;
        then, when asked for, one base-salary credit per attached contract and the event's total. */
    method CriarEventoPagamento(f: nat, tipo: TipoEvento, descricao: string, data: Data, processar: bool) returns (r: Result<nat>)
      requires Valid() && f < |folhas|
      modifies this`eventos, this`itens
      ensures Valid()
      ensures folhas[f].status != FolhaRascunho ==> r == Err(FolhaNaoRascunho)
      ensures folhas[f].status == FolhaRascunho ==>
                var v := ValidarEvento(folhas[f], f, descricao, data, old(eventos), None);
                (v.Fail? ==> r == Err(v.erro)) && (v.Pass? ==> r == Ok(|old(eventos)|))
      ensures r.Err? ==> eventos == old(eventos) && itens == old(itens)
      ensures r.Ok? ==>
                var e := r.value;
                var novos := if processar then ItensSalario(cad, f, e, folhas[f].contratosAtivos, |folhas[f].contratosAtivos|) else [];
                itens == old(itens) + novos
                && eventos == old(eventos) + [EventoPagamento(f, tipo, descricao, data, None, EventoRascunho, Soma(Valores(novos)))]
                && eventos[e].valorTotal == Liquido(itens, cad.catalogo, DoEvento(e))
    {
      if folhas[f].status != FolhaRascunho {
        return Err(FolhaNaoRascunho);
      }
      r := CriarEvento(f, tipo, descricao, data);
      if r.Err? {
        return;
      }
      var e := r.value;
      if processar {
        ghost var eventos0, ev := old(eventos), eventos[e];
        ProcessarEventoPagamento(f, e);
        AtualizarUltimo(eventos0, ev, eventos[e]);
      } else {
        ForaDoNovoEvento(itens, cad.catalogo, e);
      }
    }

    /** `criar_evento_decimo_terceiro`'s loop: one SALARIO_13 credit of half the base salary,
        quantized to the cent, per attached contract, and their running sum. */
    method LancarDecimos(f: nat, e: nat, cs: seq<nat>) returns (total: int)
      requires ContratosValidos(cad) && forall k | 0 <= k < |cs| :: cs[k] < |cad.contratos|
      modifies this`itens
      ensures itens == old(itens) + ItensDecimo(cad, f, e, cs, |cs|)
      ensures total == Soma(Valores(ItensDecimo(cad, f, e, cs, |cs|)))
    {
      total := 0;
      var k := 0;
      while k < |cs|
        invariant 0 <= k <= |cs|
        invariant itens == old(itens) + ItensDecimo(cad, f, e, cs, k)
        invariant total == Soma(Valores(ItensDecimo(cad, f, e, cs, k)))
      {
        var func := cad.contratos[cs[k]].funcionario;
        var valor := ValorDecimo(cad.funcionarios[func].salarioBase);
        var it := ItemFolha(e, f, func, SALARIO_13, valor, None, None);
        DecimosPasso(cad, f, e, cs, k);
        itens := itens + [it];
        total := total + valor;
        k := k + 1;
      }
    }

    /** The processing half of `criar_evento_decimo_terceiro` for the new event e of competence f:
        the installment credits, then their quantized sum as the total, which is the event's net. */
    method ProcessarEventoDecimo(f: nat, e: nat)
      requires Valid() && f < |folhas| && e < |eventos| && eventos[e].folha == f
      requires forall k | 0 <= k < |itens| :: itens[k].evento != e
      modifies this`eventos, this`itens
      ensures Valid()
      ensures var novos := ItensDecimo(cad, f, e, folhas[f].contratosAtivos, |folhas[f].contratosAtivos|);
              itens == old(itens) + novos
              && eventos == old(eventos)[e := old(eventos)[e].(valorTotal := Soma(Valores(novos)))]
              && Soma(Valores(novos)) == Liquido(itens, cad.catalogo, DoEvento(e))
    {
      var cs := folhas[f].contratosAtivos;
      ghost var itens0 := itens;
      ghost var novos := ItensDecimo(cad, f, e, cs, |cs|);
      var total := LancarDecimos(f, e, cs);
      DecimosValidos(cad, f, e, cs);
      CatalogoSemeadoTipos(cad.catalogo);
      AnexarItens(cad, adiantamentos, folhas, eventos, itens0, novos);
      LiquidoDoNovoEvento(itens0, novos, cad.catalogo, e);
      QuantizarSomaDeQuantizados(Valores(novos));
      DefinirTotal(e, Quantizar(total));
    }

    /** `criar_evento_decimo_terceiro`: draft competence, then a parcel of 1 or 2, then the event's
        `full_clean`; then the SALARIO_13 credits and the quantized sum as the event's total, which
        is the event's net. */
    method CriarEventoDecimoTerceiro(f: nat, descricao: string, data: Data, parcela: int) returns (r: Result<nat>)
      requires Valid() && f < |folhas|
      modifies this`eventos, this`itens
      ensures Valid()
      ensures folhas[f].status != FolhaRascunho ==> r == Err(FolhaNaoRascunho)
      ensures folhas[f].status == FolhaRascunho && parcela != 1 && parcela != 2 ==> r == Err(ParcelaInvalida)
      ensures folhas[f].status == FolhaRascunho && (parcela == 1 || parcela == 2) ==>
                var v := ValidarEvento(folhas[f], f, descricao, data, old(eventos), None);
                (v.Fail? ==> r == Err(v.erro)) && (v.Pass? ==> r == Ok(|old(eventos)|))
      ensures r.Err? ==> eventos == old(eventos) && itens == old(itens)
      ensures r.Ok? ==>
                var e := r.value;
                var novos := ItensDecimo(cad, f, e, folhas[f].contratosAtivos, |folhas[f].contratosAtivos|);
                itens == old(itens) + novos
                && eventos == old(eventos) + [EventoPagamento(f, DT, descricao, data, None, EventoRascunho, Soma(Valores(novos)))]
                && eventos[e].valorTotal == Liquido(itens, cad.catalogo, DoEvento(e))
    {
      if folhas[f].status != FolhaRascunho {
        return Err(FolhaNaoRascunho);
      }
      if parcela != 1 && parcela != 2 {
        return Err(ParcelaInvalida);
      }
      r := CriarEvento(f, DT, descricao, data);
      if r.Err? {
        return;
      }
      var e := r.value;
      ghost var eventos0, ev := old(eventos), eventos[e];
      ProcessarEventoDecimo(f, e);
      AtualizarUltimo(eventos0, ev, eventos[e]);
    }

    /** The loop shared by the two bulk-advance services: one pending advance per selected employee,
        in order, valued by `ValorAdiantamento`, and the running sum of the values. */
    method RegistrarAdiantamentos(sel: seq<nat>, data: Data, valor: Option<int>, percentual: Option<int>, arredondar: bool)
      returns (total: int, quantidade: nat)
      requires forall k | 0 <= k < |sel| :: sel[k] < |cad.funcionarios|
      modifies this`adiantamentos
      ensures adiantamentos == old(adiantamentos) + NovosAdiantamentos(cad, sel, data, valor, percentual, arredondar)
      ensures total == Soma(ValoresAdiantamentos(NovosAdiantamentos(cad, sel, data, valor, percentual, arredondar)))
      ensures quantidade == |sel|
    {
      total, quantidade := 0, 0;
      while quantidade < |sel|
        invariant 0 <= quantidade <= |sel|
        invariant adiantamentos == old(adiantamentos) + NovosAdiantamentos(cad, sel[..quantidade], data, valor, percentual, arredondar)
        invariant total == Soma(ValoresAdiantamentos(NovosAdiantamentos(cad, sel[..quantidade], data, valor, percentual, arredondar)))
      {
        var func := sel[quantidade];
        var v := ValorAdiantamento(valor, percentual, cad.funcionarios[func].salarioBase, arredondar);
        var a := NovoAdiantamento(func, data, v);
        NovosAdiantamentosPasso(cad, sel, quantidade, data, valor, percentual, arredondar);
        Anexar(old(adiantamentos), NovosAdiantamentos(cad, sel[..quantidade], data, valor, percentual, arredondar), a);
        adiantamentos := adiantamentos + [a];
        total := total + v;
        quantidade := quantidade + 1;
      }
      assert sel[..|sel|] == sel;
    }

    /** The processing half of `criar_evento_adiantamento_massivo` for the new event e: one quantized
        pending advance per selected employee, then their sum as the event's total. */
    method ProcessarEventoMassivo(f: nat, e: nat, filtro: Option<Funcionario -> bool>, data: Data,
                                  valor: Option<int>, percentual: Option<int>)
      requires Valid() && f < |folhas| && e < |eventos|
      modifies this`eventos, this`adiantamentos
      ensures Valid()
      ensures var novos := NovosAdiantamentos(cad, SelecionadosMassivo(cad, folhas[f].contratosAtivos, filtro),
                                              data, valor, percentual, true);
              adiantamentos == old(adiantamentos) + novos
              && eventos == old(eventos)[e := old(eventos)[e].(valorTotal := Soma(ValoresAdiantamentos(novos)))]
    {
      var sel := SelecionadosMassivo(cad, folhas[f].contratosAtivos, filtro);
      ghost var ads0 := adiantamentos;
      var total, _ := RegistrarAdiantamentos(sel, data, valor, percentual, true);
      AnexarAdiantamentos(cad, ads0, folhas, eventos, itens, NovosAdiantamentos(cad, sel, data, valor, percentual, true));
      TotalMassivoExato(cad, sel, data, valor, percentual);
      DefinirTotal(e, Quantizar(total));
    }

    /** `criar_evento_adiantamento_massivo`: draft competence, then an amount or a percentage, then
        the AD event's `full_clean`; then one pending advance, quantized to the cent, per selected
        employee of the attached contracts, and the quantized sum, equal to the exact sum, as the
        event's total. No item is posted, so the event's net is zero. */
    method CriarEventoAdiantamentoMassivo(f: nat, descricao: string, data: Data, filtro: Option<Funcionario -> bool>,
                                          valor: Option<int>, percentual: Option<int>) returns (r: Result<nat>)
      requires Valid() && f < |folhas|
      modifies this`eventos, this`adiantamentos
      ensures Valid()
      ensures folhas[f].status != FolhaRascunho ==> r == Err(FolhaNaoRascunho)
      ensures folhas[f].status == FolhaRascunho && !Truthy(valor) && !Truthy(percentual) ==> r == Err(ValorOuPercentualAusente)
      ensures folhas[f].status == FolhaRascunho && (Truthy(valor) || Truthy(percentual)) ==>
                var v := ValidarEvento(folhas[f], f, descricao, data, old(eventos), None);
                (v.Fail? ==> r == Err(v.erro)) && (v.Pass? ==> r == Ok(|old(eventos)|))
      ensures r.Err? ==> eventos == old(eventos) && adiantamentos == old(adiantamentos)
      ensures r.Ok? ==>
                var sel := SelecionadosMassivo(cad, folhas[f].contratosAtivos, filtro);
                var novos := NovosAdiantamentos(cad, sel, data, valor, percentual, true);
                adiantamentos == old(adiantamentos) + novos
                && eventos == old(eventos)
                             + [EventoPagamento(f, AD, descricao, data, None, EventoRascunho, Soma(ValoresAdiantamentos(novos)))]
                && Liquido(itens, cad.catalogo, DoEvento(r.value)) == 0
    {
      if folhas[f].status != FolhaRascunho {
        return Err(FolhaNaoRascunho);
      }
      if !Truthy(valor) && !Truthy(percentual) {
        return Err(ValorOuPercentualAusente);
      }
      r := CriarEvento(f, AD, descricao, data);
      if r.Err? {
        return;
      }
      var e := r.value;
      ForaDoNovoEvento(itens, cad.catalogo, e);
      ghost var eventos0, ev := old(eventos), eventos[e];
      ProcessarEventoMassivo(f, e, filtro, data, valor, percentual);
      AtualizarUltimo(eventos0, ev, eventos[e]);
    }

    // ------------------------------------------------------------ manual items

    /** The posting of a manual item on draft event e: the item, the event's total recomputed and the
        employee's summary recomputed. */
    method LancarItemManual(e: nat, func: nat, provento: nat, valor: int) returns (it: ItemFolha)
      requires Valid() && e < |eventos| && func < |cad.funcionarios| && provento < |cad.catalogo|
      modifies this`eventos, this`itens, this`resumos
      ensures Valid()
      ensures it == ItemFolha(e, old(eventos)[e].folha, func, provento, Reais(valor), None, None)
      ensures itens == old(itens) + [it]
      ensures eventos == old(eventos)[e := old(eventos)[e].(valorTotal := Liquido(itens, cad.catalogo, DoEvento(e)))]
      ensures Liquido(itens, cad.catalogo, DoEvento(e)) == Liquido(old(itens), cad.catalogo, DoEvento(e)) + Efeito(it, cad.catalogo)
      ensures resumos == old(resumos)[(it.folha, func) := ResumoDe(itens, cad.catalogo, it.folha, func)]
    {
      it := ItemFolha(e, eventos[e].folha, func, provento, Reais(valor), None, None);
      AnexarItens(cad, adiantamentos, folhas, eventos, itens, [it]);
      LiquidoComItem(itens, it, cad.catalogo, DoEvento(e));
      itens := itens + [it];
      CalcularValorTotal(e);
      CriarResumoFuncionario(it.folha, func);
    }

    /** The draft check of `adicionar_item_manual` on the event it found, then the posting. */
    method LancarSeRascunho(e: nat, func: nat, provento: nat, valor: int) returns (r: Result<ItemFolha>)
      requires Valid() && e < |eventos| && func < |cad.funcionarios| && provento < |cad.catalogo|
      modifies this`eventos, this`itens, this`resumos
      ensures Valid()
      ensures old(eventos)[e].status != EventoRascunho ==>
                r == Err(EventoNaoRascunho) && itens == old(itens) && eventos == old(eventos) && resumos == old(resumos)
      ensures old(eventos)[e].status == EventoRascunho ==>
                r.Ok? && r.value == ItemFolha(e, old(eventos)[e].folha, func, provento, Reais(valor), None, None)
                && itens == old(itens) + [r.value]
                && eventos == old(eventos)[e := old(eventos)[e].(valorTotal := Liquido(itens, cad.catalogo, DoEvento(e)))]
                && resumos == old(resumos)[(r.value.folha, func) := ResumoDe(itens, cad.catalogo, r.value.folha, func)]
    {
      if eventos[e].status != EventoRascunho {
        return Err(EventoNaoRascunho);
      }
      var it := LancarItemManual(e, func, provento, valor);
      r := Ok(it);
    }

    /** The item on e, the first final-payment event competence f already has. */
    method LancarNoPF(f: nat, e: nat, func: nat, provento: nat, valor: int) returns (r: Result<ItemFolha>)
      requires Valid() && f < |folhas| && e < |eventos| && PrimeiroPF(eventos, f, e)
      requires func < |cad.funcionarios| && provento < |cad.catalogo|
      modifies this`eventos, this`itens, this`resumos
      ensures Valid()
      ensures forall p: nat | PrimeiroPF(old(eventos), f, p) ::
                (old(eventos)[p].status != EventoRascunho ==> r == Err(EventoNaoRascunho))
                && (old(eventos)[p].status == EventoRascunho ==> r.Ok? && r.value.evento == p)
      ensures r.Err? ==> itens == old(itens) && eventos == old(eventos) && resumos == old(resumos)
      ensures r.Ok? ==>
                r.value == ItemFolha(e, f, func, provento, Reais(valor), None, None)
                && old(eventos)[e].status == EventoRascunho
                && itens == old(itens) + [r.value]
                && eventos == old(eventos)[e := old(eventos)[e].(valorTotal := Liquido(itens, cad.catalogo, DoEvento(e)))]
                && resumos == old(resumos)[(f, func) := ResumoDe(itens, cad.catalogo, f, func)]
    {
      forall p: nat | PrimeiroPF(eventos, f, p)
        ensures p == e
      {
        PrimeiroPFUnico(eventos, f, p, e);
      }
      r := LancarSeRascunho(e, func, provento, valor);
    }

    /** A competence without a final-payment event: a draft one dated the last day of its month is
        created (its validation may refuse it), then the item goes on it. */
    method LancarNoNovoPF(f: nat, func: nat, provento: nat, valor: int) returns (r: Result<ItemFolha>)
      requires Valid() && f < |folhas| && forall j | 0 <= j < |eventos| :: !EhPFDa(eventos, j, f)
      requires func < |cad.funcionarios| && provento < |cad.catalogo|
      modifies this`eventos, this`itens, this`resumos
      ensures Valid()
      ensures var fp := folhas[f];
              var v := ValidarEvento(fp, f, DescricaoPF(fp.mes, fp.ano), UltimoDia(fp.ano, fp.mes), old(eventos), None);
              (v.Fail? ==> r == Err(v.erro) && itens == old(itens) && eventos == old(eventos) && resumos == old(resumos))
              && (v.Pass? ==>
                    r.Ok? && r.value == ItemFolha(|old(eventos)|, f, func, provento, Reais(valor), None, None)
                    && itens == old(itens) + [r.value]
                    && eventos == old(eventos) + [EventoPagamento(f, PF, DescricaoPF(fp.mes, fp.ano), UltimoDia(fp.ano, fp.mes),
                                                                  None, EventoRascunho, Liquido(itens, cad.catalogo, DoEvento(|old(eventos)|)))]
                    && resumos == old(resumos)[(f, func) := ResumoDe(itens, cad.catalogo, f, func)])
    {
      var fp := folhas[f];
      var c := CriarEvento(f, PF, DescricaoPF(fp.mes, fp.ano), UltimoDia(fp.ano, fp.mes));
      if c.Err? {
        return Err(c.erro);
      }
      ghost var antes := eventos;
      r := LancarSeRascunho(c.value, func, provento, valor);
      assert eventos == old(eventos) + [antes[c.value].(valorTotal := Liquido(itens, cad.catalogo, DoEvento(c.value)))];
    }

    /** `adicionar_item_manual` given only competence f: its first final-payment event, or a new
        draft one dated the last day of its month, must be a draft; then the item. */
    method AdicionarItemNaFolha(f: nat, func: nat, provento: nat, valor: int) returns (r: Result<ItemFolha>)
      requires Valid() && f < |folhas|
      requires func < |cad.funcionarios| && provento < |cad.catalogo|
      modifies this`eventos, this`itens, this`resumos
      ensures Valid()
      ensures forall p: nat | PrimeiroPF(old(eventos), f, p) ::
                (old(eventos)[p].status != EventoRascunho ==> r == Err(EventoNaoRascunho))
                && (old(eventos)[p].status == EventoRascunho ==> r.Ok? && r.value.evento == p)
      ensures (forall j | 0 <= j < |old(eventos)| :: !EhPFDa(old(eventos), j, f)) ==>
                var fp := folhas[f];
                var v := ValidarEvento(fp, f, DescricaoPF(fp.mes, fp.ano), UltimoDia(fp.ano, fp.mes), old(eventos), None);
                (v.Fail? ==> r == Err(v.erro))
                && (v.Pass? ==>
                      r.Ok? && r.value.evento == |old(eventos)|
                      && eventos == old(eventos) + [EventoPagamento(f, PF, DescricaoPF(fp.mes, fp.ano), UltimoDia(fp.ano, fp.mes),
                                                                    None, EventoRascunho, Liquido(itens, cad.catalogo, DoEvento(|old(eventos)|)))])
      ensures r.Err? ==> itens == old(itens) && eventos == old(eventos) && resumos == old(resumos)
      ensures r.Ok? && r.value.evento < |old(eventos)| ==>
                eventos == old(eventos)[r.value.evento := old(eventos)[r.value.evento].(valorTotal := Liquido(itens, cad.catalogo, DoEvento(r.value.evento)))]
      ensures r.Ok? ==>
                var e := r.value.evento;
                e < |eventos| && eventos[e].status == EventoRascunho
                && r.value == ItemFolha(e, f, func, provento, Reais(valor), None, None)
                && itens == old(itens) + [r.value]
                && eventos[e].valorTotal == Liquido(itens, cad.catalogo, DoEvento(e))
                && resumos == old(resumos)[(f, func) := ResumoDe(itens, cad.catalogo, f, func)]
    {
      var p := PrimeiroEventoPF(f);
      if p.Some? {
        r := LancarNoPF(f, p.value, func, provento, valor);
      } else {
        r := LancarNoNovoPF(f, func, provento, valor);
      }
    }

    /** `adicionar_item_manual`: the given event; else, with a competence, its first final-payment
        event or a new one; it must be a draft (the competence's status is not looked at); then
        the item, which is the result. */
    method AdicionarItemManual(folha: Option<nat>, evento: Option<nat>, func: nat, provento: nat, valor: int)
      returns (r: Result<ItemFolha>)
      requires Valid()
      requires folha.Some? ==> folha.value < |folhas|
      requires evento.Some? ==> evento.value < |eventos|
      requires func < |cad.funcionarios| && provento < |cad.catalogo|
      modifies this`eventos, this`itens, this`resumos
      ensures Valid()
      ensures evento.None? && folha.None? ==> r == Err(EventoNaoEspecificado)
      ensures evento.Some? ==>
                (old(eventos)[evento.value].status != EventoRascunho ==> r == Err(EventoNaoRascunho))
                && (old(eventos)[evento.value].status == EventoRascunho ==> r.Ok? && r.value.evento == evento.value)
      ensures evento.None? && folha.Some? ==>
                forall p: nat | PrimeiroPF(old(eventos), folha.value, p) ::
                  (old(eventos)[p].status != EventoRascunho ==> r == Err(EventoNaoRascunho))
                  && (old(eventos)[p].status == EventoRascunho ==> r.Ok? && r.value.evento == p)
      ensures evento.None? && folha.Some? && (forall j | 0 <= j < |old(eventos)| :: !EhPFDa(old(eventos), j, folha.value)) ==>
                var fp := folhas[folha.value];
                var v := ValidarEvento(fp, folha.value, DescricaoPF(fp.mes, fp.ano), UltimoDia(fp.ano, fp.mes), old(eventos), None);
                (v.Fail? ==> r == Err(v.erro))
                && (v.Pass? ==>
                      r.Ok? && r.value.evento == |old(eventos)|
                      && eventos == old(eventos) + [EventoPagamento(folha.value, PF, DescricaoPF(fp.mes, fp.ano), UltimoDia(fp.ano, fp.mes),
                                                                    None, EventoRascunho, Liquido(itens, cad.catalogo, DoEvento(|old(eventos)|)))])
      ensures r.Err? ==> itens == old(itens) && eventos == old(eventos) && resumos == old(resumos)
      ensures r.Ok? && r.value.evento < |old(eventos)| ==>
                eventos == old(eventos)[r.value.evento := old(eventos)[r.value.evento].(valorTotal := Liquido(itens, cad.catalogo, DoEvento(r.value.evento)))]
      ensures r.Ok? && evento.None? ==> folha.Some? && r.value.folha == folha.value
      ensures r.Ok? ==>
                var e := r.value.evento;
                e < |eventos| && eventos[e].status == EventoRascunho
                && r.value == ItemFolha(e, eventos[e].folha, func, provento, Reais(valor), None, None)
                && itens == old(itens) + [r.value]
                && eventos[e].valorTotal == Liquido(itens, cad.catalogo, DoEvento(e))
                && resumos == old(resumos)[(r.value.folha, func) := ResumoDe(itens, cad.catalogo, r.value.folha, func)]
    {
      if evento.Some? {
        r := LancarSeRascunho(evento.value, func, provento, valor);
      } else if folha.None? {
        r := Err(EventoNaoEspecificado);
      } else {
        r := AdicionarItemNaFolha(folha.value, func, provento, valor);
      }
    }

    /** `remover_item`: the item's event must be a draft; the item is deleted (an advance it deducted
        stays deducted), then the event's total and the employee's summary are recomputed. */
    method RemoverItem(k: nat) returns (r: Outcome)
      requires Valid() && k < |itens|
      modifies this`eventos, this`itens, this`resumos
      ensures Valid()
      ensures var it := old(itens)[k];
              (old(eventos)[it.evento].status != EventoRascunho <==> r.Fail?)
              && (r.Fail? ==> r == Fail(EventoNaoRascunho))
              && (r.Fail? ==> itens == old(itens) && eventos == old(eventos) && resumos == old(resumos))
              && (r.Pass? ==>
                    itens == old(itens)[..k] + old(itens)[k + 1..]
                    && eventos == old(eventos)[it.evento := old(eventos)[it.evento].(valorTotal := Liquido(itens, cad.catalogo, DoEvento(it.evento)))]
                    && Liquido(itens, cad.catalogo, DoEvento(it.evento))
                       == Liquido(old(itens), cad.catalogo, DoEvento(it.evento)) - Efeito(it, cad.catalogo)
                    && resumos == old(resumos)[(it.folha, it.funcionario) := ResumoDe(itens, cad.catalogo, it.folha, it.funcionario)])
    {
      var it := itens[k];
      if eventos[it.evento].status != EventoRascunho {
        return Fail(EventoNaoRascunho);
      }
      RemoverDoConsistente(cad, adiantamentos, folhas, eventos, itens, k);
      LiquidoSemItem(itens, k, cad.catalogo, DoEvento(it.evento));
      itens := itens[..k] + itens[k + 1..];
      CalcularValorTotal(it.evento);
      CriarResumoFuncionario(it.folha, it.funcionario);
      r := Pass;
    }

    // ------------------------------------------------------------ AdiantamentoService

    /** `AdiantamentoService.lancar_adiantamento_massivo`: an amount or a percentage is required;
        then one pending advance, unrounded, dated on the given day or today, per employee passing
        the filter, in primary-key order; the result is how many were recorded. */
    method LancarAdiantamentoMassivo(filtro: Funcionario -> bool, valor: Option<int>, percentual: Option<int>,
                                     data: Option<Data>, hoje: Data) returns (r: Result<nat>)
      requires Valid()
      modifies this`adiantamentos
      ensures Valid()
      ensures !Truthy(valor) && !Truthy(percentual) <==> r.Err?
      ensures r.Err? ==> r == Err(ValorOuPercentualAusente) && adiantamentos == old(adiantamentos)
      ensures r.Ok? ==>
                var sel := Filtrar(cad, Lancamentos.Todos(|cad.funcionarios|), filtro, |cad.funcionarios|);
                r.value == |sel| && adiantamentos == old(adiantamentos) + NovosAdiantamentos(cad, sel, data.GetOr(hoje), valor, percentual, false)
    {
      if !Truthy(valor) && !Truthy(percentual) {
        return Err(ValorOuPercentualAusente);
      }
      var dia := data.GetOr(hoje);
      var sel := Filtrar(cad, Lancamentos.Todos(|cad.funcionarios|), filtro, |cad.funcionarios|);
      ghost var ads0 := adiantamentos;
      var _, quantidade := RegistrarAdiantamentos(sel, dia, valor, percentual, false);
      AnexarAdiantamentos(cad, ads0, folhas, eventos, itens, NovosAdiantamentos(cad, sel, dia, valor, percentual, false));
      r := Ok(quantidade);
    }

    // ------------------------------------------------------------ status transitions

    /** `FolhaPagamento.fechar_folha` on competence f, at instant `agora`. */
    method FecharFolha(f: nat, agora: int) returns (r: Outcome)
      requires Valid() && f < |folhas|
      modifies this`folhas
      ensures Valid()
      ensures var t := FolhaModels.FecharFolha(old(folhas)[f], agora);
              (t.Err? ==> r == Fail(t.erro) && folhas == old(folhas))
              && (t.Ok? ==> r == Pass && folhas == old(folhas)[f := t.value])
    {
      var t := FolhaModels.FecharFolha(folhas[f], agora);
      if t.Err? {
        return Fail(t.erro);
      }
      TransicoesFolhaConsistentes(folhas[f], agora);
      AtualizarFolha(cad, adiantamentos, folhas, eventos, itens, f, t.value);
      folhas := folhas[f := t.value];
      r := Pass;
    }

    /** `FolhaPagamento.reabrir_folha` on competence f. */
    method ReabrirFolha(f: nat) returns (r: Outcome)
      requires Valid() && f < |folhas|
      modifies this`folhas
      ensures Valid()
      ensures var t := FolhaModels.ReabrirFolha(old(folhas)[f]);
              (t.Err? ==> r == Fail(t.erro) && folhas == old(folhas))
              && (t.Ok? ==> r == Pass && folhas == old(folhas)[f := t.value])
    {
      var t := FolhaModels.ReabrirFolha(folhas[f]);
      if t.Err? {
        return Fail(t.erro);
      }
      TransicoesFolhaConsistentes(folhas[f], 0);
      AtualizarFolha(cad, adiantamentos, folhas, eventos, itens, f, t.value);
      folhas := folhas[f := t.value];
      r := Pass;
    }

    /** `FolhaPagamento.marcar_como_paga` on competence f. */
    method MarcarFolhaComoPaga(f: nat) returns (r: Outcome)
      requires Valid() && f < |folhas|
      modifies this`folhas
      ensures Valid()
      ensures var t := FolhaModels.MarcarFolhaComoPaga(old(folhas)[f]);
              (t.Err? ==> r == Fail(t.erro) && folhas == old(folhas))
              && (t.Ok? ==> r == Pass && folhas == old(folhas)[f := t.value])
    {
      var t := FolhaModels.MarcarFolhaComoPaga(folhas[f]);
      if t.Err? {
        return Fail(t.erro);
      }
      TransicoesFolhaConsistentes(folhas[f], 0);
      AtualizarFolha(cad, adiantamentos, folhas, eventos, itens, f, t.value);
      folhas := folhas[f := t.value];
      r := Pass;
    }

    /** `EventoPagamento.fechar_evento` on event e: its net is taken at this moment. */
    method FecharEvento(e: nat) returns (r: Outcome)
      requires Valid() && e < |eventos|
      modifies this`eventos
      ensures Valid()
      ensures var t := FolhaModels.FecharEvento(old(eventos)[e], Liquido(itens, cad.catalogo, DoEvento(e)));
              (t.Err? ==> r == Fail(t.erro) && eventos == old(eventos))
              && (t.Ok? ==> r == Pass && eventos == old(eventos)[e := t.value])
    {
      var t := FolhaModels.FecharEvento(eventos[e], Liquido(itens, cad.catalogo, DoEvento(e)));
      if t.Err? {
        return Fail(t.erro);
      }
      AtualizarEvento(cad, adiantamentos, folhas, eventos, itens, e, t.value);
      eventos := eventos[e := t.value];
      r := Pass;
    }

    /** `EventoPagamento.marcar_como_pago` on event e, paid on `data` or else `hoje`. */
    method MarcarEventoComoPago(e: nat, data: Option<Data>, hoje: Data) returns (r: Outcome)
      requires Valid() && e < |eventos|
      modifies this`eventos
      ensures Valid()
      ensures var t := FolhaModels.MarcarEventoComoPago(old(eventos)[e], data, hoje);
              (t.Err? ==> r == Fail(t.erro) && eventos == old(eventos))
              && (t.Ok? ==> r == Pass && eventos == old(eventos)[e := t.value])
    {
      var t := FolhaModels.MarcarEventoComoPago(eventos[e], data, hoje);
      if t.Err? {
        return Fail(t.erro);
      }
      AtualizarEvento(cad, adiantamentos, folhas, eventos, itens, e, t.value);
      eventos := eventos[e := t.value];
      r := Pass;
    }

    /** `EventoPagamento.reabrir_evento` on event e. */
    method ReabrirEvento(e: nat) returns (r: Outcome)
      requires Valid() && e < |eventos|
      modifies this`eventos
      ensures Valid()
      ensures var t := FolhaModels.ReabrirEvento(old(eventos)[e]);
              (t.Err? ==> r == Fail(t.erro) && eventos == old(eventos))
              && (t.Ok? ==> r == Pass && eventos == old(eventos)[e := t.value])
    {
      var t := FolhaModels.ReabrirEvento(eventos[e]);
      if t.Err? {
        return Fail(t.erro);
      }
      AtualizarEvento(cad, adiantamentos, folhas, eventos, itens, e, t.value);
      eventos := eventos[e := t.value];
      r := Pass;
    }

    // ------------------------------------------------------------ closing a final-payment event

    /** The sweep of the close view: `_lancar_adiantamentos` for the employee of every attached
        contract, in order. */
    method VarrerAdiantamentos(f: nat, e: nat, funcs: seq<nat>)
      requires Valid() && e < |eventos| && eventos[e].folha == f
      requires forall k | 0 <= k < |funcs| :: funcs[k] < |cad.funcionarios|
      modifies this`itens, this`adiantamentos
      ensures Valid()
      ensures var v := Varredura(old(adiantamentos), f, e, funcs, |funcs|);
              itens == old(itens) + v.0 && adiantamentos == v.1
    {
      ghost var itens0, ads0 := itens, adiantamentos;
      var i := 0;
      while i < |funcs|
        invariant 0 <= i <= |funcs|
        invariant Rastreabilidade(itens, adiantamentos)
        invariant var v := Varredura(ads0, f, e, funcs, i);
                  itens == itens0 + v.0 && adiantamentos == v.1
      {
        ghost var v := Varredura(ads0, f, e, funcs, i);
        VarreduraPasso(ads0, f, e, funcs, i);
        LancarAdiantamentos(f, e, funcs[i]);
        AnexarSeq(itens0, v.0, ItensAdiantamentos(v.1, |v.1|, f, e, funcs[i]));
        i := i + 1;
      }
      VarreduraValida(cad, ads0, f, e, funcs);
      AnexarDebitos(cad, ads0, adiantamentos, folhas, eventos, itens0, Varredura(ads0, f, e, funcs, |funcs|).0);
    }

    /** The close view of folha/views.py for event e, as written: for a final-payment event, the
        sweep of pending advances first, then `fechar_evento`. There is no transaction around the
        two, so when closing fails the sweep's debits and deductions stay. */
    method FecharEventoPagamentoFinal(e: nat) returns (r: Outcome)
      requires Valid() && e < |eventos|
      modifies this`eventos, this`itens, this`adiantamentos
      ensures Valid()
      ensures var ev := old(eventos)[e];
              var funcs := FuncionariosDe(cad, folhas[ev.folha].contratosAtivos);
              var v := Varredura(old(adiantamentos), ev.folha, e, funcs, |funcs|);
              (ev.tipo == PF ==> itens == old(itens) + v.0 && adiantamentos == v.1)
              && (ev.tipo != PF ==> itens == old(itens) && adiantamentos == old(adiantamentos))
      ensures var t := FolhaModels.FecharEvento(old(eventos)[e], Liquido(itens, cad.catalogo, DoEvento(e)));
              (t.Err? ==> r == Fail(t.erro) && eventos == old(eventos))
              && (t.Ok? ==> r == Pass && eventos == old(eventos)[e := t.value])
    {
      if eventos[e].tipo == PF {
        var f := eventos[e].folha;
        VarrerAdiantamentos(f, e, FuncionariosDe(cad, folhas[f].contratosAtivos));
      }
      r := FecharEvento(e);
    }

    /** The close view with the status checked before the sweep: closing a final-payment event that
        is not a draft changes nothing. */
    method FecharEventoPagamentoFinalCorrigido(e: nat) returns (r: Outcome)
      requires Valid() && e < |eventos|
      modifies this`eventos, this`itens, this`adiantamentos
      ensures Valid()
      ensures old(eventos)[e].status != EventoRascunho <==> r.Fail?
      ensures r.Fail? ==> r == Fail(EventoNaoPodeSerFechado)
      ensures r.Fail? ==> eventos == old(eventos) && itens == old(itens) && adiantamentos == old(adiantamentos)
      ensures r.Pass? ==>
                var ev := old(eventos)[e];
                var funcs := FuncionariosDe(cad, folhas[ev.folha].contratosAtivos);
                var v := Varredura(old(adiantamentos), ev.folha, e, funcs, |funcs|);
                (ev.tipo == PF ==> itens == old(itens) + v.0 && adiantamentos == v.1)
                && (ev.tipo != PF ==> itens == old(itens) && adiantamentos == old(adiantamentos))
                && eventos == old(eventos)[e := ev.(status := EventoFechado, valorTotal := Liquido(itens, cad.catalogo, DoEvento(e)))]
    {
      if eventos[e].status != EventoRascunho {
        return Fail(EventoNaoPodeSerFechado);
      }
      r := FecharEventoPagamentoFinal(e);
    }
  }
}
