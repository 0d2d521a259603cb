/** Employee-side records of funcionarios/models.py: Funcionario (with its superior chain),
    Contrato, LancamentoFixo, Adiantamento and Ferias. */
module Funcionarios {
  import opened Base
  import opened Datas
  import opened Core

  datatype StatusFuncionario = Ativo | Inativo | EmFerias | Licenca

  /** `salarioBase` in cents (a two-place `DecimalField` with minimum 0); `superior` is the
      primary key of another employee, or null. */
  datatype Funcionario = Funcionario(
    nome: string,
    salarioBase: nat,
    status: StatusFuncionario,
    participaFolha: bool,
    superior: Option<nat>,
    setor: nat,
    funcao: nat)

  datatype Contrato = Contrato(
    funcionario: nat,
    inicio: Data,
    fim: Option<Data>,
    cargaHoraria: int)

  predicate FimAntesDoInicio(inicio: Data, fim: Option<Data>) {
    fim.Some? && Menor(fim.value, inicio)
  }

  /** `Contrato.esta_ativo`, with today as a parameter. */
  function ContratoEstaAtivo(c: Contrato, hoje: Data): (r: bool)
    ensures r <==> MenorOuIgual(c.inicio, hoje) && (c.fim.None? || MenorOuIgual(hoje, c.fim.value))
  {
    AtivoEm(c.inicio, c.fim, hoje)
  }

  // ---------------------------------------------------------------- Contrato.clean

  /** Index i is one of the contracts Contrato.clean compares against: same employee, other pk. */
  predicate Outro(contratos: seq<Contrato>, pk: Option<nat>, novo: Contrato, i: int) {
    0 <= i < |contratos| && contratos[i].funcionario == novo.funcionario && pk != Some(i)
  }

  /** The rejection test of Contrato.clean's loop, as written: one test when the existing contract
      is open-ended, another when it has an end date. */
  predicate ConflitaComoEscrito(novo: Contrato, c: Contrato) {
    if c.fim.None? then
      (novo.fim.None? || MenorOuIgual(c.inicio, novo.fim.value))
      && (MenorOuIgual(novo.inicio, c.inicio) || novo.fim.None?)
    else
      MenorOuIgual(novo.inicio, c.fim.value)
      && (novo.fim.None? || MenorOuIgual(c.inicio, novo.fim.value))
  }

  /** The closed intervals [inicio, fim] (fim absent meaning unbounded) intersect. */
  predicate Sobrepoe(a: Contrato, b: Contrato) {
    (b.fim.None? || MenorOuIgual(a.inicio, b.fim.value))
    && (a.fim.None? || MenorOuIgual(b.inicio, a.fim.value))
  }

  /** `Contrato.clean` as written: rejects an end before the start, then rejects the first other
      contract of the same employee that the loop's test flags. */
  method CleanContrato(novo: Contrato, pk: Option<nat>, contratos: seq<Contrato>) returns (r: Outcome)
    ensures r == Fail(DataFimAnteriorAoInicio) <==> FimAntesDoInicio(novo.inicio, novo.fim)
    ensures r == Fail(ContratoSobreposto) <==>
              !FimAntesDoInicio(novo.inicio, novo.fim)
              && exists i :: Outro(contratos, pk, novo, i) && ConflitaComoEscrito(novo, contratos[i])
    ensures r.Pass? || r == Fail(DataFimAnteriorAoInicio) || r == Fail(ContratoSobreposto)
  {
    if FimAntesDoInicio(novo.inicio, novo.fim) {
      return Fail(DataFimAnteriorAoInicio);
    }
    var i := 0;
    while i < |contratos|
      invariant 0 <= i <= |contratos|
      invariant forall j | 0 <= j < i :: !(Outro(contratos, pk, novo, j) && ConflitaComoEscrito(novo, contratos[j]))
    {
      if Outro(contratos, pk, novo, i) && ConflitaComoEscrito(novo, contratos[i]) {
        return Fail(ContratoSobreposto);
      }
      i := i + 1;
    }
    return Pass;
  }

  /** Against a contract with an end date, the written test is exactly interval overlap. */
  lemma ConflitaComFimEhSobreposicao(novo: Contrato, c: Contrato)
    requires c.fim.Some?
    ensures ConflitaComoEscrito(novo, c) <==> Sobrepoe(novo, c)
  {
  }

  /** Against an open-ended contract, everything the written test rejects does overlap, but it
      also asks that the new contract start no later than the old one or be open-ended itself. */
  lemma ConflitaSemFimExigeMais(novo: Contrato, c: Contrato)
    requires c.fim.None?
    ensures ConflitaComoEscrito(novo, c) <==>
              Sobrepoe(novo, c) && (MenorOuIgual(novo.inicio, c.inicio) || novo.fim.None?)
  {
  }

  /** A bounded contract that starts after an open-ended one is accepted although they overlap:
      February-March 2024 against an open contract from January 2024. */
  lemma SobreposicaoAceita()
    ensures var aberto := Contrato(7, Date(2024, 1, 1), None, 40);
            var novo := Contrato(7, Date(2024, 2, 1), Some(Date(2024, 3, 31)), 40);
            Sobrepoe(novo, aberto) && !ConflitaComoEscrito(novo, aberto)
  {
  }

  /** Intervals overlap exactly when some day lies in both, for well-formed contracts. */
  lemma SobrepoeSeCompartilhamDia(a: Contrato, b: Contrato)
    requires !FimAntesDoInicio(a.inicio, a.fim) && !FimAntesDoInicio(b.inicio, b.fim)
    ensures Sobrepoe(a, b) <==> exists d: Data :: ContratoEstaAtivo(a, d) && ContratoEstaAtivo(b, d)
  {
    if Sobrepoe(a, b) {
      var d: Data := if MenorOuIgual(a.inicio, b.inicio) then b.inicio else a.inicio;
      MenorOuIgualTotal(a.inicio, b.inicio);
      assert ContratoEstaAtivo(a, d) && ContratoEstaAtivo(b, d);
    }
  }

  /** The overlap check the error message describes: it rejects every other contract of the same
      employee whose interval intersects the new one. */
  method CleanContratoCorrigido(novo: Contrato, pk: Option<nat>, contratos: seq<Contrato>) returns (r: Outcome)
    ensures r == Fail(DataFimAnteriorAoInicio) <==> FimAntesDoInicio(novo.inicio, novo.fim)
    ensures r == Fail(ContratoSobreposto) <==>
              !FimAntesDoInicio(novo.inicio, novo.fim)
              && exists i :: Outro(contratos, pk, novo, i) && Sobrepoe(novo, contratos[i])
    ensures r.Pass? || r == Fail(DataFimAnteriorAoInicio) || r == Fail(ContratoSobreposto)
  {
    if FimAntesDoInicio(novo.inicio, novo.fim) {
      return Fail(DataFimAnteriorAoInicio);
    }
    var i := 0;
    while i < |contratos|
      invariant 0 <= i <= |contratos|
      invariant forall j | 0 <= j < i :: !(Outro(contratos, pk, novo, j) && Sobrepoe(novo, contratos[j]))
    {
      if Outro(contratos, pk, novo, i) && Sobrepoe(novo, contratos[i]) {
        return Fail(ContratoSobreposto);
      }
      i := i + 1;
    }
    return Pass;
  }

  // ---------------------------------------------------------------- LancamentoFixo

  /** A per-employee fixed entry; amounts in cents, percentages in hundredths of a percent. */
  datatype LancamentoFixo = LancamentoFixo(
    funcionario: nat,
    provento: nat,
    valor: Option<int>,
    percentual: Option<int>,
    inicio: Data,
    fim: Option<Data>)

  /** `LancamentoFixo.clean`: the same guard chain as `Core.CleanLancamentoGeral`, both being
      `Core.ValidarLancamento` on the entry's dates, amount and percentage. */
  function CleanLancamentoFixo(l: LancamentoFixo): (r: Outcome)
    ensures r.Pass? <==> (l.fim.None? || MenorOuIgual(l.inicio, l.fim.value)) && (Truthy(l.valor) != Truthy(l.percentual))
    ensures r.Fail? && (l.fim.None? || MenorOuIgual(l.inicio, l.fim.value)) ==>
              r.erro == (if Truthy(l.valor) then ValorEPercentualAmbos else ValorOuPercentualAusente)
  {
    ValidarLancamento(l.inicio, l.fim, l.valor, l.percentual)
  }

  /** `LancamentoFixo.esta_ativo`, with today as a parameter. */
  function LancamentoFixoEstaAtivo(l: LancamentoFixo, hoje: Data): (r: bool)
    ensures r <==> MenorOuIgual(l.inicio, hoje) && (l.fim.None? || MenorOuIgual(hoje, l.fim.value))
  {
    AtivoEm(l.inicio, l.fim, hoje)
  }

  // ---------------------------------------------------------------- Adiantamento

  datatype StatusAdiantamento = Pendente | Descontado | Cancelado

  /** `valor` in micro-reais: the bulk service stores unrounded percentages. */
  datatype Adiantamento = Adiantamento(
    funcionario: nat,
    data: Data,
    valor: int,
    status: StatusAdiantamento)

  /** `Adiantamento.objects.create` without a status: the field's default is 'P'. */
  function NovoAdiantamento(funcionario: nat, data: Data, valor: int): (a: Adiantamento)
    ensures a.status == Pendente
    ensures a.funcionario == funcionario && a.data == data && a.valor == valor
  {
    Adiantamento(funcionario, data, valor, Pendente)
  }

  // ---------------------------------------------------------------- Ferias

  datatype StatusFerias = Programada | EmGozo | Concluida | CanceladaF

  class Ferias {
    var funcionario: nat
    var aquisitivoInicio: Data
    var aquisitivoFim: Data
    var gozoInicio: Data
    var gozoFim: Data
    var diasCorridos: int
    var status: StatusFerias

    constructor (funcionario: nat, aquisitivoInicio: Data, aquisitivoFim: Data, gozoInicio: Data, gozoFim: Data)
      ensures this.funcionario == funcionario
      ensures this.aquisitivoInicio == aquisitivoInicio && this.aquisitivoFim == aquisitivoFim
      ensures this.gozoInicio == gozoInicio && this.gozoFim == gozoFim
      ensures diasCorridos == 30 && status == Programada
    {
      this.funcionario := funcionario;
      this.aquisitivoInicio := aquisitivoInicio;
      this.aquisitivoFim := aquisitivoFim;
      this.gozoInicio := gozoInicio;
      this.gozoFim := gozoFim;
      diasCorridos := 30;
      status := Programada;
    }

    /** `Ferias.clean`: rejects a leave that ends before it starts, then an acquisition period that
        ends before it starts; otherwise records the calendar days of the leave, both ends counted. */
    method Clean() returns (r: Outcome)
      modifies this`diasCorridos
      ensures r == Fail(InicioGozoPosterior) <==> Menor(gozoFim, gozoInicio)
      ensures r == Fail(PeriodoAquisitivoInvalido) <==> !Menor(gozoFim, gozoInicio) && Menor(aquisitivoFim, aquisitivoInicio)
      ensures r.Pass? || r == Fail(InicioGozoPosterior) || r == Fail(PeriodoAquisitivoInvalido)
      ensures r.Pass? ==> diasCorridos == Ordinal(gozoFim) - Ordinal(gozoInicio) + 1 && diasCorridos >= 1
      ensures r.Fail? ==> diasCorridos == old(diasCorridos)
    {
      if Menor(gozoFim, gozoInicio) {
        return Fail(InicioGozoPosterior);
      }
      if Menor(aquisitivoFim, aquisitivoInicio) {
        return Fail(PeriodoAquisitivoInvalido);
      }
      OrdinalOrdena(gozoFim, gozoInicio);
      diasCorridos := Ordinal(gozoFim) - Ordinal(gozoInicio) + 1;
      return Pass;
    }
  }

  // ---------------------------------------------------------------- superior chain

  /** The superiors above `atual`, nearest first, if the chain reaches its top within `fuel`
      steps through existing employees. */
  function Cadeia(funcionarios: seq<Funcionario>, atual: Option<nat>, fuel: nat): Option<seq<nat>>
    decreases fuel
  {
    match atual
    case None => Some([])
    case Some(s) =>
      if fuel == 0 || s >= |funcionarios| then None
      else match Cadeia(funcionarios, funcionarios[s].superior, fuel - 1)
        case None => None
        case Some(resto) => Some([s] + resto)
  }

  /** The chain above employee `id` is acyclic: it ends within as many steps as there are employees. */
  predicate CadeiaFinita(funcionarios: seq<Funcionario>, id: nat)
    requires id < |funcionarios|
  {
    Cadeia(funcionarios, funcionarios[id].superior, |funcionarios|).Some?
  }

  /** More fuel never changes a chain that already ended. */
  lemma {:induction false} CadeiaEstavel(funcionarios: seq<Funcionario>, atual: Option<nat>, f1: nat, f2: nat)
    requires f1 <= f2 && Cadeia(funcionarios, atual, f1).Some?
    ensures Cadeia(funcionarios, atual, f2) == Cadeia(funcionarios, atual, f1)
    decreases f1
  {
    if atual.Some? {
      CadeiaEstavel(funcionarios, funcionarios[atual.value].superior, f1 - 1, f2 - 1);
    }
  }

  /** A chain that ends never repeats an employee, and every element is an existing employee. */
  lemma {:induction false} CadeiaSemRepeticao(funcionarios: seq<Funcionario>, atual: Option<nat>, fuel: nat)
    requires Cadeia(funcionarios, atual, fuel).Some?
    ensures var c := Cadeia(funcionarios, atual, fuel).value;
            (forall k | 0 <= k < |c| :: c[k] < |funcionarios|)
            && (forall k | 0 <= k < |c| :: c[k] !in c[k + 1..])
    decreases fuel
  {
    if atual.Some? {
      var s := atual.value;
      CadeiaSemRepeticao(funcionarios, funcionarios[s].superior, fuel - 1);
      InicioForaDoResto(funcionarios, s, fuel);
      SemRepeticaoPrefixar(s, Cadeia(funcionarios, funcionarios[s].superior, fuel - 1).value);
    }
  }

  /** An employee whose chain ends does not reappear above itself. */
  lemma InicioForaDoResto(funcionarios: seq<Funcionario>, s: nat, fuel: nat)
    requires Cadeia(funcionarios, Some(s), fuel).Some?
    ensures s !in Cadeia(funcionarios, funcionarios[s].superior, fuel - 1).value
  {
    var resto := Cadeia(funcionarios, funcionarios[s].superior, fuel - 1).value;
    if s in resto {
      var k :| 0 <= k < |resto| && resto[k] == s;
      CadeiaSufixo(funcionarios, funcionarios[s].superior, fuel - 1, k);
      CadeiaEstavel(funcionarios, Some(s), fuel - 1 - k, fuel);
      assert false;
    }
  }

  lemma SemRepeticaoPrefixar(s: nat, r: seq<nat>)
    requires s !in r && forall k | 0 <= k < |r| :: r[k] !in r[k + 1..]
    ensures forall k | 0 <= k < |[s] + r| :: ([s] + r)[k] !in ([s] + r)[k + 1..]
  {
    var c := [s] + r;
    forall k | 0 <= k < |c| ensures c[k] !in c[k + 1..] {
      if k == 0 {
        assert c[1..] == r;
      } else {
        assert c[k] == r[k - 1];
        assert c[k + 1..] == r[k..];
      }
    }
  }

  /** The part of a chain after its k-th element is the chain above that element. */
  lemma {:induction false} CadeiaSufixo(funcionarios: seq<Funcionario>, atual: Option<nat>, fuel: nat, k: nat)
    requires Cadeia(funcionarios, atual, fuel).Some? && k < |Cadeia(funcionarios, atual, fuel).value|
    ensures var c := Cadeia(funcionarios, atual, fuel).value;
            c[k] < |funcionarios| && fuel >= k + 1
            && Cadeia(funcionarios, Some(c[k]), fuel - k) == Some(c[k..])
    decreases k
  {
    var s := atual.value;
    if k > 0 {
      var resto := Cadeia(funcionarios, funcionarios[s].superior, fuel - 1).value;
      CadeiaSufixo(funcionarios, funcionarios[s].superior, fuel - 1, k - 1);
      assert ([s] + resto)[k..] == resto[k - 1..];
    }
  }

  /** `get_hierarquia_superior`: walks `superior` upward, collecting each employee met. */
  method HierarquiaSuperior(funcionarios: seq<Funcionario>, id: nat) returns (hierarquia: seq<nat>)
    requires id < |funcionarios| && CadeiaFinita(funcionarios, id)
    ensures Some(hierarquia) == Cadeia(funcionarios, funcionarios[id].superior, |funcionarios|)
  {
    hierarquia := [];
    var atual := funcionarios[id].superior;
    ghost var fuel: nat := |funcionarios|;
    ghost var total := Cadeia(funcionarios, atual, fuel).value;
    assert [] + total == total;
    while atual.Some?
      invariant Cadeia(funcionarios, atual, fuel).Some?
      invariant hierarquia + Cadeia(funcionarios, atual, fuel).value == total
      decreases fuel
    {
      ghost var resto := Cadeia(funcionarios, funcionarios[atual.value].superior, fuel - 1).value;
      assert (hierarquia + [atual.value]) + resto == hierarquia + ([atual.value] + resto);
      hierarquia := hierarquia + [atual.value];
      atual := funcionarios[atual.value].superior;
      fuel := fuel - 1;
    }
    assert hierarquia + [] == hierarquia;
  }

  /** `get_nivel_hierarquico`: the number of steps up to the top (0 for an employee with no superior). */
  method NivelHierarquico(funcionarios: seq<Funcionario>, id: nat) returns (nivel: nat)
    requires id < |funcionarios| && CadeiaFinita(funcionarios, id)
    ensures nivel == |Cadeia(funcionarios, funcionarios[id].superior, |funcionarios|).value|
  {
    nivel := 0;
    var atual := funcionarios[id].superior;
    ghost var fuel: nat := |funcionarios|;
    while atual.Some?
      invariant Cadeia(funcionarios, atual, fuel).Some?
      invariant nivel + |Cadeia(funcionarios, atual, fuel).value|
                == |Cadeia(funcionarios, funcionarios[id].superior, |funcionarios|).value|
      decreases fuel
    {
      nivel := nivel + 1;
      atual := funcionarios[atual.value].superior;
      fuel := fuel - 1;
    }
  }

  /** For an acyclic chain, the level is the length of the superior list, and that list names
      distinct existing employees. */
  method NivelEhTamanhoDaHierarquia(funcionarios: seq<Funcionario>, id: nat) returns (nivel: nat, hierarquia: seq<nat>)
    requires id < |funcionarios| && CadeiaFinita(funcionarios, id)
    ensures nivel == |hierarquia|
    ensures forall k | 0 <= k < |hierarquia| :: hierarquia[k] < |funcionarios| && hierarquia[k] !in hierarquia[k + 1..]
  {
    nivel := NivelHierarquico(funcionarios, id);
    hierarquia := HierarquiaSuperior(funcionarios, id);
    CadeiaSemRepeticao(funcionarios, funcionarios[id].superior, |funcionarios|);
  }

  // ---------------------------------------------------------------- superior assignment

  /** The superior `atribuir_superior_automatico` leaves on employee id just before it is saved: the
      one set by hand; else the sector's chief, unless that is the employee itself; else none. */
  function SuperiorAtribuido(id: nat, manual: Option<nat>, chefe: Option<nat>): (s: Option<nat>)
    ensures manual.Some? ==> s == manual
    ensures manual.None? ==> s != Some(id) && (s.Some? ==> s == chefe)
  {
    if manual.Some? then manual
    else if chefe.Some? && chefe.value != id then chefe
    else None
  }

  /** Saving employee id with that superior, as written: the chain it closes is not looked at. */
  function SalvarSuperior(funcionarios: seq<Funcionario>, id: nat, manual: Option<nat>, chefe: Option<nat>): (r: seq<Funcionario>)
    requires id < |funcionarios|
    ensures |r| == |funcionarios| && r[id].superior == SuperiorAtribuido(id, manual, chefe)
    ensures forall i | 0 <= i < |r| && i != id :: r[i] == funcionarios[i]
  {
    funcionarios[id := funcionarios[id].(superior := SuperiorAtribuido(id, manual, chefe))]
  }

  /** On the cycle 0 -> 1 -> 0 the walk never reaches a top, whatever the number of steps. */
  lemma {:induction false} CicloSemFim(funcionarios: seq<Funcionario>, fuel: nat)
    requires |funcionarios| == 2 && funcionarios[0].superior == Some(1) && funcionarios[1].superior == Some(0)
    ensures Cadeia(funcionarios, Some(0), fuel).None? && Cadeia(funcionarios, Some(1), fuel).None?
  {
    if fuel > 0 {
      CicloSemFim(funcionarios, fuel - 1);
    }
  }

  /** Two employees each made, by hand, the other's superior are both saved, and neither's chain ends. */
  lemma CicloAceito(funcionarios: seq<Funcionario>)
    requires |funcionarios| == 2
    ensures var g := SalvarSuperior(SalvarSuperior(funcionarios, 0, Some(1), None), 1, Some(0), None);
            !CadeiaFinita(g, 0) && !CadeiaFinita(g, 1)
            && forall fuel: nat :: Cadeia(g, g[0].superior, fuel).None? && Cadeia(g, g[1].superior, fuel).None?
  {
    var g := SalvarSuperior(SalvarSuperior(funcionarios, 0, Some(1), None), 1, Some(0), None);
    forall fuel: nat ensures Cadeia(g, g[0].superior, fuel).None? && Cadeia(g, g[1].superior, fuel).None? {
      CicloSemFim(g, fuel);
    }
  }

  /** The chain above s ends and does not pass through id: making s id's superior closes no cycle. */
  predicate SemCiclo(funcionarios: seq<Funcionario>, id: nat, s: Option<nat>) {
    Cadeia(funcionarios, s, |funcionarios|).Some? && id !in Cadeia(funcionarios, s, |funcionarios|).value
  }

  /** The save with the missing check: refused when the superior it would keep closes a cycle. */
  function SalvarSuperiorCorrigido(funcionarios: seq<Funcionario>, id: nat, manual: Option<nat>, chefe: Option<nat>)
    : (r: Option<seq<Funcionario>>)
    requires id < |funcionarios|
    ensures r.None? <==> !SemCiclo(funcionarios, id, SuperiorAtribuido(id, manual, chefe))
    ensures r.Some? ==> r.value == SalvarSuperior(funcionarios, id, manual, chefe)
  {
    if SemCiclo(funcionarios, id, SuperiorAtribuido(id, manual, chefe)) then Some(SalvarSuperior(funcionarios, id, manual, chefe))
    else None
  }

  /** Every employee's chain ends. */
  predicate HierarquiaFinita(funcionarios: seq<Funcionario>) {
    forall i | 0 <= i < |funcionarios| :: CadeiaFinita(funcionarios, i)
  }

  /** On a table whose chains all end, the corrected save is refused exactly when the save as
      written would leave some employee whose chain never ends; an accepted save keeps every chain
      finite. */
  lemma CorrigidoPreservaHierarquia(funcionarios: seq<Funcionario>, id: nat, manual: Option<nat>, chefe: Option<nat>)
    requires id < |funcionarios| && HierarquiaFinita(funcionarios)
    ensures SalvarSuperiorCorrigido(funcionarios, id, manual, chefe).None?
            <==> !HierarquiaFinita(SalvarSuperior(funcionarios, id, manual, chefe))
  {
    var s := SuperiorAtribuido(id, manual, chefe);
    var g := SalvarSuperior(funcionarios, id, manual, chefe);
    var n := |funcionarios|;
    if SemCiclo(funcionarios, id, s) {
      ForaDoCaminho(funcionarios, g, id, s, n);
      forall i | 0 <= i < n ensures CadeiaFinita(g, i) {
        if i != id {
          var a := funcionarios[i].superior;
          assert CadeiaFinita(funcionarios, i);
          if id in Cadeia(funcionarios, a, n).value {
            Desvio(funcionarios, g, id, a, n, n);
            CadeiaCurta(g, a, n + n);
          } else {
            ForaDoCaminho(funcionarios, g, id, a, n);
          }
        }
      }
    } else {
      assert s.Some?;
      var t := s.value;
      if t < n && Cadeia(funcionarios, s, n).None? {
        assert CadeiaFinita(funcionarios, t);
        assert Cadeia(funcionarios, s, n + 1).Some?;
        CadeiaCurta(funcionarios, s, n + 1);
        assert false;
      }
      if t < n {
        Laco(funcionarios, g, id, s, n, n);
      }
      assert !CadeiaFinita(g, id);
    }
  }

  /** A table g that differs from `funcionarios` only at id walks every chain that avoids id the same way. */
  lemma {:induction false} ForaDoCaminho(funcionarios: seq<Funcionario>, g: seq<Funcionario>, id: nat, a: Option<nat>, fuel: nat)
    requires |g| == |funcionarios| && forall i | 0 <= i < |g| && i != id :: g[i] == funcionarios[i]
    requires Cadeia(funcionarios, a, fuel).Some? && id !in Cadeia(funcionarios, a, fuel).value
    ensures Cadeia(g, a, fuel) == Cadeia(funcionarios, a, fuel)
    decreases fuel
  {
    if a.Some? {
      ForaDoCaminho(funcionarios, g, id, funcionarios[a.value].superior, fuel - 1);
    }
  }

  /** A chain through id, rerouted at id onto a chain of g that ends, ends too. */
  lemma {:induction false} Desvio(funcionarios: seq<Funcionario>, g: seq<Funcionario>, id: nat, a: Option<nat>, fuel: nat, m: nat)
    requires |g| == |funcionarios| && id < |g| && forall i | 0 <= i < |g| && i != id :: g[i] == funcionarios[i]
    requires Cadeia(funcionarios, a, fuel).Some? && id in Cadeia(funcionarios, a, fuel).value
    requires Cadeia(g, g[id].superior, m).Some?
    ensures Cadeia(g, a, fuel + m).Some?
    decreases fuel
  {
    var x := a.value;
    if x == id {
      CadeiaEstavel(g, g[id].superior, m, fuel + m - 1);
    } else {
      Desvio(funcionarios, g, id, funcionarios[x].superior, fuel - 1, m);
    }
  }

  /** When s's chain passes through id and g makes s id's superior, no walk through id ends in g. */
  lemma {:induction false} Laco(funcionarios: seq<Funcionario>, g: seq<Funcionario>, id: nat, a: Option<nat>, fuel0: nat, fuel: nat)
    requires |g| == |funcionarios| && id < |g| && forall i | 0 <= i < |g| && i != id :: g[i] == funcionarios[i]
    requires Cadeia(funcionarios, g[id].superior, |funcionarios|).Some?
    requires id in Cadeia(funcionarios, g[id].superior, |funcionarios|).value
    requires Cadeia(funcionarios, a, fuel0).Some? && id in Cadeia(funcionarios, a, fuel0).value
    ensures Cadeia(g, a, fuel).None?
    decreases fuel
  {
    if fuel > 0 {
      var x := a.value;
      if x == id {
        Laco(funcionarios, g, id, g[id].superior, |funcionarios|, fuel - 1);
      } else {
        Laco(funcionarios, g, id, funcionarios[x].superior, fuel0 - 1, fuel - 1);
      }
    }
  }

  /** A chain that ends within some number of steps ends within as many steps as there are employees. */
  lemma CadeiaCurta(funcionarios: seq<Funcionario>, a: Option<nat>, fuel: nat)
    requires Cadeia(funcionarios, a, fuel).Some?
    ensures Cadeia(funcionarios, a, |funcionarios|) == Cadeia(funcionarios, a, fuel)
  {
    var c := Cadeia(funcionarios, a, fuel).value;
    CadeiaNoTamanho(funcionarios, a, fuel);
    CadeiaSemRepeticao(funcionarios, a, fuel);
    DistintosCabem(c, Ate(|funcionarios|));
    CadeiaEstavel(funcionarios, a, |c|, |funcionarios|);
    CadeiaEstavel(funcionarios, a, |c|, fuel);
  }

  /** A chain of length k needs exactly k steps. */
  lemma {:induction false} CadeiaNoTamanho(funcionarios: seq<Funcionario>, a: Option<nat>, fuel: nat)
    requires Cadeia(funcionarios, a, fuel).Some?
    ensures |Cadeia(funcionarios, a, fuel).value| <= fuel
    ensures Cadeia(funcionarios, a, |Cadeia(funcionarios, a, fuel).value|) == Cadeia(funcionarios, a, fuel)
    decreases fuel
  {
    if a.Some? {
      CadeiaNoTamanho(funcionarios, funcionarios[a.value].superior, fuel - 1);
    }
  }

  /** A sequence without repetitions drawn from S is no longer than S is large. */
  lemma {:induction false} DistintosCabem(c: seq<nat>, S: set<nat>)
    requires forall k | 0 <= k < |c| :: c[k] in S
    requires forall k | 0 <= k < |c| :: c[k] !in c[k + 1..]
    ensures |c| <= |S|
  {
    if c != [] {
      var r := c[1..];
      forall k | 0 <= k < |r| ensures r[k] in S - {c[0]} && r[k] !in r[k + 1..] {
        assert r[k] == c[k + 1];
        assert r[k + 1..] == c[k + 2..];
      }
      DistintosCabem(r, S - {c[0]});
    }
  }

  /** The numbers below n. */
  function Ate(n: nat): (r: set<nat>)
    ensures |r| == n && forall k: nat :: k in r <==> k < n
  {
    if n == 0 then {} else Ate(n - 1) + {n - 1}
  }
}
