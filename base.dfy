/** Shared vocabulary: optional values, results and the validation errors the payroll code raises.
    Every error below but the last is a `ValidationError` in the system; the constructor names its
    message. */
module Base {

  datatype Option<T> = None | Some(value: T) {
    function GetOr(default: T): T {
      match this
      case Some(v) => v
      case None => default
    }
  }

  datatype Erro =
    // FolhaPagamento.full_clean
    | MesInvalido
    | AnoInvalido
    | FolhaDuplicada
    // EventoPagamento.full_clean
    | DescricaoInvalida
    | DescricaoDuplicada
    | DataForaDaCompetencia
    // services
    | FolhaNaoRascunho
    | ValorOuPercentualAusente
    | ParcelaInvalida
    | EventoNaoEspecificado
    | EventoNaoRascunho
    // state machines
    | FolhaNaoPodeSerFechada
    | FolhaNaoPodeSerReaberta
    | FolhaNaoPodeSerPaga
    | EventoNaoPodeSerFechado
    | EventoNaoPodeSerPago
    | EventoNaoPodeSerReaberto
    // clean() of the employee-side models
    | DataFimAnteriorAoInicio
    | ValorEPercentualAmbos
    | ContratoSobreposto
    | InicioGozoPosterior
    | PeriodoAquisitivoInvalido
    // the `ValueError` of `datetime.date` for a year past 9999
    | AnoForaDoCalendario

  datatype Result<T> = Ok(value: T) | Err(erro: Erro)

  datatype Outcome = Pass | Fail(erro: Erro)

  /** Python truthiness of an optional Decimal: `None` and zero are both falsy. */
  predicate Truthy(o: Option<int>) {
    o.Some? && o.value != 0
  }
}
