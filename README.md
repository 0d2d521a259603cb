# Payroll engine of `folha`, modelled in Dafny

The system is a Django payroll application. Its engine keeps:

- a master register: employees (`Funcionario`) with their superior chain, employment contracts (`Contrato`), per-employee fixed entries (`LancamentoFixo`), general fixed entries (`LancamentoFixoGeral`), salary advances (`Adiantamento`), leave (`Ferias`) and the catalogue of pay components (`ProventoDesconto`);
- on top of it, the monthly competence (`FolhaPagamento`), its payment events (`EventoPagamento`), line items (`ItemFolha`) and the per-employee summary rows (`ResumoFolhaFuncionario`).

The project models that engine:

- `base.dfy` (module `Base`): optional values, results and the validation errors the code raises.
- `datas.dfy` (`Datas`): Gregorian dates, their order, `toordinal` and `calendar.monthrange`.
- `dinheiro.dfy` (`Dinheiro`): money as integers of micro-reais. `Decimal.quantize(Decimal('0.01'))` is written out with the decimal module's default rounding, round-half-even.
- `core_models.dfy` (`Core`): pay components, general fixed entries, their `clean` and `esta_ativo`.
- `funcionarios_models.dfy` (`Funcionarios`): contracts and their overlap check, per-employee fixed entries, advances, leave (a class, because `Ferias.clean` writes `dias_corridos`), and the walks up the superior chain (methods with loops).
- `folha_models.dfy` (`FolhaModels`): validation of competences and events, the two status machines, the totals over items and events, and the summary row.
- `lancamentos.dfy` (`Lancamentos`): what each service posts, as functions of the master data. That covers:
  - contract eligibility;
  - fixed-entry valuation;
  - the items of the default final-payment event;
  - the deduction of pending advances, with the item's back-link to its advance;
  - the 13th-salary and bulk-advance amounts.
- `folha_services.dfy` (`FolhaServices`): the store as a class `Banco`. Every table is a sequence indexed by primary key, and the summaries are a map keyed by (competence, employee). There is one method per service operation and per state-changing model method. Each method keeps the store's invariant `Valid()`: foreign keys resolve, the stored rows pass their validations, and deductions are traceable. Each method either fails and leaves the store unchanged, or states its whole new state in terms of the functions above. The one exception is `FecharEventoPagamentoFinal`: as written, it can fail after its sweep has already posted debits and deducted advances (see "## Findings").

Where the documented design and the code differ, the model follows the code:

- Contract eligibility compares the start with the first day of the next month using `<=`, so it is inclusive. The documented rule is the strict half-open `<`. Fixed entries do use `<`. `Lancamentos.ContratoElegivelInclusivo` and `Lancamentos.AssimetriaInicioNoMesSeguinte` state the difference.
- The bulk-advance event rejects only the case where neither an amount nor a percentage is given. When both are given it does not reject: the amount wins.
- Rounding is round-half-even, which is the `quantize` default, not round-half-up.
- Contract overlap is not fully rejected, and a superior cycle can be saved. See "## Findings".
- Summaries are not refreshed after every item change. The 13th-salary event, `criar_evento_pagamento` with processing and the closing sweep post items without recomputing any summary. The model keeps them stale in the same way.

## Model

| member | source | states |
|---|---|---|
| `Datas.DiasNoMes` | folha/services.py:52-53 | Days in the month, between 28 and 31. It is 29 exactly for February of a leap year. |
| `Datas.UltimoDia` | folha/services.py:52-54 | The date lies in the given month and year, and no date of that month comes after it. |
| `Datas.PeriodoEhOMes` | folha/services.py:34-38 | A date lies in [first day, first day of the next month) exactly when it lies in that month. |
| `Datas.UltimoDiaAntecedeSeguinte` | folha/services.py:34-54 | The last day of a month is the day just before the first day of the next month. |
| `Datas.OrdinalOrdena` | funcionarios/models.py:371 | `toordinal` orders valid dates exactly as date comparison does, in both directions. |
| `Dinheiro.Reais` | folha/models.py:297-302 | A two-place amount becomes a whole number of cents at the model's scale, and the cents can be recovered from it. |
| `Dinheiro.Porcentagem` | folha/services.py:313-316 | `salario * percentual / 100` is exact at the model's scale: no rounding happens. |
| `Dinheiro.Fator` | folha/services.py:250 | `salario * 0.50` is exact at the model's scale. |
| `Dinheiro.Quantizar` | folha/services.py:184 | The result is a whole cent within half a cent of the input. On a tie it is the even cent. |
| `Dinheiro.QuantizarUnico` | folha/services.py:184 | Those three properties determine the rounded value uniquely. |
| `Dinheiro.QuantizarExato` | folha/services.py:178-184 | Quantizing an amount that is already whole cents leaves it unchanged. |
| `Dinheiro.SomaDeCentavos` | folha/services.py:247-260 | A sum of whole-cent amounts is whole cents. |
| `Dinheiro.QuantizarSomaDeQuantizados` | folha/services.py:260-262 | Quantizing the accumulated total of rounded amounts changes nothing. |
| `Dinheiro.SomaAnexar` | folha/services.py:194 | Accumulating one more amount adds it to the running total. |
| `Core.CatalogoSemeadoTipos` | folha/services.py:270-282 | The seeded components SALARIO, ADIANTAMENTO and SALARIO_13 carry their reference codes. SALARIO and SALARIO_13 are credits and ADIANTAMENTO is a debit. |
| `Core.ValidarLancamento` | core/models.py:166-174 | The guard chain. End before start fails first. Neither amount nor percentage truthy fails next. Both truthy fails last. It passes exactly when the interval is well-formed and exactly one is truthy. Each case is an if-and-only-if. |
| `Core.CleanLancamentoGeral` | core/models.py:162-174 | A general entry is accepted exactly when its end is not before its start and exactly one of amount and percentage is truthy. A zero counts as missing. Otherwise the error names the failing case. |
| `Core.AtivoEm` | core/models.py:187-189 | In force on a day exactly when start <= day, and day <= end when an end exists. |
| `Funcionarios.ContratoEstaAtivo` | funcionarios/models.py:213-219 | A contract is active on a day exactly when start <= day, and day <= end when an end exists. |
| `Funcionarios.CleanContrato` | funcionarios/models.py:180-207 | As written. It fails with the date error exactly when the end precedes the start. It fails with the overlap error exactly when some other contract of the same employee trips the loop's test. Otherwise it passes. |
| `Funcionarios.ConflitaComFimEhSobreposicao` | funcionarios/models.py:203-207 | Against a contract with an end date, the written test is exactly interval overlap. |
| `Funcionarios.ConflitaSemFimExigeMais` | funcionarios/models.py:196-201 | Against an open-ended contract, the written test is overlap plus one more condition: the new contract starts no later than the old one, or is itself open-ended. |
| `Funcionarios.SobreposicaoAceita` | funcionarios/models.py:196-201 | A concrete pair that overlaps and that the written test lets through. |
| `Funcionarios.SobrepoeSeCompartilhamDia` | funcionarios/models.py:194-207 | For well-formed contracts, the intervals overlap exactly when some day has both contracts active. |
| `Funcionarios.CleanContratoCorrigido` | funcionarios/models.py:180-207 | Corrected. It fails with the overlap error exactly when some other contract of the same employee overlaps the new one. |
| `Funcionarios.CleanLancamentoFixo` | funcionarios/models.py:271-281 | The same guard chain as `Core.CleanLancamentoGeral`, applied to a per-employee entry: accepted exactly when its end is not before its start and exactly one of amount and percentage is truthy. |
| `Funcionarios.NovoAdiantamento` | funcionarios/models.py:318 | A new advance is pending and keeps the given employee, date and amount. |
| `Funcionarios.Ferias.constructor` | funcionarios/models.py:346-351 | A new leave record holds the given dates, 30 calendar days and status "programmed". |
| `Funcionarios.Ferias.Clean` | funcionarios/models.py:362-372 | A leave ending before it starts is rejected first. An acquisition period ending before it starts is rejected next. Otherwise the leave's calendar days, both ends counted, are recorded (at least 1). A failure leaves the field unchanged. |
| `Funcionarios.CadeiaEstavel` | funcionarios/models.py:125-132 | A superior chain that has reached its top does not change with a larger step bound. |
| `Funcionarios.CadeiaSemRepeticao` | funcionarios/models.py:125-132 | A chain that reaches its top names only existing employees and never repeats one. |
| `Funcionarios.CadeiaSufixo` | funcionarios/models.py:125-132 | The part of a chain after its k-th member is the chain above that member. |
| `Funcionarios.HierarquiaSuperior` | funcionarios/models.py:125-132 | For an acyclic chain, the loop collects exactly the superiors up to the top, nearest first. |
| `Funcionarios.NivelHierarquico` | funcionarios/models.py:138-145 | For an acyclic chain, the loop counts exactly the steps up to the top. |
| `Funcionarios.NivelEhTamanhoDaHierarquia` | funcionarios/models.py:125-145 | The level equals the length of the superior list, and that list names distinct existing employees. |
| `FolhaModels.ValidarFolha` | folha/models.py:25-58 | Passes exactly when `full_clean` raises nothing: the set `ErrosFolha` of the month, year and duplicate errors raised together is empty. A failure reports one member of that set, the first entry of the error dictionary: a month below 1, then a year below 2000, then a month above 12, then another competence with the same month and year. Each of these is an if-and-only-if. |
| `FolhaModels.FecharFolha` | folha/models.py:90-97 | Succeeds exactly from draft. The result is closed with the closing instant recorded and nothing else changed. |
| `FolhaModels.ReabrirFolha` | folha/models.py:99-106 | Succeeds exactly from closed. The result is a draft with the closing instant cleared. |
| `FolhaModels.MarcarFolhaComoPaga` | folha/models.py:108-114 | Succeeds exactly from closed. The result is paid and nothing else changed. |
| `FolhaModels.TransicoesFolhaConsistentes` | folha/models.py:90-114 | Each transition keeps the closing instant set exactly while closed or paid. |
| `FolhaModels.FecharReabrirFolha` | folha/models.py:90-106 | Closing a draft and reopening it gives back the same competence. |
| `FolhaModels.FolhaPagaEhFinal` | folha/models.py:90-114 | A paid competence admits no transition. |
| `FolhaModels.ValidarEvento` | folha/models.py:194-211 | Passes exactly when `full_clean` raises nothing: the set `ErrosEvento` of the description, date and uniqueness errors raised together is empty. A failure reports one member of that set, the first one raised: a blank or over-long description, then a date outside the competence's month and year, then a description already used in the competence. Each of these is an if-and-only-if. |
| `FolhaModels.FecharEvento` | folha/models.py:243-250 | Succeeds exactly from draft. The result is closed, with the total set to the given net, and nothing else changed. |
| `FolhaModels.MarcarEventoComoPago` | folha/models.py:252-259 | Succeeds exactly from closed or draft. The result is paid on the given date, or on today when none is given. |
| `FolhaModels.ReabrirEvento` | folha/models.py:261-267 | Succeeds exactly from closed. The result is a draft with its total kept. |
| `FolhaModels.FecharReabrirEvento` | folha/models.py:243-267 | Closing then reopening a draft leaves only its total recomputed. |
| `FolhaModels.EventoPagoOuCanceladoEhFinal` | folha/models.py:243-267 | A paid or cancelled event admits no transition. |
| `FolhaModels.Decimal` | folha/services.py:59 | `str(n)` of a natural: a non-empty string of digits, with no leading zero, whose decimal value is n. |
| `FolhaModels.DescricaoPFSoletra` | folha/services.py:59 | The default description is "Pagamento Final ", two digits whose value is the month, "/", and the digits of the year. |
| `FolhaModels.DescricaoPFInjetiva` | folha/models.py:198 | Two competences with the same default description have the same month and year, so the uniqueness check on descriptions never confuses them. |
| `FolhaModels.DecimalCurto` | folha/services.py:59 | A year up to 9999 has at most four digits. |
| `FolhaModels.DescricaoPFValida` | folha/services.py:59 | The default description "Pagamento Final MM/AAAA" is non-blank and within the 200-character limit. |
| `FolhaModels.TotalConcat` | folha/models.py:69-83 | The total of a kind over two item lists is the sum of their totals. |
| `FolhaModels.TotalAnexar` | folha/models.py:217-231 | One more item adds exactly its share to a total. |
| `FolhaModels.TotalRemover` | folha/services.py:494-497 | Deleting an item subtracts exactly its share. |
| `FolhaModels.TotalForaDoEscopo` | folha/models.py:217-231 | Items outside the scope leave its total at 0: an empty sum is 0. |
| `FolhaModels.LiquidoComItem` | folha/services.py:467-477 | Adding an item of the event moves its net by the item's effect: plus the amount for a credit, minus it for a debit. |
| `FolhaModels.LiquidoSemItem` | folha/services.py:494-497 | Deleting an item of the event moves its net back by the item's effect. |
| `FolhaModels.TotalMesmoEscopo` | folha/models.py:69-88 | Two scopes that select the same items have the same totals. |
| `FolhaModels.LiquidoAnexar` | folha/models.py:233-236 | The net is credits minus debits: each item counts towards exactly one kind. |
| `FolhaModels.TotalDoFuncionarioNaFolha` | folha/models.py:380-395 | When a competence's items are all one employee's, that employee's totals are the competence's totals. |
| `FolhaModels.ResumoDe` | folha/models.py:380-397 | The summary's net is its credits minus its debits, and equals the employee's net across every event of the competence. |
| `FolhaModels.ResumoIgnoraOutros` | folha/models.py:380-397 | Items of other employees or competences leave an employee's summary unchanged. |
| `Funcionarios.SuperiorAtribuido` | funcionarios/signals.py:21-37 | A superior set by hand is kept. Otherwise the sector's chief is taken, and never the employee itself. |
| `Funcionarios.SalvarSuperior` | funcionarios/signals.py:9-37 | As written. The employee gets that superior, and no other row changes. |
| `Funcionarios.CicloSemFim` | funcionarios/models.py:125-145 | On the cycle 0 -> 1 -> 0, the superior walk never reaches a top, whatever the number of steps. |
| `Funcionarios.CicloAceito` | funcionarios/signals.py:21-22 | Two employees made each other's superior by hand are both saved, and neither's chain ever ends. |
| `Funcionarios.SalvarSuperiorCorrigido` | funcionarios/signals.py:9-37 | Corrected. The save is refused exactly when the chosen superior's chain does not end or passes through the employee. Otherwise it is the save as written. |
| `Funcionarios.CorrigidoPreservaHierarquia` | funcionarios/models.py:125-145 | On a table whose chains all end, the corrected save is refused exactly when the save as written would leave some chain that never ends. |
| `FolhaModels.PagosMaisPendentes` | folha/models.py:120-130 | Total of paid events plus total of the other events equals the total of all the competence's events. |
| `Lancamentos.GeralFiltradoSeAtivoNoMes` | core/models.py:180-189 | The general-entry query of folha/services.py:301-306 keeps an entry exactly when `esta_ativo` holds for it on some day of the month. |
| `Lancamentos.FixoFiltradoSeAtivoNoMes` | funcionarios/models.py:287-293 | The fixed-entry query of folha/services.py:340-345 keeps an entry of the employee exactly when `esta_ativo` holds for it on some day of the month. |
| `Lancamentos.VigenteSeAtivoEmAlgumDia` | folha/services.py:301-306 | For a well-formed interval, the fixed-entry filter holds exactly when the entry is in force on some day of the month. |
| `Lancamentos.ContratoElegivelInclusivo` | folha/services.py:34-45 | The contract filter accepts exactly two kinds of contract: those in force on some day of the month, and those starting on the first day of the next month. |
| `Lancamentos.AssimetriaInicioNoMesSeguinte` | folha/services.py:40-45 | A contract and a fixed entry that both start on 1 February: January attaches the contract but does not post the entry. |
| `Lancamentos.Valoracao` | folha/services.py:308-316 | Impact 'F' gives the amount, or 0, with no base. Impact 'P' gives salary times percentage over 100, with the salary as base. |
| `Lancamentos.ItensGerais` | folha/services.py:301-330 | Every posted general item is a positive amount of an existing component, for that employee, competence and event, with no advance behind it. |
| `Lancamentos.ItensFixos` | folha/services.py:340-369 | The same for the employee's own fixed entries. |
| `Lancamentos.ItensGeraisPasso` | folha/services.py:308-330 | A general entry posts exactly its own item when it is flagged active, in force in the month and positive. Otherwise it posts nothing. |
| `Lancamentos.ItensFixosPasso` | folha/services.py:347-369 | An entry posts exactly its own item when it belongs to the employee, is in force and is positive. Otherwise it posts nothing. |
| `Lancamentos.ItemSalario` | folha/services.py:284-291 | The salary credit is the SALARIO component for the employee's base salary, with no base and no advance. |
| `Lancamentos.ItensAdiantamentos` | folha/services.py:374-405 | Each debit posted is an ADIANTAMENTO item worth its advance. It links to an advance of that employee that was pending. |
| `Lancamentos.Deduzir` | folha/services.py:396-409 | Exactly the employee's pending advances become deducted. Every other advance is unchanged. |
| `Lancamentos.RastreabilidadeConta` | folha/models.py:313-322 | Under traceability an advance has at most one linked item, and one that is not deducted has none. |
| `Lancamentos.RastreabilidadeDeduzir` | folha/services.py:396-409 | Posting a linked debit and marking its pending advance deducted keeps traceability. |
| `Lancamentos.RastreabilidadeSemOrigem` | folha/services.py:284-291 | Posting items with no advance behind them keeps traceability. |
| `Lancamentos.RastreabilidadeNovos` | folha/services.py:187-193 | Recording new advances keeps traceability. |
| `Lancamentos.RastreabilidadeRemover` | folha/services.py:494 | Deleting an item keeps traceability. |
| `Lancamentos.ContaOrigemAdiantamentos` | folha/services.py:396-405 | Each advance gets one linked debit when it was pending for the employee. Every other advance gets none. |
| `Lancamentos.UmItemPorAdiantamento` | folha/services.py:374-409 | Afterwards each previously pending advance of the employee is deducted and has exactly one linked debit in the store. |
| `Lancamentos.SegundaDeducaoVazia` | folha/services.py:374-380 | A second run posts nothing and deducts nothing more. |
| `Lancamentos.DeduzirPreservaOutros` | folha/services.py:374-377 | Other employees' advances are untouched. |
| `Lancamentos.PostagensPFFuncionarios` | folha/services.py:65-81 | The default event's processing keeps each advance's employee. |
| `Lancamentos.PostagensPFDoEvento` | folha/services.py:65-81 | Everything the default event posts belongs to its competence and event. |
| `Lancamentos.PostagensPFPasso` | folha/services.py:65-81 | Each attached contract, in order, appends four groups of items and then deducts that employee's advances. The groups are the salary credit, the general entries, the employee's entries and the pending-advance debits. |
| `Lancamentos.PostagensDoFuncionario` | folha/services.py:66-78 | Everything posted for one employee belongs to that employee, competence and event, and names an existing component. |
| `Lancamentos.PostagensPFValidas` | folha/services.py:65-81 | Everything the default event posts names an existing employee and component. |
| `Lancamentos.PFDeduzTudo` | folha/services.py:77-78 | After the default event, no employee of an attached contract has a pending advance left. |
| `Lancamentos.Varredura` | folha/views.py:251-254 | The sweep posts only linked ADIANTAMENTO debits into that event and competence, for attached employees, and keeps each advance's employee. |
| `Lancamentos.VarreduraDeduzTudo` | folha/views.py:251-254 | After the sweep, no attached employee has a pending advance. |
| `Lancamentos.VarreduraPasso` | folha/views.py:253-254 | Each attached contract extends the sweep by that employee's debits and deductions. |
| `Lancamentos.VarreduraValida` | folha/views.py:251-254 | Everything the sweep posts names an existing employee and component. |
| `Lancamentos.VarreduraPostaDebito` | folha/views.py:251-254 | One pending advance of R$ 1300.00: the sweep posts one linked R$ 1300.00 debit, and the advance is deducted. |
| `Lancamentos.ItensSalario` | folha/services.py:116-122 | One salary credit per attached contract, in order. |
| `Lancamentos.ValorDecimo` | folha/services.py:245-250 | The 13th-salary amount is whole cents, within half a cent of half the base salary, whichever installment. |
| `Lancamentos.ItensDecimoPontual` | folha/services.py:248-259 | The k-th 13th-salary item is the SALARIO_13 credit of the k-th contract's employee for that amount. |
| `Lancamentos.DecimosValidos` | folha/services.py:248-259 | The 13th-salary items are credits of that event and competence, for existing employees, each whole cents. |
| `Lancamentos.DecimosPasso` | folha/services.py:248-260 | One more contract appends one item and adds its amount to the running total. |
| `Lancamentos.LiquidoDeCreditos` | folha/models.py:217-236 | In an event holding only credits, the net is the plain sum of the amounts. |
| `Lancamentos.LiquidoDoNovoEvento` | folha/services.py:260-263 | The accumulated total of a new credits-only event equals its net over the whole store. |
| `Lancamentos.ValorAdiantamento` | folha/services.py:177-184 | A truthy amount wins. Otherwise the value is salary times percentage over 100: exact in the standalone service, and rounded to the nearest cent in the event service. |
| `Lancamentos.NovosAdiantamentos` | folha/services.py:177-193 | One pending advance per selected employee, in order, dated as given and worth the computed amount. |
| `Lancamentos.NovosAdiantamentosPasso` | folha/services.py:177-194 | One more employee appends one advance and adds its amount to the running total. |
| `Lancamentos.TotalMassivoExato` | folha/services.py:194-196 | The bulk event's quantized total equals the plain sum of the rounded advances. |
| `Lancamentos.FuncionariosDe` | folha/services.py:169 | The employees of the attached contracts, in order, repeats kept. |
| `Lancamentos.Filtrar` | folha/services.py:170-174 | Exactly the candidate employees that pass the filter, each once, in primary-key order. |
| `Lancamentos.SelecionadosMassivo` | folha/services.py:168-174 | With no filter, every attached contract's employee. With a filter, exactly the attached employees that pass it. |
| `FolhaServices.AnexarItens` | folha/models.py:270-296 | Posting items of an existing event for existing employees and components keeps the store consistent. |
| `FolhaServices.AnexarDebitos` | folha/models.py:313-322 | Posting linked debits while deducting their advances keeps the store consistent. |
| `FolhaServices.AnexarAdiantamentos` | funcionarios/models.py:305-310 | Recording advances of existing employees keeps the store consistent. |
| `FolhaServices.AnexarFolha` | folha/models.py:37-58 | A validated new competence keeps the store consistent, including uniqueness of (month, year). |
| `FolhaServices.AtualizarFolha` | folha/models.py:90-114 | A status change that keeps the closing instant consistent keeps the store consistent. |
| `FolhaServices.AnexarEvento` | folha/models.py:194-211 | A validated new event keeps the store consistent, including unique descriptions per competence. |
| `FolhaServices.AtualizarEvento` | folha/models.py:238-267 | Changing an event's status, total or payment date keeps the store consistent. |
| `FolhaServices.RemoverDoConsistente` | folha/services.py:494 | Deleting an item keeps the store consistent. |
| `FolhaServices.ForaDoNovoEvento` | folha/services.py:160-166 | A freshly created event has net 0. |
| `FolhaServices.LiquidoDoEventoUnico` | folha/services.py:83-84 | After the default event, the competence's net is that event's net. |
| `FolhaServices.ResumosDeChaves` | folha/services.py:412-418 | The summaries hold one row per processed employee of the competence, each equal to that employee's totals. |
| `FolhaServices.ResumosDeExceto` | folha/models.py:380-397 | Items of one employee leave every other employee's recomputed row unchanged. |
| `FolhaServices.ResumosDeAnexar` | folha/services.py:80-81 | Posting one employee's items and recomputing that row gives the summaries over the new item list. |
| `FolhaServices.ResumosPasso` | folha/services.py:64-81 | Each loop step leaves every summary computed so far up to date. |
| `FolhaServices.VarreduraEmEventoPago` | folha/views.py:250-255 | A paid PF event with one pending advance: closing fails, yet the sweep that runs first posts a debit into that event and deducts the advance. |
| `FolhaServices.Banco.ContratosElegiveis` | folha/services.py:40-45 | Exactly the eligible contracts, each once, in primary-key order. |
| `FolhaServices.Banco.PrimeiroEventoPF` | folha/services.py:445 | None exactly when the competence has no PF event. Otherwise one of its PF events, first by date (ties going to the lower key). |
| `FolhaServices.Banco.LancarSalarioBase` | folha/services.py:268-291 | Appends exactly the salary credit. |
| `FolhaServices.Banco.LancarLancamentosFixosGerais` | folha/services.py:294-330 | Appends exactly the items of the general entries, in table order. |
| `FolhaServices.Banco.LancarLancamentosFixos` | folha/services.py:333-369 | Appends exactly the items of the employee's own entries, in table order. |
| `FolhaServices.Banco.LancarAdiantamentos` | folha/services.py:372-409 | Appends the linked debits and deducts the employee's pending advances, keeping traceability. |
| `FolhaServices.Banco.CriarResumoFuncionario` | folha/services.py:412-418 | The (competence, employee) row becomes that employee's totals. Other rows are untouched. |
| `FolhaServices.Banco.CalcularValorTotal` | folha/models.py:238-241 | The event's total becomes its net, and nothing else changes. |
| `FolhaServices.Banco.CriarEvento` | folha/services.py:108-114 | When the event's validation fails, returns its error and changes nothing. Otherwise appends a draft event with total 0 and returns its key. |
| `FolhaServices.Banco.LancarPostagens` | folha/services.py:68-78 | Appends one employee's four groups and deducts their advances. |
| `FolhaServices.Banco.ProcessarFuncionarioPF` | folha/services.py:65-81 | The same, then recomputes that employee's summary. |
| `FolhaServices.Banco.PassoContratos` | folha/services.py:65-81 | One loop step, with the summaries kept up to date. |
| `FolhaServices.Banco.ProcessarContratos` | folha/services.py:65-82 | The whole loop appends exactly the default event's postings, deducts the advances and computes one summary per employee. |
| `FolhaServices.Banco.PostarEventoPadrao` | folha/services.py:64-84 | The same, then the event's total becomes its net, which is also the competence's net. |
| `FolhaServices.Banco.CriarEventoPF` | folha/services.py:51-62 | Appends the draft PF event "Pagamento Final MM/AAAA", dated the last day of the month. |
| `FolhaServices.Banco.GerarEventoPadrao` | folha/services.py:51-84 | The default event, its postings, deductions and summaries, with its total equal to the competence's net. |
| `FolhaServices.Banco.GerarFolha` | folha/services.py:18-86 | A validation error, or a competence of December 9999 or later (whose next month lies outside the calendar `datetime.date` accepts), changes nothing. Otherwise it appends a draft competence holding exactly the eligible contracts. With the default event requested, the new state is also as `GerarEventoPadrao` gives it. Without it, nothing else changes. |
| `FolhaServices.Banco.InserirFolha` | folha/services.py:31-48 | Appends the competence with exactly the eligible contracts. It has no events yet. |
| `FolhaServices.Banco.DefinirTotal` | folha/services.py:196-197 | Sets only the event's total. |
| `FolhaServices.Banco.LancarSalarios` | folha/services.py:116-122 | Appends one salary credit per attached contract. |
| `FolhaServices.Banco.ProcessarEventoPagamento` | folha/services.py:116-124 | Appends the salary credits. The event's total is their sum, which equals its net. |
| `FolhaServices.Banco.CriarEventoPagamento` | folha/services.py:89-126 | A non-draft competence fails first, then the event's validation. A failure changes nothing. Otherwise it appends the draft event; with processing, it adds the salary credits and a total equal to the net. |
| `FolhaServices.Banco.LancarDecimos` | folha/services.py:247-260 | Appends the 13th-salary credits and returns their sum. |
| `FolhaServices.Banco.ProcessarEventoDecimo` | folha/services.py:247-263 | The event's total is the quantized sum, which equals the plain sum and the event's net. |
| `FolhaServices.Banco.CriarEventoDecimoTerceiro` | folha/services.py:202-265 | A non-draft competence fails first, then an installment outside {1, 2}, then the event's validation. A failure changes nothing. Otherwise it appends a draft '13' event with its credits, total equal to net. |
| `FolhaServices.Banco.RegistrarAdiantamentos` | folha/services.py:176-194 | Appends one advance per selected employee, and returns their sum and count. |
| `FolhaServices.Banco.ProcessarEventoMassivo` | folha/services.py:168-197 | Appends the bulk advances and sets the event's total to their sum. |
| `FolhaServices.Banco.CriarEventoAdiantamentoMassivo` | folha/services.py:129-199 | A non-draft competence fails first, then neither amount nor percentage truthy, then the event's validation. A failure changes nothing. Otherwise it appends a draft AD event and one pending advance per selected employee. The total is their sum, and no item is posted. |
| `FolhaServices.Banco.LancarItemManual` | folha/services.py:467-480 | Appends the item. The event's total becomes its net, moved by the item's effect, and the employee's summary is recomputed. |
| `FolhaServices.Banco.LancarSeRascunho` | folha/services.py:464-480 | A non-draft event fails and changes nothing. A draft one always gets the item: the item list, that event's total (now its net) and the employee's summary are the new state. |
| `FolhaServices.Banco.LancarNoPF` | folha/services.py:443-447 | On the competence's first PF event: the item goes on that event when it is a draft, and fails otherwise. |
| `FolhaServices.Banco.LancarNoNovoPF` | folha/services.py:449-459 | A competence without a PF event: when the new event's validation fails, its error and no change. Otherwise the draft PF event dated the last day of its month is appended, holding the item, with its net as total. |
| `FolhaServices.Banco.AdicionarItemNaFolha` | folha/services.py:443-480 | With only a competence: its first PF event by date gets the item when it is a draft, and fails otherwise. With no PF event, a new one is created, or the creation's error is returned. |
| `FolhaServices.Banco.AdicionarItemManual` | folha/services.py:421-482 | With neither event nor competence, `EventoNaoEspecificado`. An explicit event gets the item exactly when it is a draft. With only a competence, its first PF event, or else a new draft PF event dated the last day of its month, gets it. A failure changes no item, event or summary. A success returns the appended item and states the whole new event table: one event's total set to its net, or the new event appended. |
| `FolhaServices.Banco.RemoverItem` | folha/services.py:485-500 | Fails exactly when the item's event is not a draft, with that error and no change. Otherwise it always succeeds: it deletes the item, the event's net falls by the item's effect and becomes its total, and the summary is recomputed. |
| `FolhaServices.Banco.LancarAdiantamentoMassivo` | folha/services.py:507-549 | Fails exactly when neither amount nor percentage is truthy, with that error and no change. Otherwise it always succeeds: it appends one unrounded pending advance per employee passing the filter, dated as given or today, and returns how many. |
| `FolhaServices.Banco.FecharFolha` | folha/models.py:90-97 | Fails, changing nothing, unless the competence is a draft. Otherwise it closes it with the instant. |
| `FolhaServices.Banco.ReabrirFolha` | folha/models.py:99-106 | Fails, changing nothing, unless the competence is closed. Otherwise it reopens it. |
| `FolhaServices.Banco.MarcarFolhaComoPaga` | folha/models.py:108-114 | Fails, changing nothing, unless the competence is closed. Otherwise it marks it paid. |
| `FolhaServices.Banco.FecharEvento` | folha/models.py:243-250 | Fails, changing nothing, unless the event is a draft. Otherwise it closes it with its net as total. |
| `FolhaServices.Banco.MarcarEventoComoPago` | folha/models.py:252-259 | Fails, changing nothing, unless the event is closed or a draft. Otherwise it records the payment date. |
| `FolhaServices.Banco.ReabrirEvento` | folha/models.py:261-267 | Fails, changing nothing, unless the event is closed. Otherwise it reopens it. |
| `FolhaServices.Banco.VarrerAdiantamentos` | folha/views.py:251-254 | Appends exactly the sweep's debits and deductions, keeping the store consistent. |
| `FolhaServices.Banco.FecharEventoPagamentoFinal` | folha/views.py:250-255 | As written. For a PF event the sweep is applied whatever the status. Then the close succeeds or fails as `fechar_evento` does. |
| `FolhaServices.Banco.FecharEventoPagamentoFinalCorrigido` | folha/views.py:250-255 | Corrected. It fails exactly when the event is not a draft, with that error and no change. Otherwise it always succeeds: it sweeps (for PF) and closes with the net as total. |

## Left out

- Django's ORM, HTTP views, forms, admin, exports (PDF and Excel), signals, management commands and one-off scripts are not part of this model. There are two exceptions. The closing sweep of folha/views.py:250-255 is folded into `FecharEventoPagamentoFinal`. The `pre_save` choice of superior (funcionarios/signals.py:9-37) is `SuperiorAtribuido`.
- The `post_save` signal that gives a sector chief's superior-less colleagues that chief as superior (funcionarios/signals.py:38-61) is not modelled. It is a bulk update outside every service, and it can close a cycle too, for example when the chief's own superior is one of them.
- `transaction.atomic`, concurrency and unique-constraint races are not modelled. A service either fails with no change or returns the new state. The exception is `FecharEventoPagamentoFinal`, the closing view, which runs outside any transaction and keeps the sweep's writes when the close fails.
- Query order.
  - The position in a table (the primary key) stands for the ORM's ordering: `-data_inicio` for contracts, general fixed entries (`LancamentoFixoGeral`) and per-employee fixed entries (`LancamentoFixo`); `-data_adiantamento` for advances; `nome_completo` for employees.
  - So "in table order" in the rows above means primary-key order, not date order.
  - Only row order and the keys of new rows depend on it.
  - Equal event dates are broken by primary key.
- ValidarFolha: `full_clean` raises every field, `clean` and uniqueness error together in one `ValidationError`. The store's operations carry only the first entry of that error dictionary. `ErrosFolha` is the whole set.
- ValidarEvento: likewise, only the first error travels through the store; `ErrosEvento` is the whole set raised together.
- Lancamentos.Filtrar: the ORM's `filter(**filtros)` becomes a predicate over employees, and the selection is in primary-key order rather than by name.
- The lazy get-or-create of the SALARIO, ADIANTAMENTO and SALARIO_13 components is modelled as a catalogue seeded with them.
- Storage of amounts.
  - The database's rounding of stored decimals to two places is not modelled. Percentage amounts, and the unrounded amounts of `lancar_adiantamento_massivo`, are kept exact.
  - The `max_digits` limits are not modelled.
- Free-text fields (`justificativa`, `observacoes`) and names other than those checked are dropped.
- `ItemFolha` rows and `Adiantamento` rows are stored without `full_clean`, so their `MinValueValidator`s never run, and the model applies none.
- The manual-item path requires an existing employee and component; a missing one, which raises an integrity error, is not modelled.
- `FolhaPagamento.full_clean` is modelled at creation; later saves in the transitions rerun it on unchanged month and year, which still pass.
- A unique-together clash on event descriptions is reported as the validation error `DescricaoDuplicada`.
- Removing a deduction item leaves its advance deducted (as in the code); the link is simply gone.
- Today's date and the current instant are parameters (`hoje`, `agora`).
- The superior-chain walks are proved for chains that reach the top within as many steps as there are employees. A cyclic chain, on which the code's loop never ends, is excluded by the precondition `CadeiaFinita`. How such a cycle gets saved is under "## Findings".
- `Funcionario.clean` (CPF validation through an external library), `Ferias.calcular_periodo_aquisitivo`, `tempo_empresa`, `contrato_ativo` and the subordinate listing are not part of this model.

## Findings

| source | as written | input that shows it | evidently intended | confidence | as-written member | corrected member |
|---|---|---|---|---|---|---|
| funcionarios/models.py:196-201 | Against an open-ended existing contract, a new contract is rejected only if it also starts no later than the old one or is itself open-ended | existing contract of the employee from 2024-01-01 with no end; new contract 2024-02-01 to 2024-03-31 is accepted although both are active in February | reject every other contract of the employee whose interval overlaps the new one, as the error message says | not executed | `Funcionarios.CleanContrato` with `Funcionarios.SobreposicaoAceita` | `Funcionarios.CleanContratoCorrigido` with `Funcionarios.SobrepoeSeCompartilhamDia` |
| funcionarios/signals.py:21-22 | A superior set by hand is saved without looking at the chain above it, so two employees can be made each other's superior; `get_hierarquia_superior` and `get_nivel_hierarquico` (funcionarios/models.py:125-145) then loop forever | employees A and B, A's superior set to B and then B's superior set to A: both saves are accepted, and the walk from either never ends | refuse a superior whose chain does not end or passes through the employee, so that every chain stays finite | not executed | `Funcionarios.SalvarSuperior` with `Funcionarios.CicloAceito` | `Funcionarios.SalvarSuperiorCorrigido` with `Funcionarios.CorrigidoPreservaHierarquia` |
| folha/views.py:250-255 | Closing a PF event sweeps pending advances into it before `fechar_evento` checks the status, outside a transaction | a paid PF event of a competence whose only attached employee has a pending advance of R$ 1300.00: closing fails, yet a debit is posted into the paid event and the advance becomes deducted | check that the event is a draft before sweeping, so that a failed close changes nothing | not executed | `FolhaServices.Banco.FecharEventoPagamentoFinal` with `FolhaServices.VarreduraEmEventoPago` | `FolhaServices.Banco.FecharEventoPagamentoFinalCorrigido` |
