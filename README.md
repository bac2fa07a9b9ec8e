# banking-system-api in Dafny

A model of the ledger core of banking-system-api, a small PHP banking back end: clients,
checking accounts (conta corrente, with an overdraft limit) and savings accounts (conta
poupança, with monthly interest), their operations (deposits, withdrawals, PIX, TED,
transfers, blocking) and the service layer that guards them (ContaService). Under them sit
the active-record base class `Model`, the transaction record `Transacao`, the `Validator`,
the SQL `QueryBuilder`, the `Router`, `ValidationException` and the PSR-4 autoloader. The
SQLite database is an abstract store of tables whose rows carry increasing ids, with no
schema constraints; PHP floats
are exact reals.

The model keeps the source's form. Objects whose methods update their fields are classes
with those fields: `Contas.Conta`, `Clientes.Cliente`, `ActiveRecord.Model`,
`Queries.QueryBuilder` and `Routing.Router`, with `Ledger.Bank` as the database handle.
Loops are methods with invariants: `gerarNumeroConta`, `buscarPorCliente`, `fill`, the two
CPF sums, `validarCliente`, `projetarRendimento`, `toSql` and `dispatch`. Each state-changing
method is proved equal to a pure function on snapshot values (for example
`ContaSpec.Debitar`, `ContaService.Bloqueio` or `ActiveRecord.UpdateStep`). Lemmas then prove
what the source promises about those functions.

Four behaviours of the code are modelled as written:

- `transferirPara` and `ted` debit the source, save it and only then credit the
  destination, with no rollback when the credit fails (`ContaProperties.TransferirNaoAtomica`).
- `ted`, unlike `pix`, has no same-account check (`ContaProperties.TedSelfSpec`).
- A model loaded by `Model::find` has no id attribute (`ActiveRecord.Model.FindComoEscrito`);
  see Findings row 1.
- `Conta::buscarPorNumero` and `Conta::buscarPorCliente` on the abstract class throw before
  reading a row, so every ContaService use case fails past its client checks
  (`ContaServiceProperties.ServicoComoEscrito`); see Findings row 3. The rest of the service
  model follows the corrected lookup.

Default arguments of the source (the 500.00 overdraft limit of `criar` and
`abrirContaCorrente`, the zero fee of `registrarSaque`, the limit of 50 of `buscarPorConta`)
are separate members that call the general one with the default value.

Modules: `Results` and `Text` hold shared helpers. `Store` and `Sorting` model the table
store with SELECT/INSERT/UPDATE/DELETE, ORDER BY and LIMIT. `Ledger`, `ContaCorrente`,
`ContaPoupanca`, `ContaSpec`, `Contas` and `ContaProperties` model the accounts.
`Clientes`/`ClienteProperties`, `ContaService`/`ContaServiceProperties`,
`ActiveRecord`/`ActiveRecordProperties`, `Transacoes`/`TransacaoProperties`,
`Validators`/`ValidatorProperties`, `Queries`/`QueryProperties`,
`Routing`/`RoutingProperties`, `ValidationErrors`/`ValidationErrorProperties` and
`Autoload`/`AutoloadProperties` each pair a model with its properties.

## Model

| member | source | states |
|---|---|---|
| ContaCorrente.Tarifa | src/Models/ContaCorrente.php:17-24 | The checking fee of an operation is never negative, is 0 for an operation the table does not list, and is positive exactly for saque, transferencia, ted and doc. |
| ContaCorrente.ValorUsado | src/Models/ContaCorrente.php:74-78 | The overdraft in use is never negative, is positive exactly when the balance is negative, and brings the balance back to at least 0. |
| ContaCorrente.LimiteDisponivel | src/Models/ContaCorrente.php:83-86 | The free overdraft never exceeds the limit. |
| ContaCorrente.DentroDoLimiteIffFolga | src/Models/ContaCorrente.php:50-86 | For a non-negative limit, `saldo >= -limite` holds iff the free overdraft is not negative, iff the available balance is not negative. |
| ContaCorrente.UsadoMaisDisponivel | src/Models/ContaCorrente.php:74-86 | The overdraft in use plus the free overdraft equals the limit; in overdraft the available balance equals the free overdraft. |
| ContaCorrente.UsandoChequeEspecial | src/Models/ContaCorrente.php:66-69 | Whether the balance is negative; the overdraft in use is positive exactly then (see ValorUsado). |
| ContaPoupanca.Tarifa | src/Models/ContaPoupanca.php:17-24 | The savings fee is never negative, is 0 for an unlisted operation, and is positive exactly for transferencia, ted and doc. |
| ContaPoupanca.TarifaNaoExcedeCorrente | src/Models/ContaPoupanca.php:17-24 | For every operation name, the savings fee is at most the checking fee. |
| ContaPoupanca.Rendimento | src/Models/ContaPoupanca.php:29 | The monthly interest is 0.5% of the balance: positive iff the balance is positive. |
| ContaPoupanca.ProjecaoRecorrencia | src/Models/ContaPoupanca.php:171-190 | Entry i of the projection is month i+1. Each month's interest is 0.5% of the previous projected balance, and each balance is the previous one plus that interest. |
| ContaSpec.Tarifa | src/Models/ContaCorrente.php:91-94 | The fee of either account class is never negative. |
| ContaSpec.SaldoDisponivel | src/Models/ContaCorrente.php:50-53 | The available balance is saldo plus limit for checking (ContaPoupanca.php:55-58: saldo alone for savings). |
| ContaSpec.FirstOfKind | src/Services/ContaService.php:35-39 | Gives the first account of the kind in the list, or none exactly when no account there has that kind. |
| ContaSpec.LoadAll | src/Models/Conta.php:67-88 | A successful load gives one account per row. |
| Contas.Conta.constructor | src/Models/Conta.php:50-54 | `new $className($data)`: the object holds exactly the given attributes. |
| Contas.Conta.SaldoDisponivel | src/Models/ContaCorrente.php:50-53 | saldo + limit on checking; saldo alone on savings (ContaPoupanca.php:55-58). |
| Contas.Conta.TemSaldoSuficiente | src/Models/Conta.php:147-150 | Holds exactly when the available balance covers `v`. |
| Contas.Conta.GerarNumeroConta | src/Models/Conta.php:29-37 | The retry loop returns what `ContaSpec.Generate` gives on the draws (see GenerateSpec), consumes the draws it used, and changes no table. |
| Contas.Conta.BuscarPorNumero | src/Models/Conta.php:42-62 | Returns null, a fresh object whose snapshot is the account `ContaSpec.BuscarPorNumero` loads, or its error. |
| Contas.Conta.BuscarPorCliente | src/Models/Conta.php:67-88 | The loop returns one fresh object per row of the client, in order, with the snapshots `ContaSpec.BuscarPorCliente` gives, or its error. |
| Contas.Conta.Save | src/Models/Conta.php:224-255 | The object and the store end as `ContaSpec.Persist` says (see SaveGuardSpec, PersistStored, PersistNew). |
| Contas.Conta.Creditar | src/Models/Conta.php:165-173 | Agrees with `ContaSpec.Creditar` (see CreditarSpec). |
| Contas.Conta.Debitar | src/Models/Conta.php:178-194 | Agrees with `ContaSpec.Debitar`, including the savings override of ContaPoupanca.php:195-202 (see DebitarSpec). |
| Contas.Conta.Bloquear | src/Models/Conta.php:113-117 | Agrees with `ContaSpec.Bloquear` (see BloqueioIdempotente). |
| Contas.Conta.Desbloquear | src/Models/Conta.php:122-126 | Agrees with `ContaSpec.Desbloquear` (see BloqueioIdempotente). |
| Contas.Conta.MoveTo | src/Models/Conta.php:215-216 | Debit then credit on two distinct objects agrees with `ContaSpec.MoveFunds` (see MoveFundsSpec, MoveFundsCompletes). |
| Contas.Conta.TransferirPara | src/Models/Conta.php:199-219 | Agrees with `ContaSpec.TransferirPara` on both accounts and the store (see TransferirParaSpec for the balances and TransferirParaStore for the rows). |
| Contas.Conta.Sacar | src/Models/ContaCorrente.php:118-129 | Agrees with `ContaSpec.Sacar`, which also covers ContaPoupanca.php:94-102 (see SacarSpec). |
| Contas.Conta.Depositar | src/Models/ContaCorrente.php:134-137 | A deposit is a credit: agrees with `ContaSpec.Depositar` (ContaPoupanca.php:107-110 likewise). |
| Contas.Conta.Pix | src/Models/ContaCorrente.php:142-152 | Agrees with `ContaSpec.Pix` (ContaPoupanca.php:115-125 likewise; see PixSpec). |
| Contas.Conta.Ted | src/Models/ContaCorrente.php:157-166 | Agrees with `ContaSpec.Ted` for two objects and with `ContaSpec.TedSelf` when the destination is the same object (ContaPoupanca.php:130-139 likewise). |
| Contas.Conta.MoveWithin | src/Models/ContaCorrente.php:162-163 | Debit then credit on one object agrees with `ContaSpec.MoveFundsSelf`. |
| Contas.Conta.AlterarLimite | src/Models/ContaCorrente.php:99-113 | Agrees with `ContaSpec.AlterarLimite` (see AlterarLimiteSpec). |
| Contas.Conta.AplicarRendimento | src/Models/ContaPoupanca.php:79-89 | Agrees with `ContaSpec.AplicarRendimento` (see AplicarRendimentoSpec). |
| Contas.Conta.TransferirParaContaCorrente | src/Models/ContaPoupanca.php:144-166 | Agrees with `ContaSpec.TransferirParaContaCorrente` (see TransferirParaContaCorrenteSpec). |
| Contas.Conta.PrimeiraCorrente | src/Models/ContaPoupanca.php:150-155 | The loop's result is the index of the first checking account, or -1 exactly when there is none. |
| Contas.Conta.ProjetarRendimento | src/Models/ContaPoupanca.php:171-190 | The loop yields `ContaPoupanca.Projecao` of the current balance (see ProjecaoRecorrencia); the account is not touched. |
| Contas.FirstOfKindAt | src/Models/ContaPoupanca.php:150-155 | The first account of a kind sits at the first index holding that kind. |
| Contas.Criar | src/Models/ContaCorrente.php:29-45 | Returns a fresh object; the object and the store agree with `ContaSpec.Criar` (ContaPoupanca.php:34-50 likewise; see CriarSpec). |
| Contas.CriarCorrente | src/Models/ContaCorrente.php:29 | `criar` without a limit argument: agrees with `ContaSpec.Criar` for a checking account with the 500.00 default (see CriarPadrao). |
| ContaProperties.FormatDrawDigits | src/Models/Conta.php:31-33 | A drawn number prints as its five prefix digits, '-', and its check digit. |
| ContaProperties.PrefixDigits | src/Models/Conta.php:31 | A prefix drawn from 10000..99999 prints as five digits, the first one 1-9. |
| ContaProperties.GenerateSpec | src/Models/Conta.php:29-37 | A generated number is free, comes from the draws, and has the shape ddddd-d with a non-zero first digit. Generation fails only when every draw spells a taken number. |
| ContaProperties.GenerateFound | src/Models/Conta.php:34-36 | The number found is the first free draw's spelling; the draws after it are what is left. |
| ContaProperties.GenerateExhausted | src/Models/Conta.php:34-36 | Generation fails exactly when every draw spells a taken number. |
| ContaProperties.PersistKeepsAttributes | src/Models/Conta.php:224-255 | Saving never changes the balance, limits, block flag, owner or kind, nor the clients table. |
| ContaProperties.SaveGuardSpec | src/Models/Conta.php:226-238 | A missing owner id fails first, then an owner not on file; each leaves the table unchanged. |
| ContaProperties.PersistStored | src/Models/Conta.php:224-255 | Saving a stored account rewrites exactly its row and reports success. |
| ContaProperties.PersistNew | src/Models/Conta.php:224-255 | Saving a new, numbered account inserts one row under a fresh id and marks the object stored. |
| ContaProperties.PersistGeneratesNumber | src/Models/Conta.php:240-242 | An account without a number gets a freshly generated one before anything is stored. |
| ContaProperties.PersistKeepsRows | src/Models/Conta.php:224-255 | Saving never removes a stored account or client. |
| ContaProperties.PersistedStable | src/Models/Conta.php:224-255 | A persisted account stays persisted, whatever another object saves. |
| ContaProperties.CreditarSpec | src/Models/Conta.php:165-173 | A non-positive amount fails with nothing changed. Otherwise the balance grows by exactly `v`, even on a blocked account, and a stored account's row is rewritten. |
| ContaProperties.DebitGuardSpec | src/Models/Conta.php:178-194 | Failure order: amount <= 0, then blocked, then available balance < amount; a savings account first checks its own overdraft (ContaPoupanca.php:195-202). The debit passes iff amount > 0, unblocked and covered. |
| ContaProperties.DebitarSpec | src/Models/Conta.php:178-194 | A failed check changes nothing. Otherwise the balance drops by exactly `v`, no other attribute changes, and a stored row is rewritten. |
| ContaProperties.DebitKeepsBalanceInRange | src/Models/Conta.php:185-187 | After any successful debit a checking balance is >= -limit and a savings balance is >= 0. |
| ContaProperties.CorrenteInvariant | src/Models/ContaCorrente.php:99-113 | Credits, debits and a limit change all preserve `saldo >= -limite`. |
| ContaProperties.BloqueioIdempotente | src/Models/Conta.php:113-126 | Block/unblock set the flag whatever its old value, change nothing else, and doing one twice equals doing it once, for the object and the table. |
| ContaProperties.MoveFundsSpec | src/Models/Conta.php:215-216 | A completed debit-then-credit lowers the source by the debit and raises the destination by the credit. The difference reaches no account. |
| ContaProperties.DebitarSaldo | src/Models/Conta.php:178-194 | A refused debit leaves the account and store as they were; an accepted one sets the balance to saldo - v. |
| ContaProperties.CreditarSaldo | src/Models/Conta.php:165-173 | A non-positive credit leaves the account and store as they were; a positive one sets the balance to saldo + v. |
| ContaProperties.MoveFundsCompletes | src/Models/Conta.php:215-216 | If the credit amount is positive, the debit succeeded and the destination is stored, then the credit succeeds too. |
| ContaProperties.TransferirMesmaConta | src/Models/Conta.php:201-203 | A transfer to an account with the same number fails and changes neither account nor the store. |
| ContaProperties.TransferirParaSpec | src/Models/Conta.php:199-219 | The fee-inclusive total must be available. A completed transfer lowers the source by v + the kind's transfer fee and raises the destination by v; the fee reaches no account. |
| ContaProperties.TransferirNaoAtomica | src/Models/Conta.php:215-216 | Transferring -1.00 from a checking account debits and saves 7.50 and then fails on the credit; the store keeps the debit. |
| ContaProperties.PixSpec | src/Models/ContaCorrente.php:142-152 | PIX refuses the same number; a completed PIX moves exactly v with no fee. |
| ContaProperties.MoveFundsStore | src/Models/Conta.php:199-219 | After a completed debit-then-credit between two stored accounts, each row holds its new object and every other row is unchanged. |
| ContaProperties.TransferirParaStore | src/Models/Conta.php:199-219 | A completed transfer between two stored accounts stores the source less v plus the fee and the destination plus v; other rows are unchanged. |
| ContaProperties.TedSpec | src/Models/ContaCorrente.php:157-166 | TED has no same-account check. A completed TED debits v + 15.90 from checking (10.90 from savings, ContaPoupanca.php:130-139) and credits v. |
| ContaProperties.TedFee | src/Models/ContaPoupanca.php:130-139 | The TED fee is 15.90 for checking and 10.90 for savings. |
| ContaProperties.MoveFundsSelfSpec | src/Models/ContaCorrente.php:162-163 | Debit then credit on one object nets the two amounts on one balance. |
| ContaProperties.TedSelfSpec | src/Models/ContaCorrente.php:157-166 | A TED to itself only charges the TED fee when the debit is allowed and the account is stored. |
| ContaProperties.SacarSpec | src/Models/ContaCorrente.php:118-129 | The daily limit is checked first, against v without the fee. Checking then debits v + 4.50; savings debits exactly v (ContaPoupanca.php:94-102). |
| ContaProperties.AlterarLimiteSpec | src/Models/ContaCorrente.php:99-113 | A negative limit fails, then a limit below the overdraft in use (equal is accepted). Otherwise only the limit changes, and the balance stays within it. |
| ContaProperties.AplicarRendimentoSpec | src/Models/ContaPoupanca.php:79-89 | A positive balance grows by 0.5% and is saved. A zero or negative balance is left as is, nothing is saved, and the result is still true. |
| ContaProperties.LoadRowRoundTrip | src/Models/Conta.php:50-54 | A loaded account saves back exactly the row it came from. |
| ContaProperties.BuscarPorNumeroSpec | src/Models/Conta.php:42-62 | Null iff no row has the number. Otherwise the lowest-rowid such row, loaded as the class its type names, else as the calling class. In this corrected lookup the abstract caller fails only on a type it cannot instantiate; as written it always fails (ConsultaComoEscrito). |
| ContaProperties.LoadAllSpec | src/Models/Conta.php:72-85 | Each loaded account is its row under its own id. In this corrected loop, loading fails exactly when a row's type names no class and the caller is abstract; as written the abstract caller fails before any row (ConsultaComoEscrito). |
| ContaProperties.BuscarPorClienteSpec | src/Models/Conta.php:67-88 | One account per row of that client, in id order, each its row under its own id. A concrete caller never fails. |
| ContaProperties.ConsultaComoEscrito | src/Models/Model.php:175-179 | As written, a lookup by number or by client called on the abstract Conta fails with the instantiation Error whatever the table holds; called on a concrete class it is the corrected lookup. |
| ContaProperties.ConsultaAbstrataDiverge | src/Models/Conta.php:42-62 | For a stored checking account, the corrected lookup on Conta finds it as a checking account, and the as-written one throws. |
| ContaProperties.FirstCorrenteLoaded | src/Models/ContaPoupanca.php:147-155 | The first checking account among the owner's loaded accounts is the first loaded row whose type is checking. |
| ContaProperties.TransferirParaContaCorrenteSpec | src/Models/ContaPoupanca.php:144-166 | With no checking account it fails and changes nothing. Otherwise it is a fee-free debit of v, then a credit of v to the owner's oldest checking account. |
| ContaProperties.CriarSpec | src/Models/ContaCorrente.php:29-45 | A new account gets a fresh number, zero balance and is unblocked. Checking gets the requested limit and a 5000 daily limit; savings gets limit 0 and 3000 daily (ContaPoupanca.php:34-50). A missing owner fails before anything is stored. |
| ContaProperties.CriarPadrao | src/Models/ContaCorrente.php:29-45 | A checking account created without a limit argument has limit 500.00, type corrente and zero balance. |
| ContaProperties.PersistSemId | src/Models/Model.php:100-110 | As written, a loaded account has no id: saving it changes no account row and never reports true. |
| ContaProperties.StepKeepsPersisted | src/Models/Conta.php:165-194 | Credits and debits keep the account and every other stored account stored. |
| ContaProperties.CenarioTesteContas | tests/teste_contas.php:47-110 | The test script's scenario, step by step: every step succeeds; checking ends at -809.00, in overdraft, and savings at 4321.50. |
| ContaService.PossuiDoTipo | src/Services/ContaService.php:35-39 | The `instanceof` loop is true iff some account in the list has the kind. |
| ContaService.AbrirConta | src/Services/ContaService.php:21-79 | The new object (when one is made), the result and the store agree with `ContaService.Abertura`. |
| ContaService.AbrirContaCorrente | src/Services/ContaService.php:21-50 | `Abertura` for a checking account with the given limit. |
| ContaService.AbrirContaCorrentePadrao | src/Services/ContaService.php:21 | `abrirContaCorrente` without a limit argument: `Abertura` with the 500.00 default (see AberturaPadrao). |
| ContaService.AbrirContaPoupanca | src/Services/ContaService.php:55-79 | `Abertura` for a savings account. |
| ContaService.Buscar | src/Services/ContaService.php:86-90 | Fails iff `Localizar` fails, with its error; otherwise returns a fresh object holding the found account. |
| ContaService.AlterarLimiteChequeEspecial | src/Services/ContaService.php:84-114 | Result and store agree with `AlteracaoDeLimite` (see AlteracaoDeLimiteSpec). |
| ContaService.BloquearConta | src/Services/ContaService.php:119-139 | Result and store agree with `Bloqueio` (see BloqueioSpec). |
| ContaService.DesbloquearConta | src/Services/ContaService.php:144-163 | Result and store agree with `Desbloqueio` (see DesbloqueioSpec). |
| ContaServiceProperties.LocalizarFound | src/Models/Conta.php:42-62 | `Localizar` returns the stored row with that number, loaded under its own id as its named class. |
| ContaServiceProperties.LocalizarAfterRewrite | src/Models/Conta.php:42-62 | After the found row is rewritten (same number and type), the lookup returns the new content. |
| ContaServiceProperties.PersistLoaded | src/Models/Conta.php:224-255 | Saving a looked-up account whose owner is on file rewrites exactly its row and succeeds. |
| ContaServiceProperties.KindForNone | src/Models/Conta.php:50-54 | The type match with the abstract class as `static`: kind k is chosen exactly for the type string of k. Only the corrected lookup reaches it. |
| ContaServiceProperties.AberturaGuardSpec | src/Services/ContaService.php:21-79 | Failure order: client missing, client inactive, an uninstantiable stored account, an existing account of the kind, then (checking only) a limit outside [0, 10000]. Both directions of when every check passes. |
| ContaServiceProperties.AberturaSpec | src/Services/ContaService.php:21-79 | Failure leaves the accounts unchanged. Passing the checks with draws available succeeds, storing exactly one new row: the kind's defaults, the client, a free number. |
| ContaServiceProperties.AberturaUnica | src/Services/ContaService.php:34-39 | After a successful opening, opening the same kind for that client again is refused. |
| ContaServiceProperties.AlteracaoDeLimiteSpec | src/Services/ContaService.php:84-114 | Failure order: not found, not checking, blocked, outside [0, 10000], overdraft in use above the new limit. Success stores the account with the new limit and nothing else changed. |
| ContaServiceProperties.BloqueioSpec | src/Services/ContaService.php:119-139 | Failure order: not found, then already blocked. Otherwise the stored account becomes blocked and nothing else about it changes. |
| ContaServiceProperties.BloqueioDuasVezes | src/Services/ContaService.php:127-129 | Blocking an account a second time fails with "already blocked". |
| ContaServiceProperties.DesbloqueioSpec | src/Services/ContaService.php:144-163 | Failure order: not found, not blocked, owner missing or inactive. Otherwise the account is stored unblocked. |
| ContaServiceProperties.BloqueioDesbloqueio | src/Services/ContaService.php:119-163 | Blocking then unblocking an active client's account restores the original store exactly. |
| ContaServiceProperties.AberturaPadrao | src/Services/ContaService.php:21-50 | The default limit passes the range check: opening with it fails exactly as opening with limit 0. |
| ContaServiceProperties.ServicoComoEscrito | src/Services/ContaService.php:21-284 | As written, the account lookup fails with the instantiation Error on every input. Changing the limit, blocking, unblocking and validating therefore fail with it on every input, leaving the store as it was. Opening fails with "client not found", "client inactive" or that Error, creating nothing. Listing fails with "client not found" or that Error. |
| ContaServiceProperties.BloqueioDiverge | src/Services/ContaService.php:119-139 | For one active client with an unblocked checking account "12345-6", blocking succeeds and stores the account blocked under the corrected lookup, and fails with the instantiation Error as written. |
| ContaServiceProperties.ChecagemPorTipoSpec | src/Services/ContaService.php:260-281 | saque/transferencia need the available balance (fee excluded), then the daily limit. deposito needs 0 < v <= 50000. Every other operation passes. |
| ContaServiceProperties.ValidarOperacaoSpec | src/Services/ContaService.php:241-284 | Failure order: missing account, blocked, owner missing or inactive, the per-operation check. It only ever returns true or an error. |
| ContaService.ValidarOperacao | src/Services/ContaService.php:241-284 | A success is always true and means the account exists and is not blocked (the full order is in ValidarOperacaoSpec). |
| ContaServiceProperties.ValidacaoBasta | src/Services/ContaService.php:272-280 | A deposit the validation passes is credited; a positive savings withdrawal it passes is debited. |
| ContaServiceProperties.ValidacaoIgnoraTarifa | src/Services/ContaService.php:261-270 | A checking withdrawal of the whole available balance passes the validation, yet `sacar` refuses it for the fee. |
| ContaServiceProperties.ListarContasClienteSpec | src/Services/ContaService.php:203-236 | A missing client fails. Otherwise: one entry per account of the client, in id order, with its number, type, balance and block flag, plus the count; no account of the client is missed. |
| ContaService.ListarContasCliente | src/Services/ContaService.php:203-236 | Succeeds iff the client is on file and its accounts load; the count equals the number of entries. |
| Clientes.CpfFormatado | src/Models/Cliente.php:117-129 | An 11-character CPF gets punctuation at positions 3, 7 and 11; any other length is returned unchanged. |
| Clientes.PorCampo | src/Models/Cliente.php:27-58 | The lookup behind `buscarPorCpf` and `buscarPorEmail`: a stored client whose row is in the table and whose column holds the value; none iff no row holds it. |
| Clientes.Cliente.constructor | src/Models/Model.php:22-25 | The object holds the given client. |
| Clientes.Cliente.IsAtivo | src/Models/Cliente.php:101-104 | Active iff `ativo` is non-zero. |
| Clientes.Cliente.BuscarPorCpf | src/Models/Cliente.php:27-40 | Null iff `PorCpf` finds nothing; otherwise a fresh object holding that client. |
| Clientes.Cliente.BuscarPorEmail | src/Models/Cliente.php:45-58 | Null iff `PorEmail` finds nothing; otherwise a fresh object holding that client. |
| Clientes.Cliente.Ativos | src/Models/Cliente.php:63-78 | The loop returns one fresh object per active row, in name order (see AtivosSpec). |
| Clientes.Cliente.Save | src/Models/Cliente.php:149-177 | The object and the clients table agree with `Clientes.Salvar`; the accounts are untouched. |
| Clientes.Cliente.Ativar | src/Models/Cliente.php:83-87 | Agrees with saving the client with `ativo = 1` (see AtivacaoSpec). |
| Clientes.Cliente.Desativar | src/Models/Cliente.php:92-96 | Agrees with saving the client with `ativo = 0`. |
| ClienteProperties.CpfFormatadoRoundTrip | src/Models/Cliente.php:117-129 | Reading the digit positions of a formatted CPF gives the CPF back. |
| ClienteProperties.DigitsOfPunct | src/Models/Cliente.php:122-125 | The inserted punctuation holds no digit. |
| ClienteProperties.CpfFormatadoDigitos | src/Models/Cliente.php:117-129 | Stripping non-digits from a formatted all-digit CPF gives it back: formatting is the inverse of `sanitizeCpf`. |
| ClienteProperties.SaveGuardOrdem | src/Models/Cliente.php:152-174 | Failure order: empty name, empty CPF, empty e-mail, CPF held by another id, e-mail held by another id. Each error comes with a witness row. |
| ClienteProperties.UnicoIndice | src/Models/Cliente.php:164-174 | With unique CPFs and e-mails, a CPF or an e-mail picks out at most one row. |
| ClienteProperties.ConflitoSpec | src/Models/Cliente.php:164-174 | With uniqueness, each duplicate check fires iff another id has the CPF (resp. the e-mail). |
| ClienteProperties.GravarSpec | src/Models/Model.php:68-75 | An existing client's row is rewritten, true iff the row is there. A new client is inserted under the next id. |
| ClienteProperties.UnicoAposInsert | src/Models/Cliente.php:164-176 | Inserting a row that clashes with no CPF or e-mail keeps the table unique. |
| ClienteProperties.UnicoAposReplace | src/Models/Cliente.php:164-176 | Rewriting a row with values no other row holds keeps the table unique. |
| ClienteProperties.GuardNaoColide | src/Models/Cliente.php:164-174 | A save that passed the checks writes a row no other client's CPF or e-mail collides with. |
| ClienteProperties.SalvarPreservaUnico | src/Models/Cliente.php:149-177 | Saving keeps CPFs and e-mails unique across the table. |
| ClienteProperties.ResalvarAceito | tests/teste_modelo.php:48-49 | Re-saving a stored client with its own CPF and e-mail succeeds and rewrites its row. |
| ClienteProperties.AtivacaoSpec | src/Models/Cliente.php:83-104 | After a successful activate (deactivate), `isAtivo` is true (false) for the object and its stored row. |
| ClienteProperties.NomeLePreorder | src/Models/Cliente.php:63-78 | Ordering by name is a total preorder, so the sort is well defined. |
| ClienteProperties.AtivosSpec | src/Models/Cliente.php:63-78 | `ativos` lists exactly the rows with `ativo = 1`, each once, sorted by name. |
| ClienteProperties.ResalvarRejeitadoComoEscrito | src/Models/Cliente.php:165-168 | As written, saving an inserted client again always fails with "CPF já cadastrado"; the corrected check accepts it. |
| ClienteProperties.DuplicadoAceitoComoEscrito | src/Models/Cliente.php:165-168 | As written, a new client whose CPF is already on file passes the application's duplicate check, and the schema-free store inserts it; the corrected check refuses it. Whether the database accepts that INSERT depends on its schema, which is not modelled. |
| ActiveRecord.Filled | src/Models/Model.php:30-39 | After `fill`: every admitted input key overwrites; every other attribute stays; no other key appears (an empty fillable admits all). |
| ActiveRecord.FilledStep | src/Models/Model.php:32-36 | Handling one more input key overwrites when the key is admitted and is ignored otherwise. |
| ActiveRecord.FilledUpdate | src/Models/Model.php:32-36 | Adding a key to the input changes the result of `fill` only when the key is admitted. |
| ActiveRecord.Attr | src/Models/Model.php:44-47 | A missing attribute reads as null; a present one as its value. |
| ActiveRecord.KeyOf | src/Models/Model.php:100-110 | The bound id exists exactly when the `id` attribute is an integer, and is that integer. |
| ActiveRecord.ForSave | src/Models/Model.php:195-205 | Existing models send all attributes. New ones never send a non-null id, and every other attribute is sent unchanged. |
| ActiveRecord.Tabela.constructor | src/Models/Model.php:175-179 | The table handle holds the given table. |
| ActiveRecord.Model.constructor | src/Models/Model.php:22-25 | A new model holds `fill` applied to no attributes, and does not exist. |
| ActiveRecord.Model.Fill | src/Models/Model.php:30-39 | The loop's result is `Filled` of the old attributes; the exists flag is kept. |
| ActiveRecord.Model.Get | src/Models/Model.php:44-47 | Returns `Attr` of the attributes. |
| ActiveRecord.Model.Set | src/Models/Model.php:52-55 | Updates exactly that attribute. |
| ActiveRecord.Model.Insert | src/Models/Model.php:80-95 | Object and table agree with `InsertStep` (see InsertStepSpec). |
| ActiveRecord.Model.Update | src/Models/Model.php:100-110 | Table and result agree with `UpdateStep` (see UpdateStepSpec). |
| ActiveRecord.Model.Save | src/Models/Model.php:68-75 | An existing model updates, a new one inserts: agrees with `SaveStep`. |
| ActiveRecord.Model.Delete | src/Models/Model.php:115-131 | Agrees with `DeleteStep` (see DeleteStepSpec). |
| ActiveRecord.Model.Find | src/Models/Model.php:136-151 | Null iff `FindSpec` finds nothing; otherwise a fresh model equal to it, keeping the id (corrected, see Findings). |
| ActiveRecord.Model.Load | src/Models/Model.php:144-147 | A model built from a fetched row is existing, holds its admitted columns, and keeps its id. |
| ActiveRecord.Model.FindComoEscrito | src/Models/Model.php:136-151 | Null iff `FindSpecComoEscrito` finds nothing; otherwise a fresh model equal to it, having lost its id. |
| ActiveRecord.Model.Create | src/Models/Model.php:184-190 | A fresh model, filled and inserted: agrees with `InsertStep`. |
| ActiveRecordProperties.SqlLePreorder | src/Database/QueryBuilder.php:106-110 | ORDER BY on a column compares values by a total preorder. |
| ActiveRecordProperties.InsertStepSpec | src/Models/Model.php:80-95 | Insert always succeeds on a valid table: the row gets a fresh id, holds every attribute but the key, and has both timestamps set to now. The object adopts the id and exists. |
| ActiveRecordProperties.UpdateStepSpec | src/Models/Model.php:100-110 | Succeeds iff the model holds an integer id naming a stored row. That row takes every attribute and `updated_at := now`; no other row changes. |
| ActiveRecordProperties.DeleteStepSpec | src/Models/Model.php:115-131 | A non-existing object is refused. Otherwise it succeeds iff the id names a stored row; that row goes, the object stops existing, nothing else changes. |
| ActiveRecordProperties.FindSpecSpec | src/Models/Model.php:136-151 | Finds an existing model iff the row is stored; it holds the id and exactly the row's admitted columns. |
| ActiveRecordProperties.InsertThenFind | src/Models/Model.php:80-151 | A model inserted into a valid table is found under its new id with every admitted attribute it was saved with. |
| ActiveRecordProperties.InsertThenSave | src/Models/Model.php:68-110 | Saving right after an insert succeeds. |
| ActiveRecordProperties.FindThenSave | src/Models/Model.php:68-151 | With the id kept, find of a stored id succeeds, and both save and delete of the found model succeed. |
| ActiveRecordProperties.FindThenSaveComoEscrito | src/Models/Model.php:136-151 | As written, a found model of a class whose fillable omits `id` has no id, so save and delete change nothing and report false. |
| Transacoes.Salvar | tests/teste_transacao_simples.php:104-138 | Object, table and result agree with `SaveTransacao` (see SaveDefaults, SaveNovo, SaveExistente). |
| Transacoes.RegistrarDeposito | tests/teste_transacao_simples.php:25-40 | A fresh record made from the deposit's fields and saved; the account is untouched. |
| Transacoes.RegistrarSaque | tests/teste_transacao_simples.php:42-58 | A fresh record made from the withdrawal's fields and saved. |
| Transacoes.RegistrarSaqueSemTarifa | tests/teste_transacao_simples.php:42 | `registrarSaque` without a fee argument: the withdrawal record with fee 0 (see SaqueSemTarifa). |
| Transacoes.BuscarPorConta | tests/teste_transacao_simples.php:60-77 | The loop returns one fresh existing model per row of `PorConta`, in order. |
| Transacoes.BuscarPorContaPadrao | tests/teste_transacao_simples.php:60 | `buscarPorConta` without a limit argument: one loaded model per row of `PorConta` with limit 50 (see PorContaPadrao). |
| Transacoes.Carregar | tests/teste_transacao_simples.php:69-74 | One fresh loaded model per fetched row, in order. |
| TransacaoProperties.FillableKeeps | tests/teste_transacao_simples.php:12-23 | Every key the factories pass is fillable, so `fill` keeps them all. |
| TransacaoProperties.DepositoSpec | tests/teste_transacao_simples.php:25-40 | A deposit credits the account (destination = its id, no origin), charges no fee, and records saldo before and saldo + v after. |
| TransacaoProperties.DepositoChaves | tests/teste_transacao_simples.php:29-39 | Every key of the deposit record is a fillable column. |
| TransacaoProperties.DepositoCampos | tests/teste_transacao_simples.php:29-39 | The deposit record names the account as destination, has tipo deposito, no fee, the balances before and after, the default description and status 'concluida'. |
| TransacaoProperties.SaqueSpec | tests/teste_transacao_simples.php:42-58 | A withdrawal debits the account (origin = its id, no destination); the closing balance is the opening one less v and the fee. |
| TransacaoProperties.SaqueChaves | tests/teste_transacao_simples.php:47-57 | Every key of the withdrawal record is a fillable column. |
| TransacaoProperties.SaqueCampos | tests/teste_transacao_simples.php:47-57 | The withdrawal record names the account as origin, has tipo saque, its fee, the balances before and after, the default description and status 'concluida'. |
| TransacaoProperties.SaveDefaults | tests/teste_transacao_simples.php:106-112 | After save (with a non-empty clock value), the status and the date are never empty; an empty status becomes 'concluida' and a non-empty one is kept. |
| TransacaoProperties.SaveNovo | tests/teste_transacao_simples.php:124-134 | A new record is inserted under a fresh id with its attributes plus `created_at` and no `updated_at`; the object adopts the id. |
| TransacaoProperties.SaveExistente | tests/teste_transacao_simples.php:115-123 | An existing record succeeds iff its id names a stored row; that row gets every attribute but the id; nothing else changes. |
| TransacaoProperties.CriarSpec | src/Models/Model.php:184-190 | Creating a record from fillable, defaulted attributes stores exactly them plus `created_at` under the next id. |
| TransacaoProperties.RegistrarDepositoSpec | tests/teste_transacao_simples.php:25-40 | `registrarDeposito` stores exactly the deposit's fields plus `created_at`. |
| TransacaoProperties.RegistrarSaqueSpec | tests/teste_transacao_simples.php:42-58 | `registrarSaque` stores exactly the withdrawal's fields plus `created_at`. |
| TransacaoProperties.DataDescPreorder | tests/teste_transacao_simples.php:65 | Ordering by date, newest first, is a total preorder. |
| TransacaoProperties.PorContaSpec | tests/teste_transacao_simples.php:60-77 | Returns stored rows naming the account as origin or destination, newest first, at most `limite` of them (all for a negative limit), and every such row when the limit does not cut. Under a cut, the rows are distinct rows of the selection and those left out are no newer than the last kept. |
| TransacaoProperties.PorContaCorte | tests/teste_transacao_simples.php:60-66 | The rows kept are distinct rows of the selection, and each row cut off is no newer than the last one kept. |
| TransacaoProperties.PorContaLinhas | tests/teste_transacao_simples.php:60-66 | Every row returned is a stored row naming the account as origin or destination. |
| TransacaoProperties.PorContaPadrao | tests/teste_transacao_simples.php:60 | With the default limit, at most 50 records, and all of them when there are no more. |
| TransacaoProperties.SaqueSemTarifa | tests/teste_transacao_simples.php:42-57 | With the default fee, the record charges 0 and the closing balance is the opening one less the amount. |
| TransacaoProperties.BuscadosDaConta | tests/teste_transacao_simples.php:79-87 | Every record `buscarPorConta` loads satisfies `isDebito` or `isCredito` for that account. |
| Transacoes.IsDebito | tests/teste_transacao_simples.php:79-82 | Whether the record's origin is the account, under PHP loose equality (see BuscadosDaConta, SaqueSpec). |
| Transacoes.IsCredito | tests/teste_transacao_simples.php:84-87 | Whether the record's destination is the account (see BuscadosDaConta, DepositoSpec). |
| Validators.Sanitize | src/Utils/Validator.php:164-175 | Returns the input's digits, in order. |
| Validators.Verificador | src/Utils/Validator.php:35-36 | A check digit is (10·soma) mod 11, with 10 read as 0, so it lies in 0..9. |
| Validators.Cpf | src/Utils/Validator.php:15-48 | The two summing loops return exactly `CpfValido`: 11 digits, not all equal, both mod-11 check digits right. |
| Validators.Exigido | src/Utils/Validator.php:207-211 | At most one message per field; none iff the field is non-empty and valid. |
| Validators.Exigir | src/Utils/Validator.php:207-211 | The if/elseif step returns `Exigido`. |
| Validators.ValidarCliente | src/Utils/Validator.php:202-240 | The appending method returns `ErrosCliente` of the data (see ErrosClienteOrdem, ErrosClienteVazio). |
| ValidatorProperties.SanitizeSpec | src/Utils/Validator.php:164-175 | The result is all digits; sanitizing is idempotent, is the identity exactly on all-digit input, and distributes over concatenation. |
| ValidatorProperties.CpfIgnoraFormatacao | src/Utils/Validator.php:18 | The formatted and the plain spelling of a CPF get the same verdict. |
| ValidatorProperties.CpfExemplo | src/Utils/Validator.php:15-48 | 529.982.247-25 is valid, formatted or not. |
| ValidatorProperties.CpfValidoPorDigitos | src/Utils/Validator.php:15-48 | For an all-digit string the rule is: length 11, not repeated, last two digits equal to the check digits. |
| ValidatorProperties.RepetidoRejeitado | src/Utils/Validator.php:26-28 | Eleven equal digits pass both check digits; only the repetition rule rejects them. |
| ValidatorProperties.SomaUns | src/Utils/Validator.php:31-44 | For the all-ones string, the weighted sum is the sum of the weights. |
| ValidatorProperties.TelefoneSpec | src/Utils/Validator.php:61-71 | A phone is valid iff it has 10 or 11 digits and the first is not 0. |
| Validators.Telefone | src/Utils/Validator.php:61-71 | The phone rule; TelefoneSpec proves it is exactly 10 or 11 digits with a non-zero first digit. |
| ValidatorProperties.NumeroGeradoValido | src/Utils/Validator.php:138-142 | Every number `gerarNumeroConta` can produce passes `numeroConta` (Conta.php:29-37). |
| ValidatorProperties.NumeroContaSpec | src/Utils/Validator.php:138-142 | Holds iff the string has length 7, or length 8 with a final newline (the `$` anchor), a '-' at position 5 and a digit at each other of the first seven positions; with examples on both sides. |
| Validators.NumeroConta | src/Utils/Validator.php:138-142 | The account-number rule; NumeroContaSpec proves its exact shape and NumeroGeradoValido that every generated number passes. |
| ValidatorProperties.ExigidoCampo | src/Utils/Validator.php:207-232 | Each field's messages concern that field only. |
| ValidatorProperties.CrescenteConcat | src/Utils/Validator.php:202-240 | Concatenating lists whose fields increase, each earlier below each later, keeps them increasing. |
| ValidatorProperties.ErrosClienteOrdem | src/Utils/Validator.php:202-240 | At most one message per field, fields in the order nome, cpf, email, telefone, data_nascimento. |
| ValidatorProperties.OrdemCinco | src/Utils/Validator.php:202-240 | Lists of at most one message each, about fields 0..4, concatenate with the fields strictly increasing. |
| ValidatorProperties.ErrosClienteVazio | src/Utils/Validator.php:202-240 | No errors iff every required field is present and valid and the birth date is absent or valid. |
| ValidatorProperties.TiposSpec | src/Utils/Validator.php:147-159 | `tipoConta` accepts exactly the types the account loaders instantiate; `tipoOperacao` exactly the operations both fee tables price. |
| Validators.TipoConta | src/Utils/Validator.php:147-150 | The account-type rule; TiposSpec proves it accepts exactly the types the loaders instantiate. |
| Validators.TipoOperacao | src/Utils/Validator.php:155-159 | The operation-type rule; TiposSpec proves it accepts exactly the operations both fee tables price. |
| Queries.Condicoes | src/Database/QueryBuilder.php:139-147 | One condition string per clause, the first without its boolean. |
| Queries.Colunas | src/Database/QueryBuilder.php:197 | The columns of an insert or update, in the array's order, one per entry. |
| Queries.Valores | src/Database/QueryBuilder.php:202 | The values, in the same order, one per entry. |
| Queries.Interrogacoes | src/Database/QueryBuilder.php:198 | One `?` per entry. |
| Queries.WhereString | src/Database/QueryBuilder.php:135-150 | Empty with no conditions; otherwise " WHERE " followed by the condition strings joined by spaces. |
| Queries.QueryBuilder.constructor | src/Database/QueryBuilder.php:299-302 | A new builder is the fresh builder on the table: `*` selected, no conditions, joins, ordering, limit or bindings. |
| Queries.QueryBuilder.Table | src/Database/QueryBuilder.php:24-28 | Sets the table; nothing else changes. |
| Queries.QueryBuilder.Select | src/Database/QueryBuilder.php:33-37 | Replaces the selected columns; nothing else changes. |
| Queries.QueryBuilder.SelectOne | src/Database/QueryBuilder.php:33-37 | A single column becomes a one-element list. |
| Queries.QueryBuilder.Where | src/Database/QueryBuilder.php:42-53 | Appends one AND condition and its value as one binding. |
| Queries.QueryBuilder.OrWhere | src/Database/QueryBuilder.php:58-69 | Appends one OR condition and its binding. |
| Queries.QueryBuilder.Join | src/Database/QueryBuilder.php:74-85 | Appends one INNER join. |
| Queries.QueryBuilder.LeftJoin | src/Database/QueryBuilder.php:90-101 | Appends one LEFT join. |
| Queries.QueryBuilder.OrderBy | src/Database/QueryBuilder.php:106-110 | Appends "column direction" to the ordering. |
| Queries.QueryBuilder.Limit | src/Database/QueryBuilder.php:115-119 | Sets the limit. |
| Queries.QueryBuilder.ToSql | src/Database/QueryBuilder.php:124-163 | The loops build SELECT, FROM, the joins in order, then WHERE, ORDER BY and LIMIT when present. |
| Queries.QueryBuilder.First | src/Database/QueryBuilder.php:177-182 | Sets the limit to 1 and returns the query and its bindings. |
| Queries.QueryBuilder.Find | src/Database/QueryBuilder.php:187-190 | Adds `id = ?` bound to the id, then `first`. |
| Queries.QueryBuilder.Insert | src/Database/QueryBuilder.php:195-203 | The INSERT names the columns, has one `?` each and passes the values in column order. |
| Queries.QueryBuilder.Update | src/Database/QueryBuilder.php:208-242 | One `column = ?` per entry and the conditions; parameters are entry values then condition bindings. |
| Queries.QueryBuilder.Delete | src/Database/QueryBuilder.php:247-270 | DELETE FROM the table with the conditions and their bindings. |
| Queries.QueryBuilder.Count | src/Database/QueryBuilder.php:275-286 | Selects `COUNT(*) as total` for the query and leaves the builder as it was. |
| QueryProperties.NovaConsistente | src/Database/QueryBuilder.php:299-302 | A fresh builder selects `*`, has no bindings and is consistent (as many bindings as conditions). |
| QueryProperties.WhereMantem | src/Database/QueryBuilder.php:42-69 | `where`/`orWhere` keep the bindings in step with the conditions, one each. |
| QueryProperties.JoinAbsent | src/Database/QueryBuilder.php:149 | Joining pieces without a character produces none. |
| QueryProperties.JoinCount | src/Database/QueryBuilder.php:149 | Joining pieces with one `c` each, by a separator without `c`, gives one `c` per piece. |
| QueryProperties.UmaInterrogacao | src/Database/QueryBuilder.php:140 | A condition string holds exactly one `?` when column and operator hold none. |
| QueryProperties.CondicaoConta | src/Database/QueryBuilder.php:139-147 | Every condition string holds exactly one `?`. |
| QueryProperties.WherePartConta | src/Database/QueryBuilder.php:135-150 | The WHERE part holds exactly one `?` per condition. |
| QueryProperties.JoinsAbsent | src/Database/QueryBuilder.php:130-132 | The join clauses add no `?`. |
| QueryProperties.IntSemInterrogacao | src/Database/QueryBuilder.php:158-160 | A printed limit holds no `?`. |
| QueryProperties.SelectPlaceholders | src/Database/QueryBuilder.php:124-182 | The SELECT holds exactly one `?` per binding the builder collected. |
| QueryProperties.CountPlaceholders | src/Database/QueryBuilder.php:275-286 | The `count` statement takes the same bindings. |
| QueryProperties.InsertPlaceholders | src/Database/QueryBuilder.php:195-203 | INSERT: one `?` per column, and the values passed are the entries' values in order. |
| QueryProperties.UpdatePlaceholders | src/Database/QueryBuilder.php:208-242 | UPDATE: one `?` per assignment and per condition, matching its parameter list. |
| QueryProperties.DeletePlaceholders | src/Database/QueryBuilder.php:247-270 | DELETE: one `?` per condition, matching the bindings. |
| QueryProperties.ExemploTeste | tests/teste_querybuilder.php:88-94 | The test's builder yields `SELECT nome, email FROM clientes WHERE ativo = ? AND created_at > ? ORDER BY nome ASC LIMIT 10` with parameters 1 and '2025-01-01'. |
| Routing.Split | src/Router.php:62-73 | Splitting on `/` gives at least one piece, none containing `/`. |
| Routing.Router.constructor | src/Router.php:12-15 | The base path is trimmed of trailing `/`; no routes. |
| Routing.Router.AddRoute | src/Router.php:37-44 | Appends one route with the base path prefixed; nothing else changes. |
| Routing.Router.Post | src/Router.php:17-20 | Appends a POST route. |
| Routing.Router.Get | src/Router.php:22-25 | Appends a GET route. |
| Routing.Router.Put | src/Router.php:27-30 | Appends a PUT route. |
| Routing.Router.Delete | src/Router.php:32-35 | Appends a DELETE route. |
| Routing.Router.Dispatch | src/Router.php:46-60 | None (404) iff no route accepts the method and path. Otherwise the first accepting route in registration order, with `extractParams`' parameters. |
| RoutingProperties.SplitJoin | src/Router.php:62-73 | Splitting on `/` and joining with `/` gives the path back. |
| RoutingProperties.CapturasSpec | src/Router.php:68-73 | There is one capture per placeholder segment, and each capture is non-empty and one of the request path's segments. |
| RoutingProperties.ParamsSpec | src/Router.php:64-72 | A match passes one parameter per placeholder; each is non-empty and holds no `/`. |
| RoutingProperties.CasaLiteral | src/Router.php:62-66 | Matching is anchored: a pattern with no placeholder matches exactly its own text, and a pattern matches itself. |
| RoutingProperties.SemPlaceholders | src/Router.php:62-66 | A pattern whose placeholder count is zero has no placeholder segment. |
| RoutingProperties.SaldoExemplo | public/index.php:56-59 | `/contas/{numero}/saldo` takes `/contas/12345-6/saldo` with parameter `12345-6`. |
| RoutingProperties.SaldoSemSufixo | public/index.php:56-59 | The same route refuses `/contas/12345-6`. |
| RoutingProperties.SplitSegment | src/Router.php:62-66 | A segment without `/` splits into itself. |
| RoutingProperties.SplitCons | src/Router.php:62-66 | Splitting a segment, `/` and a rest gives the segment followed by the rest's pieces. |
| ValidationErrors.Nova | src/Utils/ValidationException.php:14-25 | The exception keeps the list and the code, and its message is the fixed prefix followed by the errors joined with `, ` (see MensagemSpec). |
| ValidationErrors.Mensagem | src/Utils/ValidationException.php:17 | The message always begins with the fixed prefix; a single error follows it alone. |
| ValidationErrors.GetErrors | src/Utils/ValidationException.php:22-25 | Returns the list the exception was built with (see MensagemSpec). |
| ValidationErrorProperties.MensagemSpec | src/Utils/ValidationException.php:14-25 | The message is the prefix alone for no errors, prefix + error for one, and each further error is appended after ", ". `getErrors` returns the list; the code defaults to 400. |
| ValidationErrorProperties.MensagemExemplo | tests/teste_validation_exception.php:12-17 | `['CPF inválido','Email inválido']` gives `Erro de validação: CPF inválido, Email inválido`. |
| Autoload.Arquivo | autoload.php:17-41 | A class outside `SistemaBancario\` maps to no file. Otherwise: base directory + the rest of the name with `\` made the separator + `.php`. |
| AutoloadProperties.ArquivoSpec | autoload.php:25-35 | A mapped path starts with the base directory and ends with `.php`. Between them is the name without the prefix, as long as that rest, with no `\` left when the separator is another character; the name is recoverable when it had no separator. |
| AutoloadProperties.ArquivoExemplo | autoload.php:10-11 | `SistemaBancario\Models\Cliente` maps to `src/Models/Cliente.php` under the project directory. |
| AutoloadProperties.ArquivoFora | autoload.php:25-29 | The class name `PDO`, which lacks the prefix, maps to no file. |
| Store.Select | src/Database/Connection.php:137-141 | Every selected row is a table row satisfying the predicate, and there are at most as many as rows (SelectComplete: every satisfying row is selected). |
| Store.First | src/Database/QueryBuilder.php:177-182 | A found row is a table row satisfying the predicate; nothing is found iff no row satisfies it. |
| Store.InsertSpec | src/Database/Connection.php:108-112 | INSERT keeps the table valid, stores the row under a fresh id and leaves the others alone. |
| Store.UpdateSpec | src/Database/Connection.php:117-121 | UPDATE keeps the table valid, changes only that id's row, and affects one row iff it exists. |
| Store.DeleteSpec | src/Database/Connection.php:117-121 | DELETE keeps the table valid, removes exactly that id, and affects one row iff it existed. |
| Store.ReplaceRestores | src/Database/Connection.php:117-121 | Writing a row and then its old content back restores the table. |
| Store.ReplaceIdempotent | src/Database/Connection.php:117-121 | Writing the same content twice equals writing it once. |
| Sorting.SortBySpec | src/Database/QueryBuilder.php:153-155 | ORDER BY returns a permutation of its input, sorted. |
| Sorting.SortedPrefix | src/Database/QueryBuilder.php:153-160 | `ORDER BY` then `LIMIT`: the rows kept are rows of the sorted list, and each row cut off sorts no earlier than the last kept. |
| Sorting.Limit | src/Database/QueryBuilder.php:158-160 | `LIMIT n` keeps the first n rows; a negative n means no limit. |
| Text.JoinSnoc | src/Utils/ValidationException.php:17 | `implode` one element at a time: one more item appends the separator and the item. |
| Text.ReplaceCharBack | autoload.php:35 | Replacing `\` by `/` is undone by the reverse replacement when `/` did not occur. |

## Left out

- Schema constraints. The table store enforces no UNIQUE, NOT NULL or FOREIGN KEY constraint
  and raises no constraint-violation exception: every INSERT, UPDATE and DELETE on a valid
  table succeeds. The schema the tests load (`database/create_tables.sql`) is not part of this
  model, while the connection throws PDO exceptions (config/database.php:24) and turns foreign
  keys on (config/database.php:35). A write the database would refuse, such as deleting a
  client who still owns accounts or inserting a duplicate CPF under a UNIQUE index, succeeds here.
- I/O. The PDO/SQLite connection, pragmas and config files become an abstract store of
  tables. This covers `src/Database/Connection.php`, the controllers, `Response` and
  `public/index.php`. Router's reading of `$_SERVER`, `parse_url`, `call_user_func_array`
  and the 404 response are I/O too: `dispatch` returns the chosen route and parameters,
  and None stands for the 404.
- The clock. `date('Y-m-d H:i:s')` is a `now` parameter of `ActiveRecord` and `Transacoes`.
  Account and client rows carry no `created_at` or `updated_at` column, although
  `Model::insert` and `Model::update` write them for every class (Model.php:83-84, 103).
  `Validator::email` (`filter_var`), `Validator::nome` (a Unicode regex) and
  `dataNascimento` are predicate parameters of `validarCliente`. `getIdade` reads the clock
  and is not modelled.
- Randomness. `rand()` in `gerarNumeroConta` is a finite stream of draws. The source loops
  until a free number comes up; Contas.Conta.GerarNumeroConta instead reports running out of
  draws as an error, which the source cannot produce.
- Formatting. `number_format`/`'R$ '` presentation is left out: `getSaldoFormatado`,
  `consultarSaldoDetalhado`, `toArray`, `toJson`, `getValorFormatado`,
  `getTarifaFormatada` and `getDataFormatada`.
- Floats. Money is an exact real, so IEEE rounding is left out, as are float parsing
  (`valorMonetario`, `sanitizeValor`) and `validarTransacao`, which depends on them.
- Routing.Router.Dispatch: a pattern is compared segment by segment, each `{...}` matching
  one non-empty segment without `/`. Literal text holding regex metacharacters, and
  placeholders that share a segment with other text, are not modelled; no route in
  `public/index.php` uses either.
- `Model::all`, `query`, `__isset`, `exists()`, `fresh()`, `getNomeCompleto` and
  `Conta::getCliente` have no property of their own. `Conta::getCliente` appears only as
  the owner lookup inside `ContaService.ClienteDaConta`.
- The `error_log` call of `bloquearConta` and the autoloader's `file_exists`/`require`,
  `ini_set`, timezone and `echo` side effects are left out.
- Concurrency, locking and rollback: the code has none, and none is claimed.
- Contas.Conta.BuscarPorNumero: loads the account with its id, following the corrected reading of Findings row 1.
- Contas.Conta.BuscarPorCliente: loads each account with its id, following the corrected reading of Findings row 1.
- Contas.Conta.BuscarPorCliente: returns the accounts in id order. The source orders by `created_at ASC`, a one-second clock whose ties come in no set order; id order is taken for it.
- ContaProperties.BuscarPorClienteSpec: states id order where the source orders by `created_at ASC`; the two agree when no two accounts of the client share a second.
- ActiveRecord.Model.Find: loads the model with its id attribute, following the corrected reading of Findings row 1.
- ActiveRecord.Model.Load: keeps the id attribute of the row it loads (Model.php:144-147 drops it), following the corrected reading of Findings row 1.
- Clientes.PorCampo: returns the found client with its row id, following the corrected reading of Findings row 1.
- Clientes.Cliente.BuscarPorCpf: loads the found client with its id, following the corrected reading of Findings row 1.
- Clientes.Cliente.BuscarPorEmail: loads the found client with its id, following the corrected reading of Findings row 1.
- Clientes.Cliente.Ativos: loads each active client with its id, following the corrected reading of Findings row 1.
- Transacoes.BuscarPorConta: loads each record with its id, following the corrected reading of Findings row 1.
- Transacoes.BuscarPorContaPadrao: loads each record with its id, following the corrected reading of Findings row 1.
- Transacoes.Carregar: loads each record with its id, following the corrected reading of Findings row 1.
- The as-written loaders are `ActiveRecord.Model.FindComoEscrito` and
  `Clientes.CarregarComoEscrito`. For accounts, `ContaProperties.PersistSemId` states the
  consequence: an account loaded without its id saves nothing and never returns true. The
  account members follow the corrected loader.
- ContaSpec.LoadAll: follows the corrected reading of Findings row 3, in which a lookup on the abstract Conta loads each row as the class its type names; as written that lookup throws first (ContaServiceProperties.ServicoComoEscrito).
- Contas.Conta.BuscarPorNumero: follows the corrected reading of Findings row 3, in which a lookup on the abstract Conta loads each row as the class its type names; as written that lookup throws first (ContaServiceProperties.ServicoComoEscrito).
- ContaProperties.BuscarPorNumeroSpec: follows the corrected reading of Findings row 3, in which a lookup on the abstract Conta loads each row as the class its type names; as written that lookup throws first (ContaServiceProperties.ServicoComoEscrito).
- ContaProperties.LoadAllSpec: follows the corrected reading of Findings row 3, in which a lookup on the abstract Conta loads each row as the class its type names; as written that lookup throws first (ContaServiceProperties.ServicoComoEscrito).
- ContaProperties.BuscarPorClienteSpec: follows the corrected reading of Findings row 3, in which a lookup on the abstract Conta loads each row as the class its type names; as written that lookup throws first (ContaServiceProperties.ServicoComoEscrito).
- ContaService.AbrirConta: follows the corrected reading of Findings row 3, in which a lookup on the abstract Conta loads each row as the class its type names; as written that lookup throws first (ContaServiceProperties.ServicoComoEscrito).
- ContaService.AbrirContaCorrente: follows the corrected reading of Findings row 3, in which a lookup on the abstract Conta loads each row as the class its type names; as written that lookup throws first (ContaServiceProperties.ServicoComoEscrito).
- ContaService.AbrirContaCorrentePadrao: follows the corrected reading of Findings row 3, in which a lookup on the abstract Conta loads each row as the class its type names; as written that lookup throws first (ContaServiceProperties.ServicoComoEscrito).
- ContaService.AbrirContaPoupanca: follows the corrected reading of Findings row 3, in which a lookup on the abstract Conta loads each row as the class its type names; as written that lookup throws first (ContaServiceProperties.ServicoComoEscrito).
- ContaService.Buscar: follows the corrected reading of Findings row 3, in which a lookup on the abstract Conta loads each row as the class its type names; as written that lookup throws first (ContaServiceProperties.ServicoComoEscrito).
- ContaService.AlterarLimiteChequeEspecial: follows the corrected reading of Findings row 3, in which a lookup on the abstract Conta loads each row as the class its type names; as written that lookup throws first (ContaServiceProperties.ServicoComoEscrito).
- ContaService.BloquearConta: follows the corrected reading of Findings row 3, in which a lookup on the abstract Conta loads each row as the class its type names; as written that lookup throws first (ContaServiceProperties.ServicoComoEscrito).
- ContaService.DesbloquearConta: follows the corrected reading of Findings row 3, in which a lookup on the abstract Conta loads each row as the class its type names; as written that lookup throws first (ContaServiceProperties.ServicoComoEscrito).
- ContaService.ValidarOperacao: follows the corrected reading of Findings row 3, in which a lookup on the abstract Conta loads each row as the class its type names; as written that lookup throws first (ContaServiceProperties.ServicoComoEscrito).
- ContaService.ListarContasCliente: follows the corrected reading of Findings row 3, in which a lookup on the abstract Conta loads each row as the class its type names; as written that lookup throws first (ContaServiceProperties.ServicoComoEscrito).
- ContaServiceProperties.LocalizarFound: follows the corrected reading of Findings row 3, in which a lookup on the abstract Conta loads each row as the class its type names; as written that lookup throws first (ContaServiceProperties.ServicoComoEscrito).
- ContaServiceProperties.LocalizarAfterRewrite: follows the corrected reading of Findings row 3, in which a lookup on the abstract Conta loads each row as the class its type names; as written that lookup throws first (ContaServiceProperties.ServicoComoEscrito).
- ContaServiceProperties.PersistLoaded: follows the corrected reading of Findings row 3, in which a lookup on the abstract Conta loads each row as the class its type names; as written that lookup throws first (ContaServiceProperties.ServicoComoEscrito).
- ContaServiceProperties.KindForNone: follows the corrected reading of Findings row 3, in which a lookup on the abstract Conta loads each row as the class its type names; as written that lookup throws first (ContaServiceProperties.ServicoComoEscrito).
- ContaServiceProperties.AberturaGuardSpec: follows the corrected reading of Findings row 3, in which a lookup on the abstract Conta loads each row as the class its type names; as written that lookup throws first (ContaServiceProperties.ServicoComoEscrito).
- ContaServiceProperties.AberturaSpec: follows the corrected reading of Findings row 3, in which a lookup on the abstract Conta loads each row as the class its type names; as written that lookup throws first (ContaServiceProperties.ServicoComoEscrito).
- ContaServiceProperties.AberturaUnica: follows the corrected reading of Findings row 3, in which a lookup on the abstract Conta loads each row as the class its type names; as written that lookup throws first (ContaServiceProperties.ServicoComoEscrito).
- ContaServiceProperties.AberturaPadrao: follows the corrected reading of Findings row 3, in which a lookup on the abstract Conta loads each row as the class its type names; as written that lookup throws first (ContaServiceProperties.ServicoComoEscrito).
- ContaServiceProperties.AlteracaoDeLimiteSpec: follows the corrected reading of Findings row 3, in which a lookup on the abstract Conta loads each row as the class its type names; as written that lookup throws first (ContaServiceProperties.ServicoComoEscrito).
- ContaServiceProperties.BloqueioSpec: follows the corrected reading of Findings row 3, in which a lookup on the abstract Conta loads each row as the class its type names; as written that lookup throws first (ContaServiceProperties.ServicoComoEscrito).
- ContaServiceProperties.BloqueioDuasVezes: follows the corrected reading of Findings row 3, in which a lookup on the abstract Conta loads each row as the class its type names; as written that lookup throws first (ContaServiceProperties.ServicoComoEscrito).
- ContaServiceProperties.DesbloqueioSpec: follows the corrected reading of Findings row 3, in which a lookup on the abstract Conta loads each row as the class its type names; as written that lookup throws first (ContaServiceProperties.ServicoComoEscrito).
- ContaServiceProperties.BloqueioDesbloqueio: follows the corrected reading of Findings row 3, in which a lookup on the abstract Conta loads each row as the class its type names; as written that lookup throws first (ContaServiceProperties.ServicoComoEscrito).
- ContaServiceProperties.ValidarOperacaoSpec: follows the corrected reading of Findings row 3, in which a lookup on the abstract Conta loads each row as the class its type names; as written that lookup throws first (ContaServiceProperties.ServicoComoEscrito).
- ContaServiceProperties.ListarContasClienteSpec: follows the corrected reading of Findings row 3, in which a lookup on the abstract Conta loads each row as the class its type names; as written that lookup throws first (ContaServiceProperties.ServicoComoEscrito).
- Loose comparisons. `ActiveRecord.KeyOf` reads only an integer id, where SQLite's
  `WHERE id = ?` would also match a real or text id of the same value. `Transacoes.LooseEqInt`
  accepts only canonical digit strings, which is narrower than PHP's numeric-string `==`.
  `Clientes.CpfFormatado` counts characters where `strlen` (Cliente.php:119) counts bytes.
  None of this matters for the ids and CPFs the code writes.

## Findings

| source | as written | input that shows it | evidently intended | confidence | as-written member | corrected member |
|---|---|---|---|---|---|---|
| src/Models/Model.php:136-151 | `find` builds the model with `new static($data)`. `fill` keeps only `$fillable` keys, and no model class lists `id`, so the loaded model has no id. `update` then binds `WHERE id = NULL`: nothing changes and false is returned; `delete` fails likewise. | `Cliente::find(1)` on a table holding client 1, then `save()` | The loaded model keeps its id, and saving it rewrites its row | not executed | ActiveRecordProperties.FindThenSaveComoEscrito | ActiveRecordProperties.FindThenSave |
| src/Models/Cliente.php:165-168 | The re-save check compares `$clienteExistente->id !== $this->id`, but the loaded client has no id. An inserted client saved again through the same object therefore fails with "CPF já cadastrado". A new client (id null) whose CPF is already stored passes the application's duplicate check, since `null !== null` is false. Whether the INSERT then succeeds depends on the database schema, which is not modelled. | Insert a client, then call `save()` on the same object again; or save a new client with a stored CPF | Re-saving with one's own CPF succeeds, and another client's CPF is refused | not executed | ClienteProperties.ResalvarRejeitadoComoEscrito | ClienteProperties.ResalvarAceito |
| src/Models/Model.php:175-179 | `query()` runs `new static()`. ContaService calls `Conta::buscarPorNumero` and `Conta::buscarPorCliente` (ContaService.php:34, 68, 86, 121, 146, 170, 210, 243) on the abstract `Conta`, so PHP throws "Cannot instantiate abstract class" before any row is read; it is an `Error`, which `catch (\Exception)` does not catch. Opening and listing fail after the client checks, and every other account use case fails on every input. | Store account "12345-6" as checking and unblocked, with an active owner, then call `ContaService::bloquearConta('12345-6')` | The lookup reads the row and instantiates the class its `tipo_conta` names (Conta.php:50-54), so the account is blocked, as tests/teste_conta_service.php:94 expects | not executed | ContaServiceProperties.BloqueioDiverge | ContaServiceProperties.BloqueioSpec |
