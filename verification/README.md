# Cast settlement: a verified model

This project models the settlement machinery of the Cast framework in Dafny and proves what it
promises. It has three parts.

**The Tezos token.** A ForgeBond token keeps balances with locked amounts, a repository of
settlement transactions, operator roles and a table of packed lambdas. A subscription locks the
owner's tokens, a received payment moves and unlocks them, a transferred payment closes the
transaction. A run is any sequence of calls by any senders; a rejected call changes nothing.
`Ledger` holds the library lambdas, `Dispatch` the packed table, `ForgeBonds` the contract,
`TokenRuns` the invariant of all runs, and `TokenProperties` what follows from it. `Deployment`
carries the library from builder to factory to token, and `Registry` is the two-index instrument
list.

**The oracles.** `Positions` reports a token's ledger, `Redemption` plans the settlement of a
redemption, `SettlementRepository` stores the plan under payment references, `SettlementOracle`
confirms what a reference finds, and `PaymentReach` puts the four together. `Identifiers` carries
ids between UUIDs and on-chain numbers. `Listeners` is the check-and-mark of event listeners under
asynchronous interleavings.

**The contract toolchain.** `CommandBuilder` is the mutable command builder behind contract code,
`Michelson` and `MichelsonCompressor` the line splitter and compressor, `BlockSyntax` the rewriter
of `sp.if` and its relatives, and `StorageTemplate` the placeholder substitution. `Text`,
`MapSums` and `Wrappers` are shared helpers.

## How the code is represented

- Contracts, services and the builder are classes whose methods assign their fields; loops of the
  source are loops here. Each method is proved against a function of its inputs or the old state,
  and the promises are proved about that function over all runs. The command builder works on
  heap objects with a current-block pointer, and is proved against the tree that code denotes.
- A failed `sp.verify` aborts a whole call, so contract methods write fields after the last check.
- Whether the event sink offers its entry points is a parameter of each call. The Transfer and
  PaymentReceived notifications of one confirmation are one batch, without an order between them.
- PACK, UNPACK and name packing are parameters (`Codec`) assumed injective and inverse where a
  lemma says `Faithful`. Generated ids and payment references are parameters (`Generators`): those
  one plan uses are assumed fresh and distinct where a lemma says so, and
  `PaymentReach.GeneratorsExist` and `PaymentReach.ConcreteRedemption` show that they can be.
- A token runs the code it unpacked from its table, and a builder's names are bound to values that
  later code can use again, so lambdas are shared on the heap as in the original.
- An asynchronous function is cut at its `await` points: each piece is one method, and pieces of
  different attempts interleave freely.
- Maps walked by a loop are walked in an arbitrary order.

## Where code and expectation differ

The model follows the code in each case.

- `authorizeOperator` (packages/cast/cast-tz-v1/src/common/libs/operators/lambda.py:23) demands that
  the role is already present. Authorizing therefore never grants a role
  (`Ledger.AuthorizeGrantsNothing`), and no run does (`TokenProperties.NoRunGrantsARole`).
- `verify_equal` (packages/cast/cast-tz-v1/package/smartpy.py:1640-1641) passes the message and the
  ghost flag in swapped positions. The owner check of `initiateSubscription` is taken to be in force
  with its own message, as packages/cast/cast-tz-v1/src/bond/test/CreateSubscription.spec.ts:208-220
  expects.
- In the Michelson splitting loop the keyword branch does not reset the cursor, so a keyword past
  the start of a piece can raise an index error: with one such keyword exactly when tokens follow
  it, but no more of them than its piece already held (`Michelson.OneMisplacedKeyword`). Otherwise
  the loop skips as many tokens as that without looking at them, which can hide the end of a piece
  from it (`Michelson.SkippedEndRaises`). A comment is dropped when its line ends with a keyword or
  a delimiter.
- A `sp.for` header that ends before its third word makes `adaptBlocks` raise an index error, for
  instance `sp.for x:` (`BlockSyntax.TruncatedLoopsExist`).
- Placeholder substitution is not simultaneous for every value. A dollar steers `replace` when a
  dollar, an ampersand, a backquote or a quote follows it, and a value with `@` can bring a later
  placeholder in front of its place. Without both, the substitution is simultaneous
  (`StorageTemplate.SequentialIsSimultaneous`). For values without `@` that do not copy the text
  around the match, it is simultaneous exactly when no value steers `replace`
  (`StorageTemplate.SimultaneousExactlyWhen`).
- An exception inside a lambda leaves the builder's current block on that lambda's block, and a
  builder opened for the lambda stays open; a `with` block undoes this, a bare lambda does not
  (`CommandBuilder.BareLambdasLeak`, and `CommandBuilder.LeaksExactlyWhen` for all code).
- A lambda's expression is the same object at every use, so a lambda built once and used twice puts
  its id into the tree twice (`CommandBuilder.BuiltOnceUsedTwice`).
- The missing-account message of a direct redemption speaks of an intermediate IBAN; it is kept.

## Model

| member | source | states |
|---|---|---|
| `Ledger.Lock` | packages/cast/cast-tz-v1/src/common/libs/balances/blocks.py:5-20 | locks exactly when the account exists and its unlocked balance covers the quantity; only that account's locked amount grows |
| `Ledger.InitiateSubscription` | packages/cast/cast-tz-v1/src/common/libs/subscription/lambda.py:16-52 | the step-by-step lambda yields the outcome described entry by entry, with its error cases |
| `Ledger.ConfirmPaymentReceived` | packages/cast/cast-tz-v1/src/common/libs/settlements/lambda.py:12-52 | the step-by-step credit, debit and unlock yield the balances described account by account, also when the receiver is the owner, and fail exactly where `as_nat` or a lookup fails |
| `Ledger.ConfirmPaymentTransferred` | packages/cast/cast-tz-v1/src/common/libs/settlements/lambda.py:55-77 | only a transaction whose cash was received is closed |
| `Ledger.AuthorizeGrantsNothing` | packages/cast/cast-tz-v1/src/common/libs/operators/lambda.py:9-29 | authorizing succeeds exactly for a role already held, and then changes nothing |
| `Ledger.RevokeRemovesExactly` | packages/cast/cast-tz-v1/src/common/libs/operators/lambda.py:32-49 | revoking needs a registrar and a held role, and removes that role of that operator and no other |
| `ForgeBonds.ForgeBond.InitiateSubscription` | packages/cast/cast-tz-v1/src/bond/ForgeBond/ForgeBond_contract.py:119-157 | the entry point runs the code its table holds, and either follows the storage-and-events step or leaves the token alone with the step's error |
| `ForgeBonds.ForgeBond.ConfirmPaymentReceived` | packages/cast/cast-tz-v1/src/bond/ForgeBond/ForgeBond_contract.py:161-194 | same, for the payment |
| `ForgeBonds.ForgeBond.ConfirmPaymentTransferred` | packages/cast/cast-tz-v1/src/bond/ForgeBond/ForgeBond_contract.py:198-221 | same, for the transfer to the issuer |
| `ForgeBonds.ForgeBond.Run` | packages/cast/cast-tz-v1/src/bond/ForgeBond/ForgeBond_contract.py:225-266 | same, for the two operator lambdas reached by name |
| `TokenRuns.StepEffect` | packages/cast/cast-tz-v1/src/bond/ForgeBond/ForgeBond_contract.py:119-266 | every successful call records one locked transaction, settles one, closes one, or only changes authorizations, each with exactly its own notification; `run` reports author, operator and role |
| `TokenRuns.RunKeepsInvariant` | packages/cast/cast-tz-v1/src/bond/ForgeBond/ForgeBond_contract.py:119-221 | every run by any senders keeps the ledger, solvency, supply, replay and trail invariants together |
| `TokenProperties.LedgerIsRecomputable` | packages/cast/cast-tz-v1/src/common/libs/settlements/lambda.py:33-47 | in every run accounts, locked amounts and balances are the sums over the recorded transactions |
| `TokenProperties.EventsAreReplayable` | packages/cast/cast-tz-v1/src/bond/ForgeBond/ForgeBond_contract.py:90-111 | in every run the emitted transfers replay to the balances, and each transaction's events are a non-repeating prefix of one fixed trail |
| `TokenProperties.SupplyIsConserved` | packages/cast/cast-tz-v1/src/bond/ForgeBondFactory/ForgeBondFactory_contract.py:30-59 | in every run balances add up to the unchanged supply and no account is over-locked |
| `TokenProperties.TransactionsOnlyMoveForward` | packages/cast/oracles/src/modules/fxo/settlementInfoService.service.ts:195-216 | between any two moments of a run a transaction keeps its details and operation type, its oracle status only moves right along ACKNOWLEDGED, PROCESSED, SETTLED, and CREATED and ERROR are never stored |
| `TokenProperties.ApplyEvolves` | packages/cast/cast-tz-v1/src/common/libs/settlements/lambda.py:69-75 | one call loses or rewrites nothing recorded and moves a status by at most one stage; new transactions start locked |
| `TokenProperties.NoRunGrantsARole` | packages/cast/cast-tz-v1/src/common/libs/operators/lambda.py:22-29 | no run ever gives anyone a role the token was not originated with |
| `TokenProperties.LockedTransactionsCanBePaid` | packages/cast/cast-tz-v1/src/common/libs/settlements/lambda.py:41-47 | in every run a confirmation succeeds exactly for a locked transaction, a settler and a working event sink: no `as_nat` can fail |
| `TokenProperties.SubscriptionsAccepted` | packages/cast/cast-tz-v1/src/common/libs/balances/blocks.py:10-18 | in every run a subscription succeeds exactly for an unused id, the owner as deliverer, a registrar, a working sink, and a quantity within the supply neither locked nor sent away |
| `TokenProperties.PaidTransactionsCanBeClosed` | packages/cast/cast-tz-v1/src/common/libs/settlements/lambda.py:56-77 | in every run closing succeeds exactly for a paid transaction, a settler and a working sink |
| `TokenProperties.ConfirmationOrderIsImmaterial` | packages/cast/cast-tz-v1/src/common/libs/settlements/lambda.py:41-47 | from any reachable token, confirming the same locked transactions in any two orders, each confirmation by any settler, succeeds throughout and ends in the same storage |
| `Deployment.CreateAndPlayBuilder.BuildCreateAndPlay` | packages/cast/cast-tz-v1/src/bond/CreateAndPlayBuilder/CreateAndPlayBuilder_contract.py:24-50 | adds the five packed lambdas to the scripts |
| `Deployment.CreateAndPlayBuilder.SendCreateAndPlay` | packages/cast/cast-tz-v1/src/bond/CreateAndPlayBuilder/CreateAndPlayBuilder_contract.py:52-73 | sends exactly the five entries, or fails when one was never built |
| `Deployment.ForgeBondFactory.Upgrade` | packages/cast/cast-tz-v1/src/bond/ForgeBondFactory/ForgeBondFactory_contract.py:165-173 | only the admin overwrites the table, with every entry sent, in any walking order |
| `Deployment.ForgeBondFactory.CreateForgeBond` | packages/cast/cast-tz-v1/src/bond/ForgeBondFactory/ForgeBondFactory_contract.py:35-71 | only the factory's own registrar creates a token; every field of its storage comes from the parameters and the factory, the owner holds the whole supply, and the listing request names the token |
| `Deployment.GuardsHold` | packages/cast/cast-tz-v1/src/bond/ForgeBondFactory/ForgeBondFactory_contract.py:119-173 | only the admin changes the table, directly or through the builder, and only the registrar creates tokens |
| `Deployment.CreatedTokensCarryTheirParameters` | packages/cast/cast-tz-v1/src/bond/ForgeBondFactory/ForgeBondFactory_contract.py:30-59 | after any deployment run a created token belongs to its owner, who alone has an account and holds the whole supply, and carries the name, ISIN, symbol, currency, sink and table it should |
| `Deployment.CreatedTokensResolve` | packages/cast/cast-tz-v1/src/bond/ForgeBondFactory/ForgeBondFactory_contract.py:37-61 | after any sequence of build, send, upgrade and create calls by any senders, a token then created starts a valid run with one registrar and one settler; its five names resolve when the library was sent and nothing sent around the builder touched it since, and exactly once it was sent when every upgrade came from the builder |
| `Deployment.FactoryHoldsTheLibrary` | packages/cast/cast-tz-v1/src/bond/ForgeBondFactory/ForgeBondFactory_contract.py:165-173 | whatever is called in between, the factory holds every library entry as long as the library is in place |
| `Deployment.FactoryHoldsNothingElse` | packages/cast/cast-tz-v1/src/bond/CreateAndPlayBuilder/CreateAndPlayBuilder_contract.py:24-73 | when every upgrade comes from the builder, the factory holds the library exactly once it was built and sent with the admin behind it, and nothing before |
| `Deployment.EntryPointsRunTheLibrary` | packages/cast/cast-tz-v1/src/globals.py:24-34 | on a resolving table an entry point does what the direct library call does, errors included, because it runs the code it loaded |
| `Deployment.RunsAreDirect` | packages/cast/cast-tz-v1/src/bond/ForgeBond/ForgeBond_contract.py:119-266 | every run on a resolving table, by any senders, is the run of direct library calls, storage and events alike |
| `Deployment.DeployedTokensRunTheLibrary` | packages/cast/cast-tz-v1/src/bond/ForgeBondFactory/ForgeBondFactory_contract.py:37-61 | the whole way from builder to factory to token: a deployed token behaves over every run as if its entry points called the library directly |
| `Registry.ForgeInstrumentRegistry.ListInstrument` | packages/cast/cast-tz-v1/src/ForgeInstrumentRegistry/ForgeInstrumentRegistry_contract.py:35-42 | follows the registry step, events included |
| `Registry.ForgeInstrumentRegistry.UnlistInstrument` | packages/cast/cast-tz-v1/src/ForgeInstrumentRegistry/ForgeInstrumentRegistry_contract.py:44-51 | follows the registry step, events included |
| `Registry.ForgeInstrumentRegistry.AuthorizeFactory` | packages/cast/cast-tz-v1/src/ForgeInstrumentRegistry/ForgeInstrumentRegistry_contract.py:21-25 | follows the registry step |
| `Registry.ForgeInstrumentRegistry.UnAuthorizeFactory` | packages/cast/cast-tz-v1/src/ForgeInstrumentRegistry/ForgeInstrumentRegistry_contract.py:27-33 | the deleting loop removes every entry of the address, in any walking order |
| `Registry.ForgeInstrumentRegistry.SenderIsFactory` | packages/cast/cast-tz-v1/src/ForgeInstrumentRegistry/ForgeInstrumentRegistry_contract.py:65-72 | the flag loop decides whether the sender is an authorized factory |
| `Registry.RunKeepsIndexesAgreeing` | packages/cast/cast-tz-v1/src/ForgeInstrumentRegistry/ForgeInstrumentRegistry_contract.py:21-51 | after every run both indexes hold the same instruments, each under its own key |
| `Registry.ListAddsExactlyOne` | packages/cast/cast-tz-v1/src/ForgeInstrumentRegistry/ForgeInstrumentRegistry_contract.py:35-42 | when listing succeeds, and that it adds exactly the one instrument to both indexes |
| `Registry.UnlistRemovesExactlyOne` | packages/cast/cast-tz-v1/src/ForgeInstrumentRegistry/ForgeInstrumentRegistry_contract.py:44-51 | unlisting removes exactly the one instrument from both indexes |
| `Registry.UnlistUndoesList` | packages/cast/cast-tz-v1/src/ForgeInstrumentRegistry/ForgeInstrumentRegistry_contract.py:35-51 | unlisting right after a successful listing restores the whole storage |
| `Registry.AuthorizeReplacesOneType` | packages/cast/cast-tz-v1/src/ForgeInstrumentRegistry/ForgeInstrumentRegistry_contract.py:21-25 | who is a factory after an authorization: the new address, and everyone not replaced under that type |
| `Registry.UnauthorizeRemovesEveryEntry` | packages/cast/cast-tz-v1/src/ForgeInstrumentRegistry/ForgeInstrumentRegistry_contract.py:27-33 | an unauthorized address is out under every type, and nobody else is |
| `Registry.UnauthorizedStaysLockedOut` | packages/cast/cast-tz-v1/src/ForgeInstrumentRegistry/ForgeInstrumentRegistry_contract.py:65-76 | over every run without a new authorization by the registrar, an unauthorized address cannot change the lists |
| `Registry.CallsAreGuardedAndReported` | packages/cast/cast-tz-v1/src/ForgeInstrumentRegistry/ForgeInstrumentRegistry_contract.py:21-51 | only the registrar changes who is a factory, and every accepted call reports exactly the instrument it listed or unlisted |
| `Positions.ReportedPositionsCoverTheSupply` | packages/cast/oracles/src/modules/fxo/position/position.service.ts:25-42 | in every token run and listing order, unlocked amounts are non-negative, balances add up to the supply, and percentages of a non-zero supply add up to exactly 1 |
| `Positions.PositionsShowTheLedger` | packages/cast/oracles/src/modules/fxo/position/position.service.ts:31-41 | the i-th position shows its own account's balance, locked and unlocked amount, value and share |
| `Positions.ValuesFollowBalances` | packages/cast/oracles/src/modules/fxo/position/position.service.ts:37 | reported values add up to the denomination times the reported balances |
| `Redemption.FindParticipant` | packages/cast/oracles/src/modules/fro/fro.redemption.service.ts:269-286 | finds a participant whose delivery account matches, ignoring case, exactly when there is one |
| `Redemption.GenerateSettlementTransactionsInputs` | packages/cast/oracles/src/modules/fro/fro.redemption.service.ts:147-267 | the pushing loop returns one planned transaction per paying position in order, or fails for the first reason there is |
| `Redemption.PlanPosition` | packages/cast/oracles/src/modules/fro/fro.redemption.service.ts:202-264 | the callback builds the transaction of one position, with its errors |
| `Redemption.PayingIsExact` | packages/cast/oracles/src/modules/fro/fro.redemption.service.ts:180-201 | paying positions are exactly the positive ones of others than the owner, with multiplicity |
| `Redemption.PayingKeepsOrder` | packages/cast/oracles/src/modules/fro/fro.redemption.service.ts:180-201 | the paid positions come in the order in which they are listed, from exactly the places that qualify |
| `Redemption.PlanningFailsBecause` | packages/cast/oracles/src/modules/fro/fro.redemption.service.ts:186-240 | which position is refused for which reason |
| `Redemption.PlanExistsExactlyWhen` | packages/cast/oracles/src/modules/fro/fro.redemption.service.ts:187-227 | planning can succeed exactly when the account the model needs is given and every paying position has a participant |
| `Redemption.PlanConserves` | packages/cast/oracles/src/modules/fro/fro.redemption.service.ts:244-263 | planned quantities add up to the paying balances, and payments to the denomination times that |
| `Redemption.PlannedTransactionsSettle` | packages/cast/oracles/src/modules/fro/fro.helper.ts:44-112 | each planned transaction delivers from the matched participant to the contract owner, pays along an unbroken cash chain from issuer to investor, and moves the token along its delivery |
| `Redemption.PlannedTransactionsNameTheRequest` | packages/cast/oracles/src/modules/fro/fro.helper.ts:89-112 | every transaction names the request's operation, instrument, model and readers and both legal entities, and every cash movement has the reference of its own id |
| `Redemption.PlannedIds` | packages/cast/oracles/src/modules/fro/fro.redemption.service.ts:186-264 | which generated ids a transaction and its movements get |
| `SettlementRepository.SettlementTransactionService.Create` | packages/cast/oracles/src/modules/str/str.service.ts:53-111 | a registrar saves a transaction with an unused id, its movements by cascade and their links; anything else changes nothing |
| `SettlementRepository.SettlementTransactionService.CreateAll` | packages/cast/oracle-clients/src/modules/strClient/strClient.service.ts:67-81 | saves one after the other, each after its own instrument's answer; it stops at the first input refused and leaves exactly the earlier ones saved |
| `SettlementRepository.SettlementTransactionService.GetByPaymentReference` | packages/cast/oracles/src/modules/str/str.service.ts:173-200 | returns each readable transaction on the user's chain that is linked to a movement with the reference, once |
| `SettlementRepository.LookupIsExact` | packages/cast/oracles/src/modules/str/str.censor.ts:33-87 | for any tables, user and reference the lookup answers exactly the stored rows that carry the reference, are on the user's chain and have the user as party, operator or additional reader, each once per place and in stored order |
| `SettlementRepository.SettlementTransactionService.GetLedgerForPaymentReference` | packages/cast/oracles/src/modules/str/str.service.ts:40-51 | answers the ledger of a linked transaction, nothing exactly when no movement has the reference, and raises only when the movement it found is linked to none |
| `SettlementRepository.MovementsAreStored` | packages/cast/oracles/src/modules/str/str.service.ts:76-92 | every movement of an input is stored as it is under its id, and no other movement changes |
| `SettlementOracle.FsoService.Confirm` | packages/cast/oracles/src/modules/fso/fso.service.ts:21-79 | issues calls of exactly the kind asked for, to a prefix of the matches in order, each with its own ledger, instrument and id, and all of them exactly when every call is accepted |
| `PaymentReach.ReferencesReachExactly` | packages/cast/oracles/src/modules/str/str.service.ts:40-51 | for a stored indirect redemption whose own ids and references are fresh and distinct, the shared reference finds every planned transaction once and in order, each onward reference finds its own alone, and all answer the instrument's ledger |
| `PaymentReach.PlansCanBeStored` | packages/cast/oracles/src/modules/str/str.service.ts:76-92 | no transaction of a plan with fresh ids is refused as already stored |
| `PaymentReach.OnePaymentConfirmsTheRedemption` | packages/cast/oracles/src/modules/fso/fso.service.ts:46-78 | confirming the issuer's payment means one call of the kind asked for per planned transaction, in order, to the redeemed instrument, each with its own on-chain id |
| `PaymentReach.GeneratorsExist` | packages/cast/oracles/src/modules/fro/fro.helper.ts:14-33 | for every plan small enough for the 16 digits of a reference there are canonical ids and 16-digit references that meet all that is asked |
| `PaymentReach.ConcreteRedemption` | packages/cast/oracles/src/modules/fro/fro.redemption.service.ts:186-264 | a redemption of two positions that meets every hypothesis of the flow |
| `Identifiers.NumbersRoundTrip` | packages/cast/oracles/src/utils/bigNumberUtils.ts:4-23 | formatting any natural number as a UUID and reading it back gives the number, beyond 128 bits too |
| `Identifiers.UuidsRoundTrip` | packages/cast/oracles/src/utils/bigNumberUtils.ts:39-41 | a lower-case canonical UUID (section 3 of RFC 4122) survives the way on chain as a decimal and back out of an event |
| `Identifiers.UuidsStayDistinct` | packages/cast/oracles/src/utils/bigNumberUtils.ts:20-41 | distinct canonical UUIDs stay distinct on chain |
| `Identifiers.FixedIsDecimal` | packages/cast/oracles/src/utils/bigNumberUtils.ts:39-41 | what is sent on chain is a decimal: decimal digits without a leading zero, as many as the number has |
| `Identifiers.FormatsUuidsBelow128Bits` | packages/cast/oracles/src/utils/bigNumberUtils.ts:4-17 | the formatted text is canonical exactly for numbers below 2 to the 128 |
| `Listeners.EventService.SubscribeToNewContract` | packages/cast/oracles/src/modules/fxo/event.service.ts:277-299 | the part up to the wait: check and mark in one go |
| `Listeners.EventService.ResumeWithFactoryAddress` | packages/cast/oracles/src/modules/fxo/event.service.ts:165-205 | the factory attempt from its address to its wait for the contract |
| `Listeners.EventService.ResumeWithContract` | packages/cast/oracles/src/modules/fxo/event.service.ts:305-313 | a success adds one live subscription; a failing subscribe call unmarks |
| `Listeners.EventService.ResumeWithError` | packages/cast/oracles/src/modules/fxo/event.service.ts:306-313 | a failure unmarks the address |
| `Listeners.AtMostOneListener` | packages/cast/oracles/src/modules/fxo/event.service.ts:193-239 | under every interleaving each address has at most one pending or live listener and is marked exactly when it has one |
| `Listeners.FailureLeavesSubscribable` | packages/cast/oracles/src/modules/fxo/event.service.ts:230-238 | after a failed attempt on a contract or a factory, however it failed, the next request starts a new one |
| `Listeners.LiveSubscriptionsStay` | packages/cast/oracles/src/modules/fxo/event.service.ts:288-293 | a live subscription is never lost and never doubled, whatever happens later |
| `Listeners.OpeningSubscribes` | packages/cast/oracles/src/modules/fxo/event.service.ts:288-305 | an attempt whose contract arrives and is subscribed to becomes the one live listener of its address |
| `Listeners.SubscribedExactlyWhen` | packages/cast/oracles/src/modules/fxo/event.service.ts:277-314 | over every interleaving an address has a live subscription exactly when some waiting attempt for it was subscribed |
| `Listeners.RequestsStartAttempts` | packages/cast/oracles/src/modules/fxo/event.service.ts:193-206 | a request for an address that is not marked marks it and starts waiting for its contract |
| `Listeners.OtherRequestsAreIgnored` | packages/cast/oracles/src/modules/fxo/event.service.ts:277-287 | invalid and already marked addresses change nothing |
| `CommandBuilder.Sp.NewCommand` | packages/cast/cast-tz-v1/package/smartpy.py:915-919 | appends to the current block, or raises outside a contract |
| `CommandBuilder.Sp.Exec` | packages/cast/cast-tz-v1/package/smartpy.py:860-890 | running any contract code appends exactly its meaning to the block that was current, touches no other existing block, lambdas shared through names included, and restores the current block and the builder unless an exception leaked out of a lambda |
| `CommandBuilder.Sp.ExecBlock` | packages/cast/cast-tz-v1/package/smartpy.py:1655-1699 | a block statement collects its body in a block of its own and puts the outer block back even when the body raises |
| `CommandBuilder.Sp.CollectLambda` | packages/cast/cast-tz-v1/package/smartpy.py:1804-1825 | a lambda's commands go only into its own block; a builder opened for it is closed again |
| `CommandBuilder.Sp.AddMessage` | packages/cast/cast-tz-v1/package/smartpy.py:1419-1448 | a collected entry point holds exactly its tree; an exception leaves its builder open |
| `CommandBuilder.MeaningOfSequence` | packages/cast/cast-tz-v1/package/smartpy.py:950-951 | code in sequence appends its commands, locals and lambda ids in sequence |
| `CommandBuilder.TheTreeIsTheCode` | packages/cast/cast-tz-v1/package/smartpy.py:860-890 | code that runs through is in the tree whole and alone: read back at every depth, the tree gives the commands, operators, leaves, parameters, results and locals the code was written with, names replaced by what they were bound to |
| `CommandBuilder.LambdasKeepTheirCode` | packages/cast/cast-tz-v1/package/smartpy.py:1804-1825 | a lambda with a check and a returned value has both commands in its own block |
| `CommandBuilder.SpellingIsUnique` | packages/cast/cast-tz-v1/package/smartpy.py:860-890 | the blocks on the heap determine one tree, lambda bodies and nested blocks included |
| `CommandBuilder.EndsWellExactlyWhen` | packages/cast/cast-tz-v1/package/smartpy.py:915-919 | code ends without an exception exactly when nothing written in it raises: no exception, no unbound name, no command outside a contract, no value returned where `sp.result` is asked for |
| `CommandBuilder.RaisingKeepsWhatWasBuilt` | packages/cast/cast-tz-v1/package/smartpy.py:881-887 | code that raises has built everything before the statement that raised |
| `CommandBuilder.LeaksExactlyWhen` | packages/cast/cast-tz-v1/package/smartpy.py:881-887 | an exception leaks exactly when a statement of the code itself, reached without one, lets it out of a lambda in its expression |
| `CommandBuilder.BareLambdasLeak` | packages/cast/cast-tz-v1/package/smartpy.py:1804-1825 | one command with a raising lambda leaks, and inside a `with` block it does not |
| `CommandBuilder.OnlyTopLevelLambdasLeak` | packages/cast/cast-tz-v1/package/smartpy.py:881-887 | code that builds no lambda outside its `with` blocks leaks nothing |
| `CommandBuilder.LambdaIdsIdentify` | packages/cast/cast-tz-v1/package/smartpy.py:1796-1802 | however often and in whatever order lambdas are used, an id in a built tree belongs to one lambda, and the code's own lambdas have new ids |
| `CommandBuilder.BuiltOnceUsedTwice` | packages/cast/cast-tz-v1/package/smartpy.py:1827-1831 | a lambda bound to a name and used twice has its id in the tree twice |
| `CommandBuilder.LambdaIdsAscend` | packages/cast/cast-tz-v1/package/smartpy.py:1796-1802 | in code that uses every lambda once, where it is built, the ids are pairwise distinct and ascend in reading order |
| `Michelson.SplitLine` | packages/cast/cast-tz-v1/package/smartpyio.py:369-394 | the splitting loop ends, loses, doubles and reorders no token, writes each piece with single blanks, raises exactly on a stumbling line, and on lines whose keywords start pieces cuts exactly at the cuts and places the comment |
| `Michelson.CuttingIsUnique` | packages/cast/cast-tz-v1/package/smartpyio.py:369-394 | the cuts determine the pieces |
| `Michelson.FirstMisplacedDecides` | packages/cast/cast-tz-v1/package/smartpyio.py:374-377 | on any line, the first misplaced keyword raises exactly when at least one token follows but no more than its piece held; with more, those are skipped and the loop goes on behind them |
| `Michelson.OneMisplacedKeyword` | packages/cast/cast-tz-v1/package/smartpyio.py:374-377 | a line with one misplaced keyword raises exactly when tokens follow it but no more than its piece held, or when a keyword right behind the tokens it skips raises in the same way |
| `Michelson.OrderlyLinesNeverRaise` | packages/cast/cast-tz-v1/package/smartpyio.py:369-394 | a line whose keywords all start their pieces never raises |
| `Michelson.MisplacedKeywordRaises` | packages/cast/cast-tz-v1/package/smartpyio.py:374-377 | a concrete line with a keyword past cursor 0 that raises, and a longer one that does not |
| `MichelsonCompressor.CompressMichelson` | packages/cast/cast-tz-v1/package/smartpyio.py:443-460 | raises exactly when a line is blank, else turns every maximal run of mergeable lines into one line |
| `MichelsonCompressor.CompressionKeepsTokens` | packages/cast/cast-tz-v1/package/smartpyio.py:455-456 | compression keeps the whole token sequence |
| `MichelsonCompressor.CompressionMergesAll` | packages/cast/cast-tz-v1/package/smartpyio.py:455-459 | no two neighbouring output lines can still be merged |
| `MichelsonCompressor.InstructionLinesMerge` | packages/cast/cast-tz-v1/package/smartpyio.py:448-454 | a line of words is merged exactly when it has no brace, its last word ends in a semicolon and it opens no section |
| `MichelsonCompressor.RunsBecomeOneLine` | packages/cast/cast-tz-v1/package/smartpyio.py:455-459 | a run of such lines becomes one line: the first one's indentation, then all words with single blanks |
| `MichelsonCompressor.CompressionIsIdempotent` | packages/cast/cast-tz-v1/package/smartpyio.py:443-460 | compressing twice is compressing once |
| `MichelsonCompressor.CompressionMakesNoBlanks` | packages/cast/cast-tz-v1/package/smartpyio.py:443-460 | the output of a text without blank lines has none, so a second pass does not raise |
| `BlockSyntax.AdaptBlocks` | packages/cast/cast-tz-v1/package/smartpyio.py:194-253 | one output line per input line plus a final one, the identity line map, and an error exactly for a truncated loop header |
| `BlockSyntax.AdaptingSettles` | packages/cast/cast-tz-v1/package/smartpyio.py:195-253 | a second pass only adds a line break; indentation and line count are kept |
| `BlockSyntax.RewriteKeepsIndentAndSettles` | packages/cast/cast-tz-v1/package/smartpyio.py:217-247 | a rewritten line keeps its leading blanks and is not rewritten again |
| `BlockSyntax.OnlyTruncatedLoopsRaise` | packages/cast/cast-tz-v1/package/smartpyio.py:223-225 | a line raises exactly when it is a `sp.for` header with fewer than three words |
| `BlockSyntax.OtherLinesStay` | packages/cast/cast-tz-v1/package/smartpyio.py:218-248 | a line that is no block header stays as it is |
| `BlockSyntax.LoopWithoutInStays` | packages/cast/cast-tz-v1/package/smartpyio.py:223-230 | a loop header whose third word is not `in` stays as it is |
| `BlockSyntax.LoopWithoutRangeRaises` | packages/cast/cast-tz-v1/package/smartpyio.py:223-225 | every loop header without a range raises, at any indentation |
| `BlockSyntax.ConditionIsCarriedOver` | packages/cast/cast-tz-v1/package/smartpyio.py:232-239 | the condition of an `sp.if` or `sp.while` reaches the `with` statement character for character |
| `BlockSyntax.LoopIsCarriedOver` | packages/cast/cast-tz-v1/package/smartpyio.py:223-231 | the variable and range of an `sp.for` reach the `with` statement character for character |
| `BlockSyntax.ElseIsRewritten` | packages/cast/cast-tz-v1/package/smartpyio.py:240-244 | an `sp.else` header keeps its indentation only |
| `StorageTemplate.SequentialIsSimultaneous` | packages/cast/cast-tz-v1/scripts/toolchain/build.ts:13-31 | replacing the matches one after the other is the simultaneous substitution, for any template of text without `@` and placeholders, with repeated and unbound keys, when no value steers `replace` and no placeholder shows up in the text put before it |
| `StorageTemplate.SimultaneousExactlyWhen` | packages/cast/cast-tz-v1/scripts/toolchain/build.ts:26-29 | for values without `@` that do not copy the text around the match, it is the simultaneous substitution exactly when no value has a dollar followed by a special character |
| `StorageTemplate.SpecialValues` | packages/cast/cast-tz-v1/scripts/toolchain/build.ts:26-29 | what the four special values put in the place of a placeholder |
| `StorageTemplate.UnboundReadsUndefined` | packages/cast/cast-tz-v1/scripts/toolchain/build.ts:26-29 | a key that is not bound reads as `undefined` |
| `StorageTemplate.TemplateMatches` | packages/cast/cast-tz-v1/scripts/toolchain/constant.ts:4 | the global match finds exactly the placeholders, in order |
| `StorageTemplate.PlaceholderValuesAreReplacedAgain` | packages/cast/cast-tz-v1/scripts/toolchain/build.ts:26-29 | a value that is a later placeholder is replaced in its place, for any two keys |
| `StorageTemplate.DollarValuesAreNotCopied` | packages/cast/cast-tz-v1/scripts/toolchain/build.ts:26-29 | a value `$&` is not copied, for any key |
| `StorageTemplate.ShadowedMayCoincide` | packages/cast/cast-tz-v1/scripts/toolchain/build.ts:26-29 | a placeholder shadowed by an earlier value can still come out right |
| `StorageTemplate.CopyingMayCoincide` | packages/cast/cast-tz-v1/scripts/toolchain/build.ts:26-29 | a value that copies the text before the match can copy itself |

## Left out

- The Ethereum contracts, trade, cancellation and on-chain redemption: the Solidity sources are not part of this model.
- `ForgeEmtn`, its factory and builder: the same state machine as the bond.
- The token's own `upgrade` entry point: it can replace the code, so runs are of tokens on which it is not called.
- Lambdas other than the five library lambdas: bytes that unpack to any other code are treated as not unpacking.
- A bond created with one address as both registrar and settler: the meaning of the role literal is not decided, so the role statement of `Deployment.CreatedTokensResolve` is for two distinct operators.
- SettlementRepository.SettlementTransactionService.GetByPaymentReference: the database promises no order without an ORDER BY; the model lists rows in the order they were saved, so the order part of the reach lemmas is about that order.
- Listeners.EventService.ResumeWithContract: the ledger passed along with an address is not kept, as the listened sets do not keep it either.
- Redemption.FindParticipant: case is folded for ASCII letters only.
- Identifiers.UuidsRoundTrip: upper-case UUIDs are not covered; the printed form is always lower case.
- Amounts are unbounded integers: JavaScript numbers above 2 to the 53 lose digits, which is not modelled. Percentages are exact rationals.
- Michelson.SplitLine: starts from the tokens of a line; the brace spacing before it and the final layout of sections are plain string work.
- StorageTemplate.SequentialIsSimultaneous: one way only for values with `@` and for values that copy the text around the match; for these the result can agree by chance (`StorageTemplate.ShadowedMayCoincide`, `StorageTemplate.CopyingMayCoincide`), and which values agree by chance is not characterised.
- Michelson.OneMisplacedKeyword: lines with several misplaced keywords are decided one keyword at a time by `Michelson.FirstMisplacedDecides`, not in one condition.
- Keys that name a member every JavaScript object inherits, such as `constructor`: unbound keys are taken to read as `undefined`.
- Python's scoping inside a lambda: code that reads an outer name and then binds it again in the same lambda would raise in Python, and reads the outer value here.
- SettlementRepository.LookupIsExact: what an instrument contract says about a user's roles is a parameter; a contract that cannot be asked counts as one that names the user no operator.
- Hash columns, dates, trade ids and legal texts of settlement transactions: carried through unchanged.
- Line numbers in built commands, the textual `export` of a tree, and type inference: no influence on what is appended where.
- Handler registration and removal by number: the number returned after the first handler is the new length, so no claim is made about removal.
- GraphQL, dependency wiring, logging, authentication, configuration, funding and deployment scripts: plumbing.
