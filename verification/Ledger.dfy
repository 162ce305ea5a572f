/**
 The library lambdas a token runs: the balance lock, the subscription, the two payment
 confirmations and the operator changes. Each lambda is a method that updates local maps
 step by step, proved against an outcome function that describes the resulting maps
 entry by entry.
 */
module Ledger {
  import opened Wrappers

  datatype Address = Address(base58: string)

  datatype Balance = Balance(balance: nat, locked: nat)

  type Balances = map<Address, Balance>

  type Authorizations = map<Address, set<nat>>

  const REGISTRAR: nat := 1
  const SETTLER: nat := 2

  const SUBSCRIPTION: nat := 1

  const CREATED: nat := 1
  const TOKEN_LOCKED: nat := 2
  const CASH_RECEIVED: nat := 3
  const CASH_SENT: nat := 4
  const ERROR: nat := 255

  const MISSING_KEY := "missing key in map"
  const NOT_A_NAT := "as_nat on a negative number"

  datatype StatelessTransaction = StatelessTransaction(
    txId: nat,
    operationId: nat,
    deliverySender: Address,
    deliveryReceiver: Address,
    deliveryQuantity: nat,
    txHash: string)

  datatype SettlementTransaction = SettlementTransaction(details: StatelessTransaction, status: nat)

  datatype Repository = Repository(
    byId: map<nat, SettlementTransaction>,
    operationType: map<nat, nat>)

  // ---------- operators ----------

  /** The reason why `sender` may not act in `role`, if there is one. */
  function RoleViolation(sender: Address, authorizations: Authorizations, role: nat): Option<string> {
    if sender !in authorizations then Some("undefined operator")
    else if role == REGISTRAR && REGISTRAR !in authorizations[sender] then
      Some("only operator with registrar role can lock token")
    else if role == SETTLER && SETTLER !in authorizations[sender] then
      Some("only operator with settler role can settle token")
    else None
  }

  predicate HasRole(who: Address, authorizations: Authorizations, role: nat) {
    who in authorizations && role in authorizations[who]
  }

  /** `authorizeOperator` as written: its last check has no negation, so it demands a role already present. */
  function AuthorizeOutcome(sender: Address, authorizations: Authorizations, operator: Address, role: nat)
    : Result<Authorizations>
  {
    match RoleViolation(sender, authorizations, REGISTRAR)
    case Some(reason) => Rejected(reason)
    case None =>
      var known := if operator in authorizations then authorizations else authorizations[operator := {}];
      if role !in known[operator] then Rejected("already authorized")
      else Ok(known[operator := known[operator] + {role}])
  }

  function RevokeOutcome(sender: Address, authorizations: Authorizations, operator: Address, role: nat)
    : Result<Authorizations>
  {
    match RoleViolation(sender, authorizations, REGISTRAR)
    case Some(reason) => Rejected(reason)
    case None =>
      if operator !in authorizations then Rejected("undefined operator")
      else if role !in authorizations[operator] then Rejected("undefined operator role")
      else Ok(authorizations[operator := authorizations[operator] - {role}])
  }

  /** Authorizing never grants anything: it succeeds exactly for a role already held, and then changes nothing. */
  lemma AuthorizeGrantsNothing(sender: Address, authorizations: Authorizations, operator: Address, role: nat)
    ensures AuthorizeOutcome(sender, authorizations, operator, role).Ok?
       <==> HasRole(sender, authorizations, REGISTRAR) && HasRole(operator, authorizations, role)
    ensures AuthorizeOutcome(sender, authorizations, operator, role).Ok?
        ==> AuthorizeOutcome(sender, authorizations, operator, role).value == authorizations
  {
    if HasRole(operator, authorizations, role) {
      assert authorizations[operator] + {role} == authorizations[operator];
      assert authorizations[operator := authorizations[operator]] == authorizations;
    }
  }

  /** Revoking needs a registrar and a role that is held, and takes away that role of that operator and no other. */
  lemma RevokeRemovesExactly(sender: Address, authorizations: Authorizations, operator: Address, role: nat)
    ensures var r := RevokeOutcome(sender, authorizations, operator, role);
      && (r.Ok? <==> HasRole(sender, authorizations, REGISTRAR) && HasRole(operator, authorizations, role))
      && (r.Ok? ==> forall who, other :: HasRole(who, r.value, other) <==>
            HasRole(who, authorizations, other) && !(who == operator && other == role))
  {
  }

  // ---------- balances ----------

  function LockOutcome(balances: Balances, account: Address, quantity: nat): Result<Balances> {
    if account !in balances then Rejected("Attempt to lock empty balances")
    else if balances[account].balance - balances[account].locked < quantity then
      Rejected("Can not lock value : insufficient disposable balance")
    else
      Ok(map a | a in balances ::
           Balance(balances[a].balance, balances[a].locked + if a == account then quantity else 0))
  }

  method Lock(balances: Balances, account: Address, quantity: nat) returns (r: Result<Balances>)
    ensures r == LockOutcome(balances, account, quantity)
    ensures r.Ok? <==> account in balances && balances[account].locked + quantity <= balances[account].balance
    ensures r.Ok? ==> r.value.Keys == balances.Keys
                      && r.value[account] == Balance(balances[account].balance, balances[account].locked + quantity)
                      && forall a :: a in balances && a != account ==> r.value[a] == balances[a]
  {
    if account !in balances {
      return Rejected("Attempt to lock empty balances");
    }
    if balances[account].balance - balances[account].locked < quantity {
      return Rejected("Can not lock value : insufficient disposable balance");
    }
    var newBalances := balances;
    newBalances := newBalances[account := newBalances[account].(locked := balances[account].locked + quantity)];
    assert newBalances == LockOutcome(balances, account, quantity).value;
    return Ok(newBalances);
  }

  // ---------- subscription ----------

  function InitiateOutcome(sender: Address, st: StatelessTransaction, repository: Repository,
                           authorizations: Authorizations, balances: Balances)
    : Result<(Repository, Balances)>
  {
    match RoleViolation(sender, authorizations, REGISTRAR)
    case Some(reason) => Rejected(reason)
    case None =>
      match LockOutcome(balances, st.deliverySender, st.deliveryQuantity)
      case Rejected(reason) => Rejected(reason)
      case Ok(newBalances) =>
        Ok((Repository(repository.byId[st.txId := SettlementTransaction(st, TOKEN_LOCKED)],
                       repository.operationType[st.operationId := SUBSCRIPTION]),
            newBalances))
  }

  method InitiateSubscription(sender: Address, newSettlementTransaction: StatelessTransaction, repository: Repository,
                              authorizations: Authorizations, balances: Balances)
    returns (r: Result<(Repository, Balances)>)
    ensures r == InitiateOutcome(sender, newSettlementTransaction, repository, authorizations, balances)
  {
    var violation := RoleViolation(sender, authorizations, REGISTRAR);
    if violation.Some? {
      return Rejected(violation.value);
    }
    var newRepository := repository;
    var st := newSettlementTransaction;
    var locked := Lock(balances, st.deliverySender, st.deliveryQuantity);
    if locked.Rejected? {
      return Rejected(locked.reason);
    }
    newRepository := newRepository.(byId := newRepository.byId[st.txId := SettlementTransaction(st, TOKEN_LOCKED)]);
    newRepository := newRepository.(operationType := newRepository.operationType[st.operationId := SUBSCRIPTION]);
    return Ok((newRepository, locked.value));
  }

  // ---------- settlement ----------

  function BalanceOf(balances: Balances, account: Address): Balance {
    if account in balances then balances[account] else Balance(0, 0)
  }

  /** Moving `quantity` out of the issuer's locked tokens is possible: neither `as_nat` sees a negative number. */
  predicate CanSettle(balances: Balances, issuer: Address, investor: Address, quantity: nat) {
    && (issuer in balances || issuer == investor)
    && quantity <= BalanceOf(balances, issuer).locked
    && (issuer != investor ==> quantity <= BalanceOf(balances, issuer).balance)
  }

  /** Every account after the settlement, described entry by entry. */
  function SettledBalances(balances: Balances, issuer: Address, investor: Address, quantity: nat): Balances
    requires CanSettle(balances, issuer, investor, quantity)
  {
    map a | a in balances.Keys + {investor} ::
      var before := BalanceOf(balances, a);
      if a == issuer && a == investor then Balance(before.balance, before.locked - quantity)
      else if a == issuer then Balance(before.balance - quantity, before.locked - quantity)
      else if a == investor then Balance(before.balance + quantity, before.locked)
      else before
  }

  function WithStatus(repository: Repository, txId: nat, status: nat): Repository
    requires txId in repository.byId
  {
    repository.(byId := repository.byId[txId := repository.byId[txId].(status := status)])
  }

  function ReceivedOutcome(txId: nat, sender: Address, owner: Address, authorizations: Authorizations,
                           repository: Repository, balances: Balances)
    : Result<(Repository, Balances)>
  {
    match RoleViolation(sender, authorizations, SETTLER)
    case Some(reason) => Rejected(reason)
    case None =>
      if txId !in repository.byId then Rejected(MISSING_KEY)
      else
        var st := repository.byId[txId].details;
        if owner !in balances && owner != st.deliveryReceiver then Rejected(MISSING_KEY)
        else if !CanSettle(balances, owner, st.deliveryReceiver, st.deliveryQuantity) then Rejected(NOT_A_NAT)
        else Ok((WithStatus(repository, txId, CASH_RECEIVED),
                 SettledBalances(balances, owner, st.deliveryReceiver, st.deliveryQuantity)))
  }

  method ConfirmPaymentReceived(txId: nat, sender: Address, owner: Address, authorizations: Authorizations,
                                repository: Repository, balances: Balances)
    returns (r: Result<(Repository, Balances)>)
    ensures r == ReceivedOutcome(txId, sender, owner, authorizations, repository, balances)
  {
    var violation := RoleViolation(sender, authorizations, SETTLER);
    if violation.Some? {
      return Rejected(violation.value);
    }
    var newRepository := repository;
    var newBalances := balances;
    var issuer := owner;
    if txId !in newRepository.byId {
      return Rejected(MISSING_KEY);
    }
    var investor := newRepository.byId[txId].details.deliveryReceiver;
    var amount := newRepository.byId[txId].details.deliveryQuantity;

    if investor !in newBalances {
      newBalances := newBalances[investor := Balance(0, 0)];
    }
    newBalances := newBalances[investor := newBalances[investor].(balance := newBalances[investor].balance + amount)];
    if issuer !in newBalances {
      return Rejected(MISSING_KEY);
    }
    if newBalances[issuer].balance - amount < 0 {
      return Rejected(NOT_A_NAT);
    }
    newBalances := newBalances[issuer := newBalances[issuer].(balance := newBalances[issuer].balance - amount)];
    if newBalances[issuer].locked - amount < 0 {
      return Rejected(NOT_A_NAT);
    }
    newBalances := newBalances[issuer := newBalances[issuer].(locked := newBalances[issuer].locked - amount)];
    newRepository := newRepository.(byId :=
      newRepository.byId[txId := newRepository.byId[txId].(status := CASH_RECEIVED)]);
    assert newBalances == SettledBalances(balances, issuer, investor, amount);
    return Ok((newRepository, newBalances));
  }

  function TransferredOutcome(txId: nat, sender: Address, authorizations: Authorizations, repository: Repository)
    : Result<Repository>
  {
    match RoleViolation(sender, authorizations, SETTLER)
    case Some(reason) => Rejected(reason)
    case None =>
      if txId !in repository.byId then Rejected(MISSING_KEY)
      else if repository.byId[txId].status != CASH_RECEIVED then Rejected("Cash Not received")
      else Ok(WithStatus(repository, txId, CASH_SENT))
  }

  method ConfirmPaymentTransferred(txId: nat, sender: Address, authorizations: Authorizations, repository: Repository)
    returns (r: Result<Repository>)
    ensures r == TransferredOutcome(txId, sender, authorizations, repository)
  {
    var violation := RoleViolation(sender, authorizations, SETTLER);
    if violation.Some? {
      return Rejected(violation.value);
    }
    var newRepository := repository;
    if txId !in newRepository.byId {
      return Rejected(MISSING_KEY);
    }
    if newRepository.byId[txId].status != CASH_RECEIVED {
      return Rejected("Cash Not received");
    }
    newRepository := newRepository.(byId :=
      newRepository.byId[txId := newRepository.byId[txId].(status := CASH_SENT)]);
    return Ok(newRepository);
  }
}
