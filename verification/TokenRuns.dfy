/**
 What every run of a token keeps. A run is any sequence of calls by any senders, each of
 which either succeeds or leaves the token alone.
 */
module TokenRuns {
  import opened Wrappers
  import opened MapSums
  import opened Ledger
  import opened Dispatch
  import opened ForgeBonds

  type Transactions = map<nat, SettlementTransaction>

  // ---------- the ledger recomputed from the recorded transactions ----------

  predicate Settled(t: SettlementTransaction) {
    t.status == CASH_RECEIVED || t.status == CASH_SENT
  }

  function LockedQuantity(t: SettlementTransaction): nat {
    if t.status == TOKEN_LOCKED then t.details.deliveryQuantity else 0
  }

  function ReceivedBy(account: Address): SettlementTransaction -> nat {
    t => if Settled(t) && t.details.deliveryReceiver == account then t.details.deliveryQuantity else 0
  }

  function SentAwayFrom(owner: Address): SettlementTransaction -> nat {
    t => if Settled(t) && t.details.deliveryReceiver != owner then t.details.deliveryQuantity else 0
  }

  function Receivers(byId: Transactions): set<Address> {
    set id | id in byId && Settled(byId[id]) :: byId[id].details.deliveryReceiver
  }

  /**
   The ledger is a function of the recorded transactions: who has an account, what is locked,
   and every balance.
   */
  ghost predicate LedgerAgrees(s: Storage) {
    var byId := s.repository.byId;
    && s.balances.Keys == {s.owner} + Receivers(byId)
    && (forall a :: a in s.balances && a != s.owner ==>
          s.balances[a] == Balance(Sum(byId, ReceivedBy(a)), 0))
    && s.balances[s.owner].locked == Sum(byId, LockedQuantity)
    && s.balances[s.owner].balance + Sum(byId, SentAwayFrom(s.owner)) == s.initialSupply
  }

  /** Locked tokens are covered by the owner's balance. */
  ghost predicate Solvent(s: Storage) {
    s.owner in s.balances && s.balances[s.owner].locked <= s.balances[s.owner].balance
  }

  function Amount(b: Balance): nat { b.balance }

  ghost predicate SupplyConserved(s: Storage) {
    Sum(s.balances, Amount) == s.currentSupply == s.initialSupply
  }

  /** Recorded transactions sit under their own id, come from the owner, and carry a reachable status. */
  ghost predicate WellRecorded(s: Storage) {
    forall id :: id in s.repository.byId ==>
      var t := s.repository.byId[id];
      && t.details.txId == id
      && t.details.deliverySender == s.owner
      && t.status in {TOKEN_LOCKED, CASH_RECEIVED, CASH_SENT}
      && t.details.operationId in s.repository.operationType
      && s.repository.operationType[t.details.operationId] == SUBSCRIPTION
  }

  // ---------- the ledger and the statuses recovered from the emitted events ----------

  function Credit(amounts: map<Address, int>, account: Address, value: int): map<Address, int> {
    amounts[account := (if account in amounts then amounts[account] else 0) + value]
  }

  /** Folds the transfers of a log over starting amounts. */
  function Replay(start: map<Address, int>, log: seq<Batch>): map<Address, int> {
    if log == [] then start
    else
      var before := Replay(start, log[..|log| - 1]);
      match log[|log| - 1]
      case TransferAndPaymentReceived(sender, receiver, value, _, _) =>
        Credit(Credit(before, receiver, value as int), sender, -(value as int))
      case _ => before
  }

  function Amounts(balances: Balances): map<Address, int> {
    map a | a in balances :: balances[a].balance
  }

  ghost predicate ReplayAgrees(t: Token) {
    Replay(map[t.storage.owner := t.storage.initialSupply], t.log) == Amounts(t.storage.balances)
  }

  function SettlementOf(batch: Batch): Option<nat> {
    match batch
    case SubscriptionInitiated(id) => Some(id)
    case TransferAndPaymentReceived(_, _, _, id, _) => Some(id)
    case PaymentTransferred(id, _) => Some(id)
    case _ => None
  }

  /** The settlement events of one transaction, in emission order. */
  function Trail(log: seq<Batch>, id: nat): seq<Batch> {
    if log == [] then []
    else Trail(log[..|log| - 1], id)
         + if SettlementOf(log[|log| - 1]) == Some(id) then [log[|log| - 1]] else []
  }

  /** The full life of a transaction as the event sink sees it. */
  function WholeTrail(details: StatelessTransaction): seq<Batch> {
    [SubscriptionInitiated(details.txId),
     TransferAndPaymentReceived(details.deliverySender, details.deliveryReceiver, details.deliveryQuantity,
                                details.txId, SUBSCRIPTION),
     PaymentTransferred(details.txId, SUBSCRIPTION)]
  }

  /** How much of `WholeTrail` a status implies. */
  function Stage(status: nat): nat {
    if status == TOKEN_LOCKED then 1 else if status == CASH_RECEIVED then 2 else if status == CASH_SENT then 3 else 0
  }

  ghost predicate TrailsAgree(t: Token) {
    forall id: nat :: Trail(t.log, id) ==
      if id in t.storage.repository.byId
      then WholeTrail(t.storage.repository.byId[id].details)[..Stage(t.storage.repository.byId[id].status)]
      else []
  }

  // ---------- the invariant ----------

  ghost predicate Invariant(t: Token) {
    && WellRecorded(t.storage)
    && LedgerAgrees(t.storage)
    && Solvent(t.storage)
    && SupplyConserved(t.storage)
    && ReplayAgrees(t)
    && TrailsAgree(t)
  }

  /** A freshly originated token: nothing recorded, the whole supply with the owner, nothing emitted. */
  ghost predicate Originated(t: Token) {
    && t.storage.repository == Repository(map[], map[])
    && t.storage.balances == map[t.storage.owner := Balance(t.storage.initialSupply, 0)]
    && t.storage.currentSupply == t.storage.initialSupply
    && t.log == []
  }

  lemma OriginatedInvariant(t: Token)
    requires Originated(t)
    ensures Invariant(t)
  {
    var s := t.storage;
    SumRemove(s.balances, Amount, s.owner);
    assert s.balances - {s.owner} == map[];
    assert Receivers(s.repository.byId) == {};
  }

  lemma AppendedTrail(log: seq<Batch>, batch: Batch, id: nat)
    ensures Trail(log + [batch], id) == Trail(log, id) + if SettlementOf(batch) == Some(id) then [batch] else []
  {
    assert (log + [batch])[..|log|] == log;
  }

  lemma AppendedReplay(start: map<Address, int>, log: seq<Batch>, batch: Batch)
    ensures Replay(start, log + [batch]) ==
      if batch.TransferAndPaymentReceived?
      then Credit(Credit(Replay(start, log), batch.receiver, batch.value), batch.sender, -(batch.value as int))
      else Replay(start, log)
  {
    assert (log + [batch])[..|log|] == log;
  }

  // ---------- the four ways a successful call changes the storage ----------

  /** A new locked transaction is recorded and its quantity locked in the owner's account. */
  ghost predicate Records(s: Storage, s': Storage, st: StatelessTransaction) {
    && st.txId !in s.repository.byId
    && st.deliverySender == s.owner && s.owner in s.balances
    && s.balances[s.owner].locked + st.deliveryQuantity <= s.balances[s.owner].balance
    && s' == s.(
      repository := Repository(s.repository.byId[st.txId := SettlementTransaction(st, TOKEN_LOCKED)],
                               s.repository.operationType[st.operationId := SUBSCRIPTION]),
      balances := s.balances[s.owner := s.balances[s.owner].(
        locked := s.balances[s.owner].locked + st.deliveryQuantity)])
  }

  /** A locked transaction is paid: its tokens move and are unlocked. */
  ghost predicate Settles(s: Storage, s': Storage, id: nat) {
    && id in s.repository.byId
    && s.repository.byId[id].status == TOKEN_LOCKED
    && var st := s.repository.byId[id].details;
    && CanSettle(s.balances, s.owner, st.deliveryReceiver, st.deliveryQuantity)
    && s' == s.(
      repository := WithStatus(s.repository, id, CASH_RECEIVED),
      balances := SettledBalances(s.balances, s.owner, st.deliveryReceiver, st.deliveryQuantity))
  }

  /** A paid transaction is closed. */
  ghost predicate Closes(s: Storage, s': Storage, id: nat) {
    && id in s.repository.byId
    && s.repository.byId[id].status == CASH_RECEIVED
    && s' == s.(repository := WithStatus(s.repository, id, CASH_SENT))
  }

  function Paid(st: StatelessTransaction, id: nat): Batch {
    TransferAndPaymentReceived(st.deliverySender, st.deliveryReceiver, st.deliveryQuantity, id, SUBSCRIPTION)
  }

  lemma InitiateEffect(codec: Codec, s: Storage, c: Call, st: StatelessTransaction)
    requires InitiateStep(codec, s, c, st).Ok?
    ensures var (s', batches) := InitiateStep(codec, s, c, st).value;
      Records(s, s', st) && batches == [SubscriptionInitiated(st.txId)]
  {
    assert LockOutcome(s.balances, s.owner, st.deliveryQuantity).value
        == s.balances[s.owner := s.balances[s.owner].(locked := s.balances[s.owner].locked + st.deliveryQuantity)];
  }

  lemma ReceivedEffect(codec: Codec, s: Storage, c: Call, id: nat)
    requires ReceivedStep(codec, s, c, id).Ok?
    ensures var (s', batches) := ReceivedStep(codec, s, c, id).value;
      Settles(s, s', id) && batches == [Paid(s.repository.byId[id].details, id)]
  {
  }

  lemma TransferredEffect(codec: Codec, s: Storage, c: Call, id: nat)
    requires TransferredStep(codec, s, c, id).Ok?
    ensures var (s', batches) := TransferredStep(codec, s, c, id).value;
      Closes(s, s', id) && batches == [PaymentTransferred(id, SUBSCRIPTION)]
  {
  }

  /** Every successful call is one of these four changes, each with its own notification. */
  lemma StepEffect(codec: Codec, s: Storage, c: Call)
    requires Step(codec, s, c).Ok?
    ensures var (s', batches) := Step(codec, s, c).value;
      match c.entryPoint
      case InitiateSubscriptionCall(st) => Records(s, s', st) && batches == [SubscriptionInitiated(st.txId)]
      case ConfirmPaymentReceivedCall(id) =>
        Settles(s, s', id) && batches == [Paid(s.repository.byId[id].details, id)]
      case ConfirmPaymentTransferredCall(id) => Closes(s, s', id) && batches == [PaymentTransferred(id, SUBSCRIPTION)]
      case RunCall(name, operator, role) =>
        && s' == s.(authorizations := s'.authorizations)
        && batches == (if name == AUTHORIZE_OPERATOR then [NewOperator(c.sender, operator, role)]
                       else if name == REVOKE_OPERATOR_AUTHORIZATION then [RevokeOperator(c.sender, operator, role)]
                       else [])
  {
    match c.entryPoint
    case InitiateSubscriptionCall(st) => InitiateEffect(codec, s, c, st);
    case ConfirmPaymentReceivedCall(id) => ReceivedEffect(codec, s, c, id);
    case ConfirmPaymentTransferredCall(id) => TransferredEffect(codec, s, c, id);
    case RunCall(_, _, _) =>
  }

  // ---------- each part of the invariant under each change ----------

  lemma RecordingKeepsLedger(s: Storage, s': Storage, st: StatelessTransaction)
    requires LedgerAgrees(s) && Records(s, s', st)
    ensures LedgerAgrees(s')
  {
    var byId, id, added := s.repository.byId, st.txId, SettlementTransaction(st, TOKEN_LOCKED);
    assert Receivers(s'.repository.byId) == Receivers(byId) by {
      forall i | i in byId ensures s'.repository.byId[i] == byId[i] {}
    }
    SumInsert(byId, LockedQuantity, id, added);
    SumInsert(byId, SentAwayFrom(s.owner), id, added);
    forall a | a in s'.balances && a != s.owner
      ensures s'.balances[a] == Balance(Sum(s'.repository.byId, ReceivedBy(a)), 0)
    {
      SumInsert(byId, ReceivedBy(a), id, added);
    }
  }

  lemma ReceiversAfterPayment(byId: Transactions, id: nat)
    requires id in byId
    ensures Receivers(byId[id := byId[id].(status := CASH_RECEIVED)])
         == Receivers(byId) + {byId[id].details.deliveryReceiver}
  {
    var byId' := byId[id := byId[id].(status := CASH_RECEIVED)];
    var receiver := byId[id].details.deliveryReceiver;
    assert receiver in Receivers(byId') by { assert id in byId' && Settled(byId'[id]); }
    forall a | a in Receivers(byId) ensures a in Receivers(byId') {
      var i :| i in byId && Settled(byId[i]) && byId[i].details.deliveryReceiver == a;
      assert i in byId' && Settled(byId'[i]);
    }
    forall a | a in Receivers(byId') ensures a in Receivers(byId) + {receiver} {
      var i :| i in byId' && Settled(byId'[i]) && byId'[i].details.deliveryReceiver == a;
      if i != id { assert i in byId && Settled(byId[i]); }
    }
  }

  lemma NothingReceived(byId: Transactions, a: Address)
    requires a !in Receivers(byId)
    ensures Sum(byId, ReceivedBy(a)) == 0
  {
    forall i | i in byId ensures ReceivedBy(a)(byId[i]) == 0 {
      if Settled(byId[i]) { assert byId[i].details.deliveryReceiver in Receivers(byId); }
    }
    SumZero(byId, ReceivedBy(a));
  }

  /** How the sums over the transactions react when one of them is paid. */
  lemma SumsAfterPayment(byId: Transactions, id: nat, owner: Address, a: Address)
    requires id in byId && byId[id].status == TOKEN_LOCKED
    ensures var byId' := byId[id := byId[id].(status := CASH_RECEIVED)];
      var (receiver, q) := (byId[id].details.deliveryReceiver, byId[id].details.deliveryQuantity);
      && Sum(byId', LockedQuantity) + q == Sum(byId, LockedQuantity)
      && Sum(byId', ReceivedBy(a)) == Sum(byId, ReceivedBy(a)) + (if receiver == a then q else 0)
      && Sum(byId', SentAwayFrom(owner)) == Sum(byId, SentAwayFrom(owner)) + (if receiver != owner then q else 0)
  {
    var paid := byId[id].(status := CASH_RECEIVED);
    SumReplace(byId, LockedQuantity, id, paid);
    SumReplace(byId, ReceivedBy(a), id, paid);
    SumReplace(byId, SentAwayFrom(owner), id, paid);
  }

  lemma SettledAccount(s: Storage, s': Storage, id: nat, a: Address)
    requires LedgerAgrees(s) && Settles(s, s', id) && a in s'.balances && a != s.owner
    ensures s'.balances[a] == Balance(Sum(s'.repository.byId, ReceivedBy(a)), 0)
  {
    SumsAfterPayment(s.repository.byId, id, s.owner, a);
    if a !in s.balances { NothingReceived(s.repository.byId, a); }
  }

  lemma SettlingKeepsLedger(s: Storage, s': Storage, id: nat)
    requires LedgerAgrees(s) && Settles(s, s', id)
    ensures LedgerAgrees(s')
  {
    forall a | a in s'.balances && a != s.owner
      ensures s'.balances[a] == Balance(Sum(s'.repository.byId, ReceivedBy(a)), 0)
    {
      SettledAccount(s, s', id, a);
    }
    ReceiversAfterPayment(s.repository.byId, id);
    SumsAfterPayment(s.repository.byId, id, s.owner, s.owner);
  }

  /** Closing a paid transaction changes no sum. */
  lemma SumsAfterClosing(byId: Transactions, id: nat, owner: Address, a: Address)
    requires id in byId && byId[id].status == CASH_RECEIVED
    ensures var byId' := byId[id := byId[id].(status := CASH_SENT)];
      && Sum(byId', LockedQuantity) == Sum(byId, LockedQuantity)
      && Sum(byId', ReceivedBy(a)) == Sum(byId, ReceivedBy(a))
      && Sum(byId', SentAwayFrom(owner)) == Sum(byId, SentAwayFrom(owner))
  {
    var closed := byId[id].(status := CASH_SENT);
    SumReplace(byId, LockedQuantity, id, closed);
    SumReplace(byId, ReceivedBy(a), id, closed);
    SumReplace(byId, SentAwayFrom(owner), id, closed);
  }

  lemma ClosingKeepsLedger(s: Storage, s': Storage, id: nat)
    requires LedgerAgrees(s) && Closes(s, s', id)
    ensures LedgerAgrees(s')
  {
    var byId, byId' := s.repository.byId, s'.repository.byId;
    assert byId' == byId[id := byId[id].(status := CASH_SENT)];
    assert Receivers(byId') == Receivers(byId) by {
      forall a | a in Receivers(byId) ensures a in Receivers(byId') {
        var i :| i in byId && Settled(byId[i]) && byId[i].details.deliveryReceiver == a;
        assert i in byId' && Settled(byId'[i]) && byId'[i].details.deliveryReceiver == a;
      }
    }
    SumsAfterClosing(byId, id, s.owner, s.owner);
    forall a | a in s'.balances && a != s.owner
      ensures s'.balances[a] == Balance(Sum(byId', ReceivedBy(a)), 0)
    {
      SumsAfterClosing(byId, id, s.owner, a);
    }
  }

  lemma SettlingKeepsSupply(s: Storage, s': Storage, id: nat)
    requires Solvent(s) && SupplyConserved(s) && Settles(s, s', id)
    ensures Solvent(s') && SupplyConserved(s')
  {
    var st := s.repository.byId[id].details;
    var investor, q := st.deliveryReceiver, st.deliveryQuantity;
    var withAccount := if investor in s.balances then s.balances else s.balances[investor := Balance(0, 0)];
    if investor !in s.balances { SumInsert(s.balances, Amount, investor, Balance(0, 0)); }
    var credited := withAccount[investor := s'.balances[investor]];
    SumReplace(withAccount, Amount, investor, s'.balances[investor]);
    SumReplace(credited, Amount, s.owner, s'.balances[s.owner]);
    assert s'.balances == credited[s.owner := s'.balances[s.owner]];
  }

  lemma RecordingKeepsSupply(s: Storage, s': Storage, st: StatelessTransaction)
    requires Solvent(s) && SupplyConserved(s) && Records(s, s', st)
    ensures Solvent(s') && SupplyConserved(s')
  {
    SumReplace(s.balances, Amount, s.owner, s'.balances[s.owner]);
  }

  lemma SettledAmounts(balances: Balances, owner: Address, receiver: Address, q: nat)
    requires owner in balances && CanSettle(balances, owner, receiver, q)
    ensures Amounts(SettledBalances(balances, owner, receiver, q))
         == Credit(Credit(Amounts(balances), receiver, q as int), owner, -(q as int))
  {
  }

  lemma SettlingKeepsReplay(t: Token, t': Token, id: nat)
    requires ReplayAgrees(t) && WellRecorded(t.storage) && Solvent(t.storage) && Settles(t.storage, t'.storage, id)
    requires t'.log == t.log + [Paid(t.storage.repository.byId[id].details, id)]
    ensures ReplayAgrees(t')
  {
    var st := t.storage.repository.byId[id].details;
    AppendedReplay(map[t.storage.owner := t.storage.initialSupply], t.log, Paid(st, id));
    SettledAmounts(t.storage.balances, t.storage.owner, st.deliveryReceiver, st.deliveryQuantity);
  }

  lemma RecordingKeepsReplay(t: Token, t': Token, st: StatelessTransaction)
    requires ReplayAgrees(t) && Records(t.storage, t'.storage, st)
    requires t'.log == t.log + [SubscriptionInitiated(st.txId)]
    ensures ReplayAgrees(t')
  {
    AppendedReplay(map[t.storage.owner := t.storage.initialSupply], t.log, SubscriptionInitiated(st.txId));
    assert Amounts(t'.storage.balances) == Amounts(t.storage.balances);
  }

  lemma RecordingKeepsTrails(t: Token, t': Token, st: StatelessTransaction)
    requires TrailsAgree(t) && Records(t.storage, t'.storage, st)
    requires t'.log == t.log + [SubscriptionInitiated(st.txId)]
    ensures TrailsAgree(t')
  {
    AppendedTrails(t, t', SubscriptionInitiated(st.txId), st.txId);
  }

  lemma StatusChangeKeepsTrails(t: Token, t': Token, id: nat, status: nat, batch: Batch)
    requires TrailsAgree(t) && WellRecorded(t.storage) && id in t.storage.repository.byId
    requires t'.storage.repository == WithStatus(t.storage.repository, id, status)
    requires var recorded := t.storage.repository.byId[id];
      && recorded.status < CASH_SENT && status == recorded.status + 1
      && batch == WholeTrail(recorded.details)[Stage(recorded.status)]
    requires t'.log == t.log + [batch]
    ensures TrailsAgree(t')
  {
    AppendedTrails(t, t', batch, id);
  }

  lemma StatusChangeKeepsRecords(s: Storage, s': Storage, id: nat, status: nat)
    requires WellRecorded(s) && id in s.repository.byId && status in {CASH_RECEIVED, CASH_SENT}
    requires s'.owner == s.owner && s'.repository == WithStatus(s.repository, id, status)
    ensures WellRecorded(s')
  {
    forall i | i in s.repository.byId && i != id ensures s'.repository.byId[i] == s.repository.byId[i] {}
  }

  lemma RecordingKeepsRecords(s: Storage, s': Storage, st: StatelessTransaction)
    requires WellRecorded(s) && Records(s, s', st)
    ensures WellRecorded(s')
  {
    forall id | id in s'.repository.byId && id != st.txId ensures s'.repository.byId[id] == s.repository.byId[id] {}
  }

  lemma AppendedTrails(t: Token, t': Token, batch: Batch, id: nat)
    requires TrailsAgree(t) && t'.log == t.log + [batch] && SettlementOf(batch) == Some(id)
    requires id in t'.storage.repository.byId
    requires var byId, byId' := t.storage.repository.byId, t'.storage.repository.byId;
      && byId'.Keys == byId.Keys + {id}
      && (forall i :: i in byId && i != id ==> byId'[i] == byId[i])
      && (id in byId ==> byId[id].details == byId'[id].details)
      && var stage := if id in byId then Stage(byId[id].status) else 0;
      && Stage(byId'[id].status) == stage + 1
      && WholeTrail(byId'[id].details)[stage] == batch
    ensures TrailsAgree(t')
  {
    var byId, byId' := t.storage.repository.byId, t'.storage.repository.byId;
    forall i: nat ensures Trail(t'.log, i) ==
      if i in byId' then WholeTrail(byId'[i].details)[..Stage(byId'[i].status)] else []
    {
      AppendedTrail(t.log, batch, i);
      if i == id {
        var stage := if id in byId then Stage(byId[id].status) else 0;
        assert WholeTrail(byId'[id].details)[..stage + 1] == WholeTrail(byId'[id].details)[..stage] + [batch];
      }
    }
  }

  lemma UnrelatedReplay(t: Token, t': Token, batch: Batch)
    requires SettlementOf(batch) == None && t'.log == t.log + [batch]
    requires t'.storage.owner == t.storage.owner && t'.storage.initialSupply == t.storage.initialSupply
    requires t'.storage.balances == t.storage.balances
    requires ReplayAgrees(t)
    ensures ReplayAgrees(t')
  {
    AppendedReplay(map[t.storage.owner := t.storage.initialSupply], t.log, batch);
  }

  lemma UnrelatedTrails(t: Token, t': Token, batch: Batch)
    requires SettlementOf(batch) == None && t'.log == t.log + [batch]
    requires t'.storage.repository == t.storage.repository
    requires TrailsAgree(t)
    ensures TrailsAgree(t')
  {
    forall i: nat ensures Trail(t'.log, i) == Trail(t.log, i) {
      AppendedTrail(t.log, batch, i);
    }
  }

  // ---------- one call ----------

  lemma RecordingKeepsInvariant(t: Token, t': Token, st: StatelessTransaction)
    requires Invariant(t) && Records(t.storage, t'.storage, st)
    requires t'.log == t.log + [SubscriptionInitiated(st.txId)]
    ensures Invariant(t')
  {
    RecordingKeepsLedger(t.storage, t'.storage, st);
    RecordingKeepsSupply(t.storage, t'.storage, st);
    RecordingKeepsReplay(t, t', st);
    RecordingKeepsTrails(t, t', st);
    RecordingKeepsRecords(t.storage, t'.storage, st);
  }

  lemma SettlingKeepsInvariant(t: Token, t': Token, id: nat)
    requires Invariant(t) && Settles(t.storage, t'.storage, id)
    requires t'.log == t.log + [Paid(t.storage.repository.byId[id].details, id)]
    ensures Invariant(t')
  {
    SettlingKeepsLedger(t.storage, t'.storage, id);
    SettlingKeepsSupply(t.storage, t'.storage, id);
    SettlingKeepsReplay(t, t', id);
    StatusChangeKeepsRecords(t.storage, t'.storage, id, CASH_RECEIVED);
    StatusChangeKeepsTrails(t, t', id, CASH_RECEIVED, Paid(t.storage.repository.byId[id].details, id));
  }

  lemma ClosingKeepsInvariant(t: Token, t': Token, id: nat)
    requires Invariant(t) && Closes(t.storage, t'.storage, id)
    requires t'.log == t.log + [PaymentTransferred(id, SUBSCRIPTION)]
    ensures Invariant(t')
  {
    ClosingKeepsLedger(t.storage, t'.storage, id);
    AppendedReplay(map[t.storage.owner := t.storage.initialSupply], t.log, PaymentTransferred(id, SUBSCRIPTION));
    StatusChangeKeepsRecords(t.storage, t'.storage, id, CASH_SENT);
    StatusChangeKeepsTrails(t, t', id, CASH_SENT, PaymentTransferred(id, SUBSCRIPTION));
  }

  lemma ReassigningKeepsInvariant(t: Token, t': Token, batches: seq<Batch>)
    requires Invariant(t) && t'.storage == t.storage.(authorizations := t'.storage.authorizations)
    requires |batches| <= 1 && (forall b :: b in batches ==> SettlementOf(b) == None)
    requires t'.log == t.log + batches
    ensures Invariant(t')
  {
    if batches == [] {
      assert t'.log == t.log;
    } else {
      assert t'.log == t.log + [batches[0]];
      UnrelatedReplay(t, t', batches[0]);
      UnrelatedTrails(t, t', batches[0]);
    }
  }

  lemma ApplyKeepsInvariant(codec: Codec, t: Token, c: Call)
    requires Invariant(t)
    ensures Invariant(Apply(codec, t, c))
  {
    var outcome := Step(codec, t.storage, c);
    if outcome.Ok? {
      var t' := Token(outcome.value.0, t.log + outcome.value.1);
      StepEffect(codec, t.storage, c);
      match c.entryPoint
      case InitiateSubscriptionCall(st) => RecordingKeepsInvariant(t, t', st);
      case ConfirmPaymentReceivedCall(id) => SettlingKeepsInvariant(t, t', id);
      case ConfirmPaymentTransferredCall(id) => ClosingKeepsInvariant(t, t', id);
      case RunCall(_, _, _) => ReassigningKeepsInvariant(t, t', outcome.value.1);
    }
  }

  // ---------- every run ----------

  ghost function Run(codec: Codec, t: Token, calls: seq<Call>): Token {
    if calls == [] then t else Apply(codec, Run(codec, t, calls[..|calls| - 1]), calls[|calls| - 1])
  }

  lemma {:induction false} RunKeepsInvariant(codec: Codec, t: Token, calls: seq<Call>)
    requires Invariant(t)
    ensures Invariant(Run(codec, t, calls))
  {
    if calls != [] {
      RunKeepsInvariant(codec, t, calls[..|calls| - 1]);
      ApplyKeepsInvariant(codec, Run(codec, t, calls[..|calls| - 1]), calls[|calls| - 1]);
    }
  }
}
