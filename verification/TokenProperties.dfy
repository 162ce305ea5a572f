/**
 What the run invariant means for the people who use a token: its ledger and its events can
 be recomputed, no locked payment can get stuck, the order of confirmations is immaterial,
 and a recorded transaction only ever moves forward.
 */
module TokenProperties {
  import opened Wrappers
  import opened MapSums
  import opened Ledger
  import opened Dispatch
  import opened ForgeBonds
  import opened TokenRuns

  /** Everything proved about runs, for one token reached from origination. */
  lemma ReachedFacts(codec: Codec, t: Token, calls: seq<Call>)
    requires Originated(t)
    ensures Invariant(Run(codec, t, calls)) && Evolves(t.storage, Run(codec, t, calls).storage)
  {
    OriginatedInvariant(t);
    RunKeepsInvariant(codec, t, calls);
    RunEvolves(codec, t, calls, 0);
    assert calls[..0] == [];
  }

  // ---------- recomputation ----------

  /** In every run the ledger is what the recorded transactions add up to. */
  lemma LedgerIsRecomputable(codec: Codec, t: Token, calls: seq<Call>)
    requires Originated(t)
    ensures var s := Run(codec, t, calls).storage; var byId := s.repository.byId;
      && s.balances.Keys == {s.owner} + Receivers(byId)
      && s.balances[s.owner].balance == s.initialSupply - Sum(byId, SentAwayFrom(s.owner))
      && s.balances[s.owner].locked == Sum(byId, LockedQuantity)
      && forall a :: a in s.balances && a != s.owner ==> s.balances[a] == Balance(Sum(byId, ReceivedBy(a)), 0)
  {
    OriginatedInvariant(t);
    RunKeepsInvariant(codec, t, calls);
  }

  /** The trail of every id is as long as its status implies. */
  lemma TrailsTell(t: Token)
    requires Invariant(t)
    ensures var byId := t.storage.repository.byId;
      forall id: nat ::
        && (id !in byId ==> Trail(t.log, id) == [])
        && (id in byId ==> |Trail(t.log, id)| == Stage(byId[id].status) >= 1
                           && Trail(t.log, id) <= WholeTrail(byId[id].details))
  {
  }

  /** In every run the emitted transfers replay to the balances, and each transaction has a prefix of one fixed trail. */
  lemma EventsAreReplayable(codec: Codec, t: Token, calls: seq<Call>)
    requires Originated(t)
    ensures var t' := Run(codec, t, calls); var byId := t'.storage.repository.byId;
      && Replay(map[t.storage.owner := t.storage.initialSupply], t'.log) == Amounts(t'.storage.balances)
      && forall id: nat ::
           && (id !in byId ==> Trail(t'.log, id) == [])
           && (id in byId ==> |Trail(t'.log, id)| == Stage(byId[id].status) >= 1
                              && Trail(t'.log, id) <= WholeTrail(byId[id].details))
  {
    var t' := Run(codec, t, calls);
    assert Invariant(t') && t'.storage.owner == t.storage.owner && t'.storage.initialSupply == t.storage.initialSupply by {
      ReachedFacts(codec, t, calls);
    }
    TrailsTell(t');
  }

  /** In every run the balances add up to the supply, and no account is ever overdrawn or over-locked. */
  lemma SupplyIsConserved(codec: Codec, t: Token, calls: seq<Call>)
    requires Originated(t)
    ensures var s := Run(codec, t, calls).storage;
      && Sum(s.balances, Amount) == s.currentSupply == s.initialSupply == t.storage.initialSupply
      && forall a :: a in s.balances ==> s.balances[a].locked <= s.balances[a].balance
  {
    ReachedFacts(codec, t, calls);
  }

  // ---------- lifecycle ----------

  /** One storage is a later stage of another: nothing recorded is lost or rewritten, no role is gained. */
  ghost predicate Evolves(s: Storage, s': Storage) {
    && s' == s.(repository := s'.repository, balances := s'.balances, authorizations := s'.authorizations)
    && (forall id :: id in s.repository.byId ==>
          && id in s'.repository.byId
          && s'.repository.byId[id].details == s.repository.byId[id].details
          && s.repository.byId[id].status <= s'.repository.byId[id].status)
    && (forall op :: op in s.repository.operationType ==> op in s'.repository.operationType)
    && (forall who, role :: HasRole(who, s'.authorizations, role) ==> HasRole(who, s.authorizations, role))
  }

  /** What one call may do to one status: record it locked, or move it one stage. */
  ghost predicate AdvancesByOne(s: Storage, s': Storage) {
    forall id :: id in s'.repository.byId ==>
      var after := s'.repository.byId[id].status;
      if id in s.repository.byId
      then after == s.repository.byId[id].status
           || (s.repository.byId[id].status == TOKEN_LOCKED && after == CASH_RECEIVED)
           || (s.repository.byId[id].status == CASH_RECEIVED && after == CASH_SENT)
      else after == TOKEN_LOCKED
  }

  lemma RunCallShrinksRoles(codec: Codec, s: Storage, c: Call)
    requires c.entryPoint.RunCall? && Step(codec, s, c).Ok?
    ensures forall who, role :: HasRole(who, Step(codec, s, c).value.0.authorizations, role)
                            ==> HasRole(who, s.authorizations, role)
  {
    AuthorizeGrantsNothing(c.sender, s.authorizations, c.entryPoint.operator, c.entryPoint.operatorRole);
  }

  lemma ApplyEvolves(codec: Codec, t: Token, c: Call)
    ensures Evolves(t.storage, Apply(codec, t, c).storage)
    ensures AdvancesByOne(t.storage, Apply(codec, t, c).storage)
  {
    if Step(codec, t.storage, c).Ok? {
      StepEffect(codec, t.storage, c);
      if c.entryPoint.RunCall? { RunCallShrinksRoles(codec, t.storage, c); }
    }
  }

  /** Along every run, every later token is a later stage of every earlier one. */
  lemma {:induction false} RunEvolves(codec: Codec, t: Token, calls: seq<Call>, i: nat)
    requires i <= |calls|
    ensures Evolves(Run(codec, t, calls[..i]).storage, Run(codec, t, calls).storage)
    decreases |calls|
  {
    if i == |calls| {
      assert calls[..i] == calls;
    } else {
      var before := calls[..|calls| - 1];
      assert before[..i] == calls[..i];
      RunEvolves(codec, t, before, i);
      ApplyEvolves(codec, Run(codec, t, before), calls[|calls| - 1]);
    }
  }

  datatype OracleStatus = PENDING | INITIATED | ACKNOWLEDGED | PROCESSED | SETTLED | REJECTED | CANCELED

  /** `mapSettlementTransactionStatus`. */
  function MapStatus(blockchainStatus: nat): OracleStatus {
    match blockchainStatus
    case 0 => PENDING
    case 1 => INITIATED
    case 2 => ACKNOWLEDGED
    case 3 => PROCESSED
    case 4 => SETTLED
    case 255 => REJECTED
    case 5 => CANCELED
    case _ => PENDING
  }

  const PROGRESSION: seq<OracleStatus> := [ACKNOWLEDGED, PROCESSED, SETTLED]

  /** A recorded transaction is at one of the three stages, of a subscription. */
  lemma RecordedStage(t: Token, id: nat) returns (stage: nat)
    requires WellRecorded(t.storage) && id in t.storage.repository.byId
    ensures var repository := t.storage.repository; var recorded := repository.byId[id];
      && stage < |PROGRESSION| && recorded.status == TOKEN_LOCKED + stage
      && recorded.status != CREATED && recorded.status != ERROR
      && MapStatus(recorded.status) == PROGRESSION[stage]
      && recorded.details.operationId in repository.operationType
      && repository.operationType[recorded.details.operationId] == SUBSCRIPTION
  {
    stage := t.storage.repository.byId[id].status - TOKEN_LOCKED;
  }

  /**
   Between any two moments of a run, a recorded transaction keeps its details and operation
   type, its oracle status only moves right along ACKNOWLEDGED, PROCESSED, SETTLED, and
   CREATED and ERROR are never stored.
   */
  lemma TransactionsOnlyMoveForward(codec: Codec, t: Token, calls: seq<Call>, i: nat, id: nat) returns (a: nat, b: nat)
    requires Originated(t) && i <= |calls|
    requires id in Run(codec, t, calls[..i]).storage.repository.byId
    ensures var before, after := Run(codec, t, calls[..i]).storage.repository, Run(codec, t, calls).storage.repository;
      && id in after.byId
      && after.byId[id].details == before.byId[id].details
      && a <= b < |PROGRESSION|
      && before.byId[id].status !in {CREATED, ERROR} && after.byId[id].status !in {CREATED, ERROR}
      && MapStatus(before.byId[id].status) == PROGRESSION[a]
      && MapStatus(after.byId[id].status) == PROGRESSION[b]
      && var op := before.byId[id].details.operationId;
      && op in before.operationType && op in after.operationType
      && before.operationType[op] == after.operationType[op] == SUBSCRIPTION
  {
    OriginatedInvariant(t);
    RunKeepsInvariant(codec, t, calls[..i]);
    RunKeepsInvariant(codec, t, calls);
    RunEvolves(codec, t, calls, i);
    a := RecordedStage(Run(codec, t, calls[..i]), id);
    b := RecordedStage(Run(codec, t, calls), id);
  }

  /** No run ever gives anyone a role the token was not originated with, whatever `authorizeOperator` is asked. */
  lemma NoRunGrantsARole(codec: Codec, t: Token, calls: seq<Call>, who: Address, role: nat)
    ensures HasRole(who, Run(codec, t, calls).storage.authorizations, role)
        ==> HasRole(who, t.storage.authorizations, role)
  {
    RunEvolves(codec, t, calls, 0);
    assert calls[..0] == [];
  }

  // ---------- progress ----------

  /** In every run a locked transaction can be paid by exactly the settlers: no `as_nat` can fail. */
  lemma LockedTransactionsCanBePaid(codec: Codec, t: Token, calls: seq<Call>, c: Call)
    requires Originated(t) && Resolves(codec, t.storage.entrypoints)
    requires c.entryPoint.ConfirmPaymentReceivedCall?
    ensures var s, id := Run(codec, t, calls).storage, c.entryPoint.txId;
      Step(codec, s, c).Ok? <==>
        && id in s.repository.byId && s.repository.byId[id].status == TOKEN_LOCKED
        && HasRole(c.sender, s.authorizations, SETTLER) && c.sinkResolves
  {
    ReachedFacts(codec, t, calls);
    PaymentAccepted(codec, Run(codec, t, calls), c);
  }

  /** A locked transaction can be settled: neither `as_nat` sees a negative number. */
  lemma LockedCanSettle(t: Token, id: nat)
    requires Invariant(t) && id in t.storage.repository.byId
    requires t.storage.repository.byId[id].status == TOKEN_LOCKED
    ensures var (s, st) := (t.storage, t.storage.repository.byId[id].details);
      s.owner in s.balances && CanSettle(s.balances, s.owner, st.deliveryReceiver, st.deliveryQuantity)
  {
    SumBoundsEntry(t.storage.repository.byId, LockedQuantity, id);
  }

  lemma PaymentAccepted(codec: Codec, t: Token, c: Call)
    requires Invariant(t) && Resolves(codec, t.storage.entrypoints) && c.entryPoint.ConfirmPaymentReceivedCall?
    ensures var s, id := t.storage, c.entryPoint.txId;
      Step(codec, s, c).Ok? <==>
        && id in s.repository.byId && s.repository.byId[id].status == TOKEN_LOCKED
        && HasRole(c.sender, s.authorizations, SETTLER) && c.sinkResolves
  {
    var s, id := t.storage, c.entryPoint.txId;
    if id in s.repository.byId && s.repository.byId[id].status == TOKEN_LOCKED {
      LockedCanSettle(t, id);
    }
  }

  lemma SubscriptionAccepted(codec: Codec, t: Token, c: Call)
    requires Invariant(t) && Resolves(codec, t.storage.entrypoints) && c.entryPoint.InitiateSubscriptionCall?
    ensures var s, st := t.storage, c.entryPoint.params; var byId := s.repository.byId;
      Step(codec, s, c).Ok? <==>
        && st.txId !in byId && st.deliverySender == s.owner
        && Sum(byId, LockedQuantity) + Sum(byId, SentAwayFrom(s.owner)) + st.deliveryQuantity <= s.initialSupply
        && HasRole(c.sender, s.authorizations, REGISTRAR) && c.sinkResolves
  {
  }

  /** In every run a subscription is accepted exactly when a registrar asks for unused, uncommitted supply of the owner. */
  lemma SubscriptionsAccepted(codec: Codec, t: Token, calls: seq<Call>, c: Call)
    requires Originated(t) && Resolves(codec, t.storage.entrypoints) && c.entryPoint.InitiateSubscriptionCall?
    ensures var s, st := Run(codec, t, calls).storage, c.entryPoint.params; var byId := s.repository.byId;
      Step(codec, s, c).Ok? <==>
        && st.txId !in byId && st.deliverySender == s.owner
        && Sum(byId, LockedQuantity) + Sum(byId, SentAwayFrom(s.owner)) + st.deliveryQuantity <= s.initialSupply
        && HasRole(c.sender, s.authorizations, REGISTRAR) && c.sinkResolves
  {
    ReachedFacts(codec, t, calls);
    SubscriptionAccepted(codec, Run(codec, t, calls), c);
  }

  /** In every run a paid transaction can be closed by exactly the settlers, and only a paid one can. */
  lemma PaidTransactionsCanBeClosed(codec: Codec, t: Token, calls: seq<Call>, c: Call)
    requires Resolves(codec, t.storage.entrypoints) && c.entryPoint.ConfirmPaymentTransferredCall?
    ensures var s, id := Run(codec, t, calls).storage, c.entryPoint.txId;
      Step(codec, s, c).Ok? <==>
        && id in s.repository.byId && s.repository.byId[id].status == CASH_RECEIVED
        && HasRole(c.sender, s.authorizations, SETTLER) && c.sinkResolves
  {
    RunEvolves(codec, t, calls, 0);
    assert calls[..0] == [];
  }

  // ---------- confluence ----------

  /** One payment to confirm, and who confirms it. */
  datatype Confirmation = Confirmation(settler: Address, txId: nat)

  function CallFor(c: Confirmation): Call {
    Call(c.settler, true, ConfirmPaymentReceivedCall(c.txId))
  }

  /** Payments confirmed one after the other, each by its own settler. */
  function Confirmations(order: seq<Confirmation>): seq<Call> {
    if order == [] then [] else Confirmations(order[..|order| - 1]) + [CallFor(order[|order| - 1])]
  }

  ghost predicate DistinctLocked(byId: Transactions, order: seq<Confirmation>) {
    && (forall i, j :: 0 <= i < j < |order| ==> order[i].txId != order[j].txId)
    && (forall c :: c in order ==> c.txId in byId && byId[c.txId].status == TOKEN_LOCKED)
  }

  ghost predicate AllSettlers(authorizations: Authorizations, order: seq<Confirmation>) {
    forall c :: c in order ==> HasRole(c.settler, authorizations, SETTLER)
  }

  function MarkPaid(byId: Transactions, ids: set<nat>): Transactions {
    map id | id in byId :: if id in ids then byId[id].(status := CASH_RECEIVED) else byId[id]
  }

  function TxIds(order: seq<Confirmation>): set<nat> {
    set c | c in order :: c.txId
  }

  /** `s'` is `s` with exactly the transactions in `ids` marked paid, and the balances left open. */
  ghost predicate PaidExactly(s: Storage, s': Storage, ids: set<nat>) {
    s' == s.(repository := s.repository.(byId := MarkPaid(s.repository.byId, ids)), balances := s'.balances)
  }

  lemma TxIdsOfMore(init: seq<Confirmation>, last: Confirmation)
    ensures TxIds(init + [last]) == TxIds(init) + {last.txId}
  {
    assert last in init + [last];
    forall c | c in init ensures c in init + [last] {}
  }

  lemma OneMorePaid(s: Storage, before: Storage, after: Storage, init: seq<Confirmation>, last: Confirmation)
    requires PaidExactly(s, before, TxIds(init)) && last.txId in before.repository.byId
    requires after == before.(
      repository := WithStatus(before.repository, last.txId, CASH_RECEIVED), balances := after.balances)
    ensures PaidExactly(s, after, TxIds(init + [last]))
  {
    TxIdsOfMore(init, last);
    assert after.repository.byId == MarkPaid(s.repository.byId, TxIds(init + [last]));
  }

  lemma LastIsLocked(s: Storage, before: Storage, init: seq<Confirmation>, last: Confirmation)
    requires PaidExactly(s, before, TxIds(init)) && DistinctLocked(s.repository.byId, init + [last])
    ensures last.txId in before.repository.byId && before.repository.byId[last.txId].status == TOKEN_LOCKED
  {
    var order := init + [last];
    assert order[|init|] == last && last in order;
    forall i | 0 <= i < |init| ensures init[i].txId != last.txId {
      assert order[i] == init[i] && order[i].txId != order[|init|].txId;
    }
  }

  /** One accepted confirmation: the transaction is marked paid, and only the balances change besides. */
  lemma OneConfirmation(codec: Codec, t: Token, c: Call)
    requires Invariant(t) && Resolves(codec, t.storage.entrypoints)
    requires c.entryPoint.ConfirmPaymentReceivedCall? && HasRole(c.sender, t.storage.authorizations, SETTLER)
    requires c.sinkResolves && c.entryPoint.txId in t.storage.repository.byId
    requires t.storage.repository.byId[c.entryPoint.txId].status == TOKEN_LOCKED
    ensures var t', s, id := Apply(codec, t, c), t.storage, c.entryPoint.txId;
      && Invariant(t') && |t'.log| == |t.log| + 1
      && t'.storage == s.(repository := WithStatus(s.repository, id, CASH_RECEIVED), balances := t'.storage.balances)
  {
    PaymentAccepted(codec, t, c);
    StepEffect(codec, t.storage, c);
    ApplyKeepsInvariant(codec, t, c);
  }

  lemma NothingPaid(s: Storage)
    ensures PaidExactly(s, s, TxIds([]))
  {
    assert MarkPaid(s.repository.byId, TxIds([])) == s.repository.byId;
  }

  lemma PrefixDistinctLocked(byId: Transactions, authorizations: Authorizations, order: seq<Confirmation>)
    requires order != [] && DistinctLocked(byId, order) && AllSettlers(authorizations, order)
    ensures DistinctLocked(byId, order[..|order| - 1]) && AllSettlers(authorizations, order[..|order| - 1])
    ensures HasRole(order[|order| - 1].settler, authorizations, SETTLER)
  {
    forall c | c in order[..|order| - 1] ensures c in order {}
    assert order[|order| - 1] in order;
  }

  lemma OneMoreConfirmation(codec: Codec, s: Storage, before: Token, init: seq<Confirmation>, last: Confirmation)
    requires Invariant(before) && PaidExactly(s, before.storage, TxIds(init))
    requires Resolves(codec, s.entrypoints) && HasRole(last.settler, s.authorizations, SETTLER)
    requires DistinctLocked(s.repository.byId, init + [last])
    ensures var after := Apply(codec, before, CallFor(last));
      && Invariant(after) && |after.log| == |before.log| + 1
      && PaidExactly(s, after.storage, TxIds(init + [last]))
  {
    LastIsLocked(s, before.storage, init, last);
    OneConfirmation(codec, before, CallFor(last));
    OneMorePaid(s, before.storage, Apply(codec, before, CallFor(last)).storage, init, last);
  }

  lemma LastConfirmation(codec: Codec, t: Token, order: seq<Confirmation>)
    requires order != []
    ensures Run(codec, t, Confirmations(order))
         == Apply(codec, Run(codec, t, Confirmations(order[..|order| - 1])), CallFor(order[|order| - 1]))
  {
    var all := Confirmations(order);
    assert all[..|all| - 1] == Confirmations(order[..|order| - 1]);
  }

  /** After confirming any distinct locked transactions, exactly those are marked paid and all calls were accepted. */
  lemma {:induction false} ConfirmationsMarkPaid(codec: Codec, t: Token, order: seq<Confirmation>)
    requires Invariant(t) && Resolves(codec, t.storage.entrypoints)
    requires AllSettlers(t.storage.authorizations, order) && DistinctLocked(t.storage.repository.byId, order)
    ensures var t' := Run(codec, t, Confirmations(order));
      && Invariant(t')
      && |t'.log| == |t.log| + |order|
      && PaidExactly(t.storage, t'.storage, TxIds(order))
  {
    if order == [] {
      NothingPaid(t.storage);
    } else {
      var init, last := order[..|order| - 1], order[|order| - 1];
      assert init + [last] == order;
      PrefixDistinctLocked(t.storage.repository.byId, t.storage.authorizations, order);
      ConfirmationsMarkPaid(codec, t, init);
      LastConfirmation(codec, t, order);
      OneMoreConfirmation(codec, t.storage, Run(codec, t, Confirmations(init)), init, last);
    }
  }

  /** The ledger is determined by the recorded transactions, so paying the same ones gives the same storage. */
  lemma SamePaidSameStorage(s: Storage, s1: Storage, s2: Storage, ids: set<nat>)
    requires PaidExactly(s, s1, ids) && PaidExactly(s, s2, ids)
    requires LedgerAgrees(s1) && LedgerAgrees(s2)
    ensures s1 == s2
  {
    forall a | a in s1.balances ensures s1.balances[a] == s2.balances[a] {}
    assert s1.balances == s2.balances;
  }

  /** Both orders succeed throughout, mark exactly their transactions paid, and end in the same storage. */
  ghost predicate SameOutcome(codec: Codec, t: Token, order: seq<Confirmation>, order': seq<Confirmation>) {
    var (t1, t2) := (Run(codec, t, Confirmations(order)), Run(codec, t, Confirmations(order')));
    && t1.storage == t2.storage && PaidExactly(t.storage, t1.storage, TxIds(order))
    && |t1.log| == |t.log| + |order| && |t2.log| == |t.log| + |order'|
  }

  lemma ConfirmationsAgree(codec: Codec, t: Token, order: seq<Confirmation>, order': seq<Confirmation>)
    requires Invariant(t) && Resolves(codec, t.storage.entrypoints)
    requires AllSettlers(t.storage.authorizations, order) && AllSettlers(t.storage.authorizations, order')
    requires DistinctLocked(t.storage.repository.byId, order) && DistinctLocked(t.storage.repository.byId, order')
    requires TxIds(order) == TxIds(order')
    ensures SameOutcome(codec, t, order, order')
  {
    ConfirmationsMarkPaid(codec, t, order);
    ConfirmationsMarkPaid(codec, t, order');
    var s1 := Run(codec, t, Confirmations(order)).storage;
    var s2 := Run(codec, t, Confirmations(order')).storage;
    SamePaidSameStorage(t.storage, s1, s2, TxIds(order));
  }

  /**
   Confluence: from any reachable token, confirming the same locked transactions in any two
   orders, each confirmation by any settler, succeeds throughout and ends in the same storage.
   */
  lemma ConfirmationOrderIsImmaterial(codec: Codec, t: Token, calls: seq<Call>,
                                      order: seq<Confirmation>, order': seq<Confirmation>)
    requires Originated(t) && Resolves(codec, t.storage.entrypoints)
    requires var s := Run(codec, t, calls).storage;
      && AllSettlers(s.authorizations, order) && AllSettlers(s.authorizations, order')
      && DistinctLocked(s.repository.byId, order) && DistinctLocked(s.repository.byId, order')
    requires TxIds(order) == TxIds(order')
    ensures SameOutcome(codec, Run(codec, t, calls), order, order')
  {
    var reached := Run(codec, t, calls);
    assert Invariant(reached) && reached.storage.entrypoints == t.storage.entrypoints by {
      ReachedFacts(codec, t, calls);
    }
    ConfirmationsAgree(codec, reached, order, order');
  }
}
