/**
 The redemption planner: one delivery-versus-payment transaction per paying position, with
 the cash movements that carry the payment and the token movement that carries the delivery.
 */
module Redemption {
  import opened Wrappers

  datatype Ledger = TEZOS | ETHEREUM

  datatype SettlementModel = DIRECT | INDIRECT

  datatype ParticipantAddresses = ParticipantAddresses(
    deliveryAccountNumber: string,
    paymentAccountNumber: string,
    legalEntityId: string)

  datatype Position = Position(legalEntityAddress: string, balance: int)

  datatype MovementType = CASH | TOKEN

  datatype Movement = Movement(
    id: string,
    movementType: MovementType,
    senderAccountNumber: string,
    receiverAccountNumber: string,
    paymentReference: Option<string>)

  /** The columns of a stored settlement transaction the payment flow looks at. */
  datatype StrTransaction = StrTransaction(
    id: string,
    operationId: string,
    instrumentPublicAddress: string,
    instrumentLedger: Ledger,
    deliveryQuantity: int,
    deliverySenderAccountNumber: string,
    deliveryReceiverAccountNumber: string,
    paymentAmount: int,
    paymentSenderAccountNumber: string,
    paymentReceiverAccountNumber: string,
    paymentSenderLegalEntityId: string,
    paymentReceiverLegalEntityId: string,
    settlementModel: SettlementModel,
    holdableTokenAddress: Option<string>,
    intermediateAccountIBAN: Option<string>,
    additionalReaderAddresses: seq<string>)

  datatype CreateInput = CreateInput(row: StrTransaction, movements: seq<Movement>)

  /** The request, with what the planner reads off the instrument contract. */
  datatype Request = Request(
    operationId: string,
    instrumentAddress: string,
    instrumentLedger: Ledger,
    settlementModel: SettlementModel,
    holdableTokenAddress: Option<string>,
    intermediateAccountIBAN: Option<string>,
    issuerPaymentAccountNumber: string,
    issuerLegalEntityId: string,
    participants: seq<ParticipantAddresses>,
    contractOwner: string,
    denomination: int,
    additionalReaderAddresses: seq<string>)
  {
    function Issuer(): ParticipantAddresses {
      ParticipantAddresses(contractOwner, issuerPaymentAccountNumber, issuerLegalEntityId)
    }
  }

  /** The n-th generated id, and the reference computed for a movement of an operation. */
  datatype Generators = Generators(uuid: nat -> string, reference: (string, string) -> string)

  const NO_IBAN := "Indirect settlement transaction must have an intermediateAccountIBAN"
  const NO_HOLDABLE := "Direct settlement transaction must have an intermediateAccountIBAN"
  const NO_PARTICIPANT := "Cannot find payment account number for address"

  // ---------- helpers ----------

  function LowerChar(c: char): char {
    if 'A' <= c <= 'Z' then (c as int + 32) as char else c
  }

  function Lower(s: string): string {
    seq(|s|, i requires 0 <= i < |s| => LowerChar(s[i]))
  }

  function FindParticipant(participants: seq<ParticipantAddresses>, address: string): (r: Option<ParticipantAddresses>)
    ensures r.Some? <==> exists p :: p in participants && Lower(p.deliveryAccountNumber) == Lower(address)
    ensures r.Some? ==> r.value in participants && Lower(r.value.deliveryAccountNumber) == Lower(address)
  {
    if participants == [] then None
    else if Lower(participants[0].deliveryAccountNumber) == Lower(address) then Some(participants[0])
    else FindParticipant(participants[1..], address)
  }

  function CashMovement(g: Generators, id: nat, sender: string, receiver: string, operationId: string): Movement {
    Movement(g.uuid(id), CASH, sender, receiver, Some(g.reference(operationId, g.uuid(id))))
  }

  /** As written, the token moves from the second argument to the first. */
  function TokenMovement(g: Generators, id: nat, sender: ParticipantAddresses, receiver: ParticipantAddresses): Movement {
    Movement(g.uuid(id), TOKEN, receiver.deliveryAccountNumber, sender.deliveryAccountNumber, None)
  }

  function SettlementTransaction(g: Generators, id: nat, req: Request, quantity: int, payment: int,
                                 paymentSender: ParticipantAddresses, paymentReceiver: ParticipantAddresses,
                                 movements: seq<Movement>): CreateInput
  {
    CreateInput(
      StrTransaction(
        g.uuid(id), req.operationId, req.instrumentAddress, req.instrumentLedger,
        quantity, paymentReceiver.deliveryAccountNumber, paymentSender.deliveryAccountNumber,
        payment, paymentSender.paymentAccountNumber, paymentReceiver.paymentAccountNumber,
        paymentSender.legalEntityId, paymentReceiver.legalEntityId,
        req.settlementModel, req.holdableTokenAddress, req.intermediateAccountIBAN,
        req.additionalReaderAddresses),
      movements)
  }

  // ---------- the plan ----------

  /** A position that is paid out: not the owner's, whatever the case of the address, and with a positive balance. */
  predicate IsPaid(owner: string, position: Position) {
    Lower(position.legalEntityAddress) != Lower(owner) && position.balance > 0
  }

  function Paying(owner: string, positions: seq<Position>): seq<Position> {
    if positions == [] then []
    else (if IsPaid(owner, positions[0]) then [positions[0]] else []) + Paying(owner, positions[1..])
  }

  /** Ids used before the first transaction: the shared cash movement of an indirect settlement takes one. */
  function FirstId(req: Request): nat {
    if req.settlementModel.INDIRECT? then 1 else 0
  }

  /** The cash movement every transaction of an indirect redemption shares. */
  function SharedMovement(g: Generators, req: Request, iban: string): Movement {
    CashMovement(g, 0, req.issuerPaymentAccountNumber, iban, req.operationId)
  }

  /** The cash movements of the k-th transaction. */
  function CashMovements(g: Generators, req: Request, k: nat, investor: ParticipantAddresses): Result<seq<Movement>> {
    var id := FirstId(req) + 3 * k;
    if req.settlementModel.DIRECT? then
      if req.holdableTokenAddress.None? then Rejected(NO_HOLDABLE)
      else Ok([CashMovement(g, id, req.issuerPaymentAccountNumber, investor.paymentAccountNumber, req.operationId)])
    else
      match req.intermediateAccountIBAN
      case None => Rejected(NO_IBAN)
      case Some(iban) =>
        Ok([SharedMovement(g, req, iban),
            CashMovement(g, id, iban, investor.paymentAccountNumber, req.operationId)])
  }

  /** The k-th transaction. */
  function PlanOne(g: Generators, req: Request, k: nat, position: Position): Result<CreateInput> {
    match FindParticipant(req.participants, position.legalEntityAddress)
    case None => Rejected(NO_PARTICIPANT)
    case Some(investor) =>
      match CashMovements(g, req, k, investor)
      case Rejected(reason) => Rejected(reason)
      case Ok(cash) =>
        var id := FirstId(req) + 3 * k;
        Ok(SettlementTransaction(g, id + 2, req, position.balance, position.balance * req.denomination,
                                 req.Issuer(), investor,
                                 cash + [TokenMovement(g, id + 1, req.Issuer(), investor)]))
  }

  /** Why a position cannot be planned: nobody matches it, or the settlement lacks the address its model needs. */
  lemma PlanningFailsBecause(g: Generators, req: Request, k: nat, position: Position)
    ensures var matched := exists p :: p in req.participants
                                       && Lower(p.deliveryAccountNumber) == Lower(position.legalEntityAddress);
      && (PlanOne(g, req, k, position) == Rejected(NO_PARTICIPANT) <==> !matched)
      && (PlanOne(g, req, k, position) == Rejected(NO_HOLDABLE) <==>
            matched && req.settlementModel.DIRECT? && req.holdableTokenAddress.None?)
      && (PlanOne(g, req, k, position) == Rejected(NO_IBAN) <==>
            matched && req.settlementModel.INDIRECT? && req.intermediateAccountIBAN.None?)
  {
    assert |NO_PARTICIPANT| < |NO_HOLDABLE| < |NO_IBAN|;
  }

  /** A plan: one transaction per paying position, in order. */
  ghost predicate Plans(g: Generators, req: Request, paying: seq<Position>, plan: seq<CreateInput>) {
    && |plan| == |paying|
    && forall k :: 0 <= k < |paying| ==> PlanOne(g, req, k, paying[k]) == Ok(plan[k])
  }

  /** The first reason why planning fails, if it does. */
  ghost predicate Fails(g: Generators, req: Request, paying: seq<Position>, reason: string) {
    if req.settlementModel.INDIRECT? && req.intermediateAccountIBAN.None? then reason == NO_IBAN
    else exists k :: 0 <= k < |paying| && PlanOne(g, req, k, paying[k]) == Rejected(reason)
                     && forall j :: 0 <= j < k ==> PlanOne(g, req, j, paying[j]).Ok?
  }

  lemma PayingFrom(owner: string, positions: seq<Position>, i: nat)
    requires i < |positions|
    ensures Paying(owner, positions[i..])
         == (if IsPaid(owner, positions[i]) then [positions[i]] else []) + Paying(owner, positions[i + 1..])
  {
    assert positions[i..][1..] == positions[i + 1..];
  }

  /** The callback run for each paying position: it pushes the cash movements, then builds the transaction. */
  method PlanPosition(g: Generators, req: Request, shared: Option<Movement>, ghost k: nat, nextId: nat, position: Position)
    returns (r: Result<CreateInput>)
    requires nextId == FirstId(req) + 3 * k
    requires req.settlementModel.INDIRECT? ==>
      req.intermediateAccountIBAN.Some? && shared == Some(SharedMovement(g, req, req.intermediateAccountIBAN.value))
    ensures r == PlanOne(g, req, k, position)
  {
    var issuerAddresses := req.Issuer();
    var investor := FindParticipant(req.participants, position.legalEntityAddress);
    if investor.None? {
      return Rejected(NO_PARTICIPANT);
    }
    var cashMovements: seq<Movement> := [];
    if req.settlementModel.DIRECT? {
      if req.holdableTokenAddress.None? {
        return Rejected(NO_HOLDABLE);
      }
      cashMovements := cashMovements + [CashMovement(g, nextId, issuerAddresses.paymentAccountNumber,
                                                     investor.value.paymentAccountNumber, req.operationId)];
    } else {
      cashMovements := cashMovements + [shared.value];
      cashMovements := cashMovements + [CashMovement(g, nextId, req.intermediateAccountIBAN.value,
                                                     investor.value.paymentAccountNumber, req.operationId)];
    }
    assert cashMovements == CashMovements(g, req, k, investor.value).value;
    var tokenMovement := TokenMovement(g, nextId + 1, issuerAddresses, investor.value);
    return Ok(SettlementTransaction(
      g, nextId + 2, req, position.balance, position.balance * req.denomination,
      issuerAddresses, investor.value, cashMovements + [tokenMovement]));
  }

  lemma PlanGrows(g: Generators, req: Request, paying: seq<Position>, done: nat, plan: seq<CreateInput>, next: CreateInput)
    requires done < |paying| && Plans(g, req, paying[..done], plan) && PlanOne(g, req, done, paying[done]) == Ok(next)
    ensures Plans(g, req, paying[..done + 1], plan + [next])
  {
    forall k | 0 <= k < done + 1 ensures PlanOne(g, req, k, paying[..done + 1][k]) == Ok((plan + [next])[k]) {
      if k < done { assert paying[..done][k] == paying[k]; }
    }
  }

  lemma PlanStops(g: Generators, req: Request, paying: seq<Position>, done: nat, plan: seq<CreateInput>, reason: string)
    requires done < |paying| && Plans(g, req, paying[..done], plan)
    requires PlanOne(g, req, done, paying[done]) == Rejected(reason)
    requires !(req.settlementModel.INDIRECT? && req.intermediateAccountIBAN.None?)
    ensures Fails(g, req, paying, reason)
  {
    forall k | 0 <= k < done ensures PlanOne(g, req, k, paying[k]).Ok? { assert paying[..done][k] == paying[k]; }
  }

  /** The planner: succeeds with the plan of all paying positions, or fails for the first reason there is. */
  method GenerateSettlementTransactionsInputs(g: Generators, req: Request, positions: seq<Position>)
    returns (r: Result<seq<CreateInput>>)
    ensures r.Ok? ==> Plans(g, req, Paying(req.contractOwner, positions), r.value)
                      && !(req.settlementModel.INDIRECT? && req.intermediateAccountIBAN.None?)
    ensures r.Rejected? ==> Fails(g, req, Paying(req.contractOwner, positions), r.reason)
  {
    var settlementTransactions: seq<CreateInput> := [];
    var owner := req.contractOwner;
    var nextId := 0;
    var shared: Option<Movement> := None;
    if req.settlementModel.INDIRECT? {
      if req.intermediateAccountIBAN.None? {
        return Rejected(NO_IBAN);
      }
      shared := Some(CashMovement(g, nextId, req.Issuer().paymentAccountNumber,
                                  req.intermediateAccountIBAN.value, req.operationId));
      nextId := nextId + 1;
    }
    ghost var paying := Paying(owner, positions);
    ghost var done := 0;
    for i := 0 to |positions|
      invariant done == |settlementTransactions| <= |paying|
      invariant paying[done..] == Paying(owner, positions[i..])
      invariant Plans(g, req, paying[..done], settlementTransactions)
      invariant nextId == FirstId(req) + 3 * done
    {
      PayingFrom(owner, positions, i);
      var position := positions[i];
      if IsPaid(owner, position) {
        assert position == paying[done] && paying[done..][1..] == paying[done + 1..];
        var settlementTransaction := PlanPosition(g, req, shared, done, nextId, position);
        if settlementTransaction.Rejected? {
          PlanStops(g, req, paying, done, settlementTransactions, settlementTransaction.reason);
          return Rejected(settlementTransaction.reason);
        }
        PlanGrows(g, req, paying, done, settlementTransactions, settlementTransaction.value);
        settlementTransactions := settlementTransactions + [settlementTransaction.value];
        nextId := nextId + 3;
        done := done + 1;
      }
    }
    assert paying[..done] == paying;
    return Ok(settlementTransactions);
  }

  // ---------- what a plan is worth ----------

  function TotalBalance(positions: seq<Position>): int {
    if positions == [] then 0 else TotalBalance(positions[..|positions| - 1]) + positions[|positions| - 1].balance
  }

  function TotalQuantity(plan: seq<CreateInput>): int {
    if plan == [] then 0 else TotalQuantity(plan[..|plan| - 1]) + plan[|plan| - 1].row.deliveryQuantity
  }

  function TotalPayment(plan: seq<CreateInput>): int {
    if plan == [] then 0 else TotalPayment(plan[..|plan| - 1]) + plan[|plan| - 1].row.paymentAmount
  }

  lemma PlannedAmounts(g: Generators, req: Request, k: nat, position: Position, input: CreateInput)
    requires PlanOne(g, req, k, position) == Ok(input)
    ensures input.row.deliveryQuantity == position.balance
    ensures input.row.paymentAmount == position.balance * req.denomination
  {
  }

  lemma PaymentOfSum(a: int, b: int, denomination: int)
    ensures (a + b) * denomination == a * denomination + b * denomination
  {
  }

  /** The plan delivers what the paying positions hold and pays the denomination for each of it. */
  lemma {:induction false} PlanConserves(g: Generators, req: Request, paying: seq<Position>, plan: seq<CreateInput>)
    requires Plans(g, req, paying, plan)
    ensures TotalQuantity(plan) == TotalBalance(paying)
    ensures TotalPayment(plan) == TotalBalance(paying) * req.denomination
  {
    if plan != [] {
      var (front, last) := (paying[..|paying| - 1], paying[|paying| - 1]);
      PlanConserves(g, req, front, plan[..|plan| - 1]);
      PlannedAmounts(g, req, |front|, last, plan[|plan| - 1]);
      assert TotalBalance(paying) == TotalBalance(front) + last.balance;
      PaymentOfSum(TotalBalance(front), last.balance, req.denomination);
    }
  }

  /** Cash movements hand the money on: each starts where the one before ended. */
  ghost predicate Chains(movements: seq<Movement>, from: string, to: string) {
    && movements != []
    && (forall i :: 0 <= i < |movements| ==> movements[i].movementType.CASH?)
    && movements[0].senderAccountNumber == from
    && movements[|movements| - 1].receiverAccountNumber == to
    && forall i :: 0 <= i < |movements| - 1 ==>
         movements[i].receiverAccountNumber == movements[i + 1].senderAccountNumber
  }

  /**
   Every planned transaction delivers its position from the matched participant to the
   contract owner, pays the participant from the issuer's account, and moves cash along an
   unbroken chain between the two and the token along its delivery.
   */
  lemma PlannedTransactionsSettle(g: Generators, req: Request, paying: seq<Position>, plan: seq<CreateInput>, k: nat)
    returns (investor: ParticipantAddresses)
    requires Plans(g, req, paying, plan) && k < |plan|
    ensures investor in req.participants
    ensures Lower(investor.deliveryAccountNumber) == Lower(paying[k].legalEntityAddress)
    ensures var (row, movements) := (plan[k].row, plan[k].movements);
      && row.deliveryQuantity == paying[k].balance
      && row.paymentAmount == paying[k].balance * req.denomination
      && row.deliverySenderAccountNumber == investor.deliveryAccountNumber
      && row.deliveryReceiverAccountNumber == req.contractOwner
      && row.paymentSenderAccountNumber == req.issuerPaymentAccountNumber
      && row.paymentReceiverAccountNumber == investor.paymentAccountNumber
      && |movements| == (if req.settlementModel.INDIRECT? then 3 else 2)
      && Chains(movements[..|movements| - 1], req.issuerPaymentAccountNumber, investor.paymentAccountNumber)
      && movements[|movements| - 1].movementType.TOKEN?
      && movements[|movements| - 1].senderAccountNumber == row.deliverySenderAccountNumber
      && movements[|movements| - 1].receiverAccountNumber == row.deliveryReceiverAccountNumber
  {
    assert PlanOne(g, req, k, paying[k]) == Ok(plan[k]);
    investor := FindParticipant(req.participants, paying[k].legalEntityAddress).value;
    var cash := CashMovements(g, req, k, investor).value;
    assert plan[k].movements[..|plan[k].movements| - 1] == cash;
  }

  /**
   Every planned transaction names the request's operation, instrument, model and readers and
   both legal entities, and every cash movement carries the reference of its own id.
   */
  lemma PlannedTransactionsNameTheRequest(g: Generators, req: Request, paying: seq<Position>, plan: seq<CreateInput>,
                                          k: nat)
    requires Plans(g, req, paying, plan) && k < |plan|
    ensures var row := plan[k].row;
      && row.operationId == req.operationId
      && row.instrumentPublicAddress == req.instrumentAddress && row.instrumentLedger == req.instrumentLedger
      && row.settlementModel == req.settlementModel
      && row.holdableTokenAddress == req.holdableTokenAddress
      && row.intermediateAccountIBAN == req.intermediateAccountIBAN
      && row.additionalReaderAddresses == req.additionalReaderAddresses
      && row.paymentSenderLegalEntityId == req.issuerLegalEntityId
      && exists p :: p in req.participants && p.legalEntityId == row.paymentReceiverLegalEntityId
                     && p.deliveryAccountNumber == row.deliverySenderAccountNumber
                     && p.paymentAccountNumber == row.paymentReceiverAccountNumber
    ensures forall m :: m in plan[k].movements ==>
      m.paymentReference == if m.movementType.CASH? then Some(g.reference(req.operationId, m.id)) else None
  {
    assert PlanOne(g, req, k, paying[k]) == Ok(plan[k]);
    var investor := FindParticipant(req.participants, paying[k].legalEntityAddress).value;
    assert investor in req.participants;
  }

  /** The ids of a planned transaction: three new ones each, besides the one an indirect plan shares. */
  lemma PlannedIds(g: Generators, req: Request, paying: seq<Position>, plan: seq<CreateInput>, k: nat)
    requires Plans(g, req, paying, plan) && k < |plan|
    ensures var (id, ms) := (if req.settlementModel.INDIRECT? then 3 * k + 1 else 3 * k, plan[k].movements);
      && plan[k].row.id == g.uuid(id + 2)
      && |ms| == (if req.settlementModel.INDIRECT? then 3 else 2)
      && ms[|ms| - 1].id == g.uuid(id + 1) && ms[|ms| - 2].id == g.uuid(id)
      && (req.settlementModel.INDIRECT? ==> ms[0].id == g.uuid(0) && Some(ms[0].receiverAccountNumber) == req.intermediateAccountIBAN)
  {
    assert PlanOne(g, req, k, paying[k]) == Ok(plan[k]);
  }

  function Shifted(at: seq<nat>): seq<nat> {
    seq(|at|, k requires 0 <= k < |at| => at[k] + 1)
  }

  lemma InShifted(at: seq<nat>, i: nat)
    ensures i in Shifted(at) <==> i > 0 && i - 1 in at
  {
    if i > 0 && i - 1 in at {
      var k :| 0 <= k < |at| && at[k] == i - 1;
      assert Shifted(at)[k] == i;
    }
  }

  /** `at` lists, in ascending order, exactly the places of the positions that are paid out. */
  ghost predicate Places(owner: string, positions: seq<Position>, at: seq<nat>) {
    && (forall j, k :: 0 <= j < k < |at| ==> at[j] < at[k])
    && (forall i: nat :: i in at <==> i < |positions| && IsPaid(owner, positions[i]))
  }

  lemma PlacesShift(owner: string, positions: seq<Position>, later: seq<nat>)
    requires positions != [] && Places(owner, positions[1..], later)
    ensures Places(owner, positions, (if IsPaid(owner, positions[0]) then [0] else []) + Shifted(later))
  {
    var at := (if IsPaid(owner, positions[0]) then [0] else []) + Shifted(later);
    forall i: nat ensures i in at <==> i < |positions| && IsPaid(owner, positions[i]) {
      InShifted(later, i);
      if 0 < i < |positions| { assert positions[1..][i - 1] == positions[i]; }
    }
  }

  /** `taken` is what `positions` holds at the places `at`. */
  ghost predicate TakenFrom(taken: seq<Position>, positions: seq<Position>, at: seq<nat>) {
    |taken| == |at| && forall k :: 0 <= k < |at| ==> at[k] < |positions| && taken[k] == positions[at[k]]
  }

  lemma TakenShift(taken: seq<Position>, positions: seq<Position>, later: seq<nat>, first: bool)
    requires positions != [] && TakenFrom(taken, positions[1..], later)
    ensures TakenFrom((if first then [positions[0]] else []) + taken, positions,
                      (if first then [0] else []) + Shifted(later))
  {
    forall k | 0 <= k < |later| ensures Shifted(later)[k] < |positions| && taken[k] == positions[Shifted(later)[k]] {
      assert positions[1..][later[k]] == positions[later[k] + 1];
    }
  }

  /** Paying positions keep the order in which they are listed: `at` tells where each one comes from. */
  lemma {:induction false} PayingKeepsOrder(owner: string, positions: seq<Position>) returns (at: seq<nat>)
    ensures Places(owner, positions, at) && TakenFrom(Paying(owner, positions), positions, at)
  {
    at := [];
    if positions != [] {
      var later := PayingKeepsOrder(owner, positions[1..]);
      PlacesShift(owner, positions, later);
      TakenShift(Paying(owner, positions[1..]), positions, later, IsPaid(owner, positions[0]));
      at := (if IsPaid(owner, positions[0]) then [0] else []) + Shifted(later);
    }
  }

  /** Paying positions are exactly the listed ones of others with something to pay, in their order. */
  lemma {:induction false} PayingIsExact(owner: string, positions: seq<Position>, p: Position)
    ensures p in Paying(owner, positions) <==>
      p in positions && Lower(p.legalEntityAddress) != Lower(owner) && p.balance > 0
    ensures multiset(Paying(owner, positions))[p]
         == if Lower(p.legalEntityAddress) != Lower(owner) && p.balance > 0 then multiset(positions)[p] else 0
  {
    if positions != [] {
      assert positions == [positions[0]] + positions[1..];
      PayingIsExact(owner, positions[1..], p);
    }
  }

  /** Planning can succeed exactly when the settlement account is given and every paying position has a participant. */
  lemma PlanExistsExactlyWhen(g: Generators, req: Request, paying: seq<Position>)
    ensures !(req.settlementModel.INDIRECT? && req.intermediateAccountIBAN.None?)
            && (exists plan :: Plans(g, req, paying, plan)) <==>
      && (req.settlementModel.INDIRECT? ==> req.intermediateAccountIBAN.Some?)
      && (req.settlementModel.DIRECT? && paying != [] ==> req.holdableTokenAddress.Some?)
      && forall k :: 0 <= k < |paying| ==>
           exists p :: p in req.participants && Lower(p.deliveryAccountNumber) == Lower(paying[k].legalEntityAddress)
  {
    if forall k :: 0 <= k < |paying| ==> PlanOne(g, req, k, paying[k]).Ok? {
      var plan := seq(|paying|, k requires 0 <= k < |paying| => PlanOne(g, req, k, paying[k]).value);
      assert Plans(g, req, paying, plan);
    } else {
      var k :| 0 <= k < |paying| && PlanOne(g, req, k, paying[k]).Rejected?;
      assert FindParticipant(req.participants, paying[k].legalEntityAddress).None?
          || CashMovements(g, req, k, FindParticipant(req.participants, paying[k].legalEntityAddress).value).Rejected?;
    }
    if paying != [] && PlanOne(g, req, 0, paying[0]).Ok? {
      assert CashMovements(g, req, 0, FindParticipant(req.participants, paying[0].legalEntityAddress).value).Ok?;
    }
  }
}
