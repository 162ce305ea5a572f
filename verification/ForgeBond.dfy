/**
 The token contract: its storage, one call as a function of storage and caller, and the
 contract itself as a class whose entry points are proved against that function.
 */
module ForgeBonds {
  import opened Wrappers
  import opened Ledger
  import opened Dispatch

  datatype Storage = Storage(
    repository: Repository,
    balances: Balances,
    authorizations: Authorizations,
    entrypoints: map<Bytes, Bytes>,
    owner: Address,
    initialSupply: nat,
    currentSupply: nat,
    isinCode: string,
    name: string,
    symbol: string,
    currency: string,
    eventSink: Address)

  /**
   What one successful call sends to the event sink. The Transfer and PaymentReceived
   notifications of one confirmation form a single batch: their relative order is left open.
   */
  datatype Batch =
    | SubscriptionInitiated(settlementId: nat)
    | TransferAndPaymentReceived(sender: Address, receiver: Address, value: nat, settlementId: nat, operationType: nat)
    | PaymentTransferred(settlementId: nat, operationType: nat)
    | NewOperator(author: Address, operator: Address, role: nat)
    | RevokeOperator(author: Address, operator: Address, role: nat)

  datatype EntryPoint =
    | InitiateSubscriptionCall(params: StatelessTransaction)
    | ConfirmPaymentReceivedCall(txId: nat)
    | ConfirmPaymentTransferredCall(txId: nat)
    | RunCall(entrypointName: string, operator: Address, operatorRole: nat)

  /** `sinkResolves` tells whether the event sink offers the entry points this call notifies. */
  datatype Call = Call(sender: Address, sinkResolves: bool, entryPoint: EntryPoint)

  const BAD_SINK := "Bad event sink contract address"
  const WRONG_CODE := "lambda of another type"

  type Outcome = Result<(Storage, seq<Batch>)>

  function Notify(sinkResolves: bool, s: Storage, batch: Batch): Outcome {
    if sinkResolves then Ok((s, [batch])) else Rejected(BAD_SINK)
  }

  // A token runs the code it unpacked, so what its table holds decides what a call does. Unpacking
  // at a type leaves no other code to run; a codec that would hand one out fails the call.

  function RunSubscriptionCode(code: LibraryLambda, sender: Address, st: StatelessTransaction, s: Storage)
    : Result<(Repository, Balances)>
  {
    if code.InitiateSubscription? then InitiateOutcome(sender, st, s.repository, s.authorizations, s.balances)
    else Rejected(WRONG_CODE)
  }

  function RunReceivedCode(code: LibraryLambda, sender: Address, txId: nat, s: Storage): Result<(Repository, Balances)> {
    if code.ConfirmPaymentReceived? then
      ReceivedOutcome(txId, sender, s.owner, s.authorizations, s.repository, s.balances)
    else Rejected(WRONG_CODE)
  }

  function RunTransferredCode(code: LibraryLambda, sender: Address, txId: nat, s: Storage): Result<Repository> {
    if code.ConfirmPaymentTransferred? then TransferredOutcome(txId, sender, s.authorizations, s.repository)
    else Rejected(WRONG_CODE)
  }

  function RunOperatorCode(code: LibraryLambda, sender: Address, authorizations: Authorizations,
                           operator: Address, role: nat): Result<Authorizations>
  {
    match code
    case AuthorizeOperator => AuthorizeOutcome(sender, authorizations, operator, role)
    case RevokeOperatorAuthorization => RevokeOutcome(sender, authorizations, operator, role)
    case _ => Rejected(WRONG_CODE)
  }

  function InitiateStep(codec: Codec, s: Storage, c: Call, params: StatelessTransaction): Outcome {
    match LoadLambda(codec, s.entrypoints, INITIATE_SUBSCRIPTION, SubscriptionSignature)
    case Rejected(reason) => Rejected(reason)
    case Ok(code) =>
      if params.txId in s.repository.byId then Rejected("settlementTransactionId already used")
      else if s.owner != params.deliverySender then Rejected("deliverySenderAccountNumber must match token owner")
      else
        match RunSubscriptionCode(code, c.sender, params, s)
        case Rejected(reason) => Rejected(reason)
        case Ok((repository, balances)) =>
          Notify(c.sinkResolves, s.(repository := repository, balances := balances),
                 SubscriptionInitiated(params.txId))
  }

  function ReceivedStep(codec: Codec, s: Storage, c: Call, txId: nat): Outcome {
    if txId !in s.repository.byId then Rejected(MISSING_KEY)
    else if s.repository.byId[txId].status != TOKEN_LOCKED then Rejected("subscription ticket not locked")
    else
      match LoadLambda(codec, s.entrypoints, CONFIRM_PAYMENT_RECEIVED, ReceivedSignature)
      case Rejected(reason) => Rejected(reason)
      case Ok(code) =>
        match RunReceivedCode(code, c.sender, txId, s)
        case Rejected(reason) => Rejected(reason)
        case Ok((repository, balances)) =>
          var st := s.repository.byId[txId].details;
          Notify(c.sinkResolves, s.(repository := repository, balances := balances),
                 TransferAndPaymentReceived(st.deliverySender, st.deliveryReceiver, st.deliveryQuantity,
                                            txId, SUBSCRIPTION))
  }

  function TransferredStep(codec: Codec, s: Storage, c: Call, txId: nat): Outcome {
    match LoadLambda(codec, s.entrypoints, CONFIRM_PAYMENT_TRANSFERRED, TransferredSignature)
    case Rejected(reason) => Rejected(reason)
    case Ok(code) =>
      match RunTransferredCode(code, c.sender, txId, s)
      case Rejected(reason) => Rejected(reason)
      case Ok(repository) =>
        Notify(c.sinkResolves, s.(repository := repository), PaymentTransferred(txId, SUBSCRIPTION))
  }

  function RunStep(codec: Codec, s: Storage, c: Call, name: string, operator: Address, role: nat): Outcome {
    match LoadLambda(codec, s.entrypoints, name, OperatorSignature)
    case Rejected(reason) => Rejected(reason)
    case Ok(code) =>
      match RunOperatorCode(code, c.sender, s.authorizations, operator, role)
      case Rejected(reason) => Rejected(reason)
      case Ok(authorizations) =>
        var s' := s.(authorizations := authorizations);
        if name == AUTHORIZE_OPERATOR then Notify(c.sinkResolves, s', NewOperator(c.sender, operator, role))
        else if name == REVOKE_OPERATOR_AUTHORIZATION then
          Notify(c.sinkResolves, s', RevokeOperator(c.sender, operator, role))
        else Ok((s', []))
  }

  function Step(codec: Codec, s: Storage, c: Call): Outcome {
    match c.entryPoint
    case InitiateSubscriptionCall(params) => InitiateStep(codec, s, c, params)
    case ConfirmPaymentReceivedCall(txId) => ReceivedStep(codec, s, c, txId)
    case ConfirmPaymentTransferredCall(txId) => TransferredStep(codec, s, c, txId)
    case RunCall(name, operator, role) => RunStep(codec, s, c, name, operator, role)
  }

  /** What the caller of a call sees of its outcome. */
  function Answer(outcome: Outcome): Result<()> {
    match outcome
    case Ok(_) => Ok(())
    case Rejected(reason) => Rejected(reason)
  }

  /** A token together with everything it has sent to the event sink so far. */
  datatype Token = Token(storage: Storage, log: seq<Batch>)

  /** A rejected call leaves the token as it was. */
  function Apply(codec: Codec, t: Token, c: Call): Token {
    match Step(codec, t.storage, c)
    case Rejected(_) => t
    case Ok((s, batches)) => Token(s, t.log + batches)
  }

  /** The originated contract. A failed check aborts the whole call, so fields are written once all checks passed. */
  class ForgeBond {
    const codec: Codec
    const owner: Address
    const initialSupply: nat
    const currentSupply: nat
    const isinCode: string
    const name: string
    const symbol: string
    const currency: string
    const eventSink: Address
    var repository: Repository
    var balances: Balances
    var authorizations: Authorizations
    var entrypoints: map<Bytes, Bytes>
    var emitted: seq<Batch>

    constructor (codec: Codec, s: Storage)
      ensures this.codec == codec && Contents() == Token(s, [])
    {
      this.codec := codec;
      owner, initialSupply, currentSupply := s.owner, s.initialSupply, s.currentSupply;
      isinCode, name, symbol, currency, eventSink := s.isinCode, s.name, s.symbol, s.currency, s.eventSink;
      repository, balances, authorizations := s.repository, s.balances, s.authorizations;
      entrypoints := s.entrypoints;
      emitted := [];
    }

    ghost function Contents(): Token
      reads this
    {
      Token(Storage(repository, balances, authorizations, entrypoints, owner, initialSupply, currentSupply,
                    isinCode, name, symbol, currency, eventSink), emitted)
    }

    method InitiateSubscription(sender: Address, sinkResolves: bool, params: StatelessTransaction)
      returns (r: Result<()>)
      modifies this`repository, this`balances, this`emitted
      ensures var call := Call(sender, sinkResolves, InitiateSubscriptionCall(params));
              && Answer(Step(codec, old(Contents()).storage, call)) == r
              && Contents() == Apply(codec, old(Contents()), call)
    {
      var code := LoadLambda(codec, entrypoints, INITIATE_SUBSCRIPTION, SubscriptionSignature);
      if code.Rejected? {
        return Rejected(code.reason);
      }
      if params.txId in repository.byId {
        return Rejected("settlementTransactionId already used");
      }
      if owner != params.deliverySender {
        return Rejected("deliverySenderAccountNumber must match token owner");
      }
      if !code.value.InitiateSubscription? {
        return Rejected(WRONG_CODE);
      }
      var result := Ledger.InitiateSubscription(sender, params, repository, authorizations, balances);
      if result.Rejected? {
        return Rejected(result.reason);
      }
      if !sinkResolves {
        return Rejected(BAD_SINK);
      }
      repository := result.value.0;
      balances := result.value.1;
      emitted := emitted + [SubscriptionInitiated(params.txId)];
      return Ok(());
    }

    method ConfirmPaymentReceived(sender: Address, sinkResolves: bool, txId: nat) returns (r: Result<()>)
      modifies this`repository, this`balances, this`emitted
      ensures var call := Call(sender, sinkResolves, ConfirmPaymentReceivedCall(txId));
              && Answer(Step(codec, old(Contents()).storage, call)) == r
              && Contents() == Apply(codec, old(Contents()), call)
    {
      if txId !in repository.byId {
        return Rejected(MISSING_KEY);
      }
      if repository.byId[txId].status != TOKEN_LOCKED {
        return Rejected("subscription ticket not locked");
      }
      var code := LoadLambda(codec, entrypoints, CONFIRM_PAYMENT_RECEIVED, ReceivedSignature);
      if code.Rejected? {
        return Rejected(code.reason);
      }
      if !code.value.ConfirmPaymentReceived? {
        return Rejected(WRONG_CODE);
      }
      var result := Ledger.ConfirmPaymentReceived(txId, sender, owner, authorizations, repository, balances);
      if result.Rejected? {
        return Rejected(result.reason);
      }
      if !sinkResolves {
        return Rejected(BAD_SINK);
      }
      repository := result.value.0;
      balances := result.value.1;
      var st := repository.byId[txId].details;
      emitted := emitted + [TransferAndPaymentReceived(st.deliverySender, st.deliveryReceiver, st.deliveryQuantity,
                                                       txId, SUBSCRIPTION)];
      return Ok(());
    }

    method ConfirmPaymentTransferred(sender: Address, sinkResolves: bool, txId: nat) returns (r: Result<()>)
      modifies this`repository, this`emitted
      ensures var call := Call(sender, sinkResolves, ConfirmPaymentTransferredCall(txId));
              && Answer(Step(codec, old(Contents()).storage, call)) == r
              && Contents() == Apply(codec, old(Contents()), call)
    {
      var code := LoadLambda(codec, entrypoints, CONFIRM_PAYMENT_TRANSFERRED, TransferredSignature);
      if code.Rejected? {
        return Rejected(code.reason);
      }
      if !code.value.ConfirmPaymentTransferred? {
        return Rejected(WRONG_CODE);
      }
      var result := Ledger.ConfirmPaymentTransferred(txId, sender, authorizations, repository);
      if result.Rejected? {
        return Rejected(result.reason);
      }
      if !sinkResolves {
        return Rejected(BAD_SINK);
      }
      repository := result.value;
      emitted := emitted + [PaymentTransferred(txId, SUBSCRIPTION)];
      return Ok(());
    }

    method Run(sender: Address, sinkResolves: bool, entrypointName: string, operator: Address, operatorRole: nat)
      returns (r: Result<()>)
      modifies this`authorizations, this`emitted
      ensures var call := Call(sender, sinkResolves, RunCall(entrypointName, operator, operatorRole));
              && Answer(Step(codec, old(Contents()).storage, call)) == r
              && Contents() == Apply(codec, old(Contents()), call)
    {
      var code := LoadLambda(codec, entrypoints, entrypointName, OperatorSignature);
      if code.Rejected? {
        return Rejected(code.reason);
      }
      var result := RunOperatorCode(code.value, sender, authorizations, operator, operatorRole);
      if result.Rejected? {
        return Rejected(result.reason);
      }
      var notified := entrypointName == AUTHORIZE_OPERATOR || entrypointName == REVOKE_OPERATOR_AUTHORIZATION;
      if notified && !sinkResolves {
        return Rejected(BAD_SINK);
      }
      authorizations := result.value;
      if entrypointName == AUTHORIZE_OPERATOR {
        emitted := emitted + [NewOperator(sender, operator, operatorRole)];
      } else if entrypointName == REVOKE_OPERATOR_AUTHORIZATION {
        emitted := emitted + [RevokeOperator(sender, operator, operatorRole)];
      }
      return Ok(());
    }
  }
}
