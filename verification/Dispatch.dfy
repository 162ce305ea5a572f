/** Library lambdas stored as packed bytes under packed names, and the typed lookup a token performs. */
module Dispatch {
  import opened Wrappers

  newtype Byte = x: int | 0 <= x < 256

  type Bytes = seq<Byte>

  const INITIATE_SUBSCRIPTION := "callInitiateSubscription"
  const CONFIRM_PAYMENT_RECEIVED := "callConfirmPaymentReceived"
  const CONFIRM_PAYMENT_TRANSFERRED := "callConfirmPaymentTransferred"
  const AUTHORIZE_OPERATOR := "callAuthorizeOperator"
  const REVOKE_OPERATOR_AUTHORIZATION := "callRevokeOperatorAuthorization"

  datatype LibraryLambda =
    | InitiateSubscription
    | ConfirmPaymentReceived
    | ConfirmPaymentTransferred
    | AuthorizeOperator
    | RevokeOperatorAuthorization

  /** The types a lambda is unpacked at. Both operator lambdas share one. */
  datatype Signature = SubscriptionSignature | ReceivedSignature | TransferredSignature | OperatorSignature

  function SignatureOf(code: LibraryLambda): Signature {
    match code
    case InitiateSubscription => SubscriptionSignature
    case ConfirmPaymentReceived => ReceivedSignature
    case ConfirmPaymentTransferred => TransferredSignature
    case AuthorizeOperator => OperatorSignature
    case RevokeOperatorAuthorization => OperatorSignature
  }

  /** PACK on names, PACK on lambdas and UNPACK at a type. */
  datatype Codec = Codec(
    packName: string -> Bytes,
    packLambda: LibraryLambda -> Bytes,
    unpack: (Bytes, Signature) -> Option<LibraryLambda>)
  {
    /** Distinct names pack to distinct bytes, and unpacking at the right type inverts packing. */
    ghost predicate Faithful() {
      && (forall m, n :: packName(m) == packName(n) ==> m == n)
      && (forall code, signature :: unpack(packLambda(code), signature)
            == if signature == SignatureOf(code) then Some(code) else None)
    }
  }

  /** `loadLambda`: look the packed name up, unpack at the expected type and open the option. */
  function LoadLambda(codec: Codec, table: map<Bytes, Bytes>, name: string, signature: Signature)
    : (r: Result<LibraryLambda>)
  {
    var key := codec.packName(name);
    if key !in table then Rejected("missing key in map")
    else
      match codec.unpack(table[key], signature)
      case None => Rejected("open_some on none")
      case Some(code) => Ok(code)
  }

  /** Each of the five names resolves, at its own type, to the library lambda it stands for. */
  ghost predicate Resolves(codec: Codec, table: map<Bytes, Bytes>) {
    && LoadLambda(codec, table, INITIATE_SUBSCRIPTION, SubscriptionSignature) == Ok(InitiateSubscription)
    && LoadLambda(codec, table, CONFIRM_PAYMENT_RECEIVED, ReceivedSignature) == Ok(ConfirmPaymentReceived)
    && LoadLambda(codec, table, CONFIRM_PAYMENT_TRANSFERRED, TransferredSignature) == Ok(ConfirmPaymentTransferred)
    && LoadLambda(codec, table, AUTHORIZE_OPERATOR, OperatorSignature) == Ok(AuthorizeOperator)
    && LoadLambda(codec, table, REVOKE_OPERATOR_AUTHORIZATION, OperatorSignature) == Ok(RevokeOperatorAuthorization)
  }

  /** The five names are pairwise different, by their lengths. */
  lemma NamesAreDistinct()
    ensures |AUTHORIZE_OPERATOR| < |INITIATE_SUBSCRIPTION| < |CONFIRM_PAYMENT_RECEIVED|
          < |CONFIRM_PAYMENT_TRANSFERRED| < |REVOKE_OPERATOR_AUTHORIZATION|
  {
  }
}
