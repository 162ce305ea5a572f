/** The settlement oracle: one contract call per matching transaction, in order, until one fails. */
module SettlementOracle {
  import opened Wrappers
  import opened Redemption
  import Identifiers

  datatype Confirmation = PaymentReceived | PaymentTransferred

  /** A call sent to an instrument contract. The id is absent where the transaction id is not hexadecimal. */
  datatype ContractCall = ContractCall(kind: Confirmation, ledger: Ledger, instrument: string, txId: Option<nat>)

  /** How one step of the loop goes: no contract, a call that throws, or a call with a transaction hash. */
  datatype Answer = NoContract(error: string) | Refused(error: string) | Accepted(hash: string)

  function CallFor(kind: Confirmation, t: StrTransaction): ContractCall {
    ContractCall(kind, t.instrumentLedger, t.instrumentPublicAddress, Identifiers.UuidToBn(t.id))
  }

  function CallsFor(kind: Confirmation, found: seq<StrTransaction>): seq<ContractCall> {
    seq(|found|, i requires 0 <= i < |found| => CallFor(kind, found[i]))
  }

  /** Each call confirms, in the way asked for, the transaction found at its place. */
  ghost predicate IssuedFor(kind: Confirmation, found: seq<StrTransaction>, calls: seq<ContractCall>) {
    && |calls| <= |found|
    && forall i :: 0 <= i < |calls| ==>
         && calls[i].kind == kind && calls[i].ledger == found[i].instrumentLedger
         && calls[i].instrument == found[i].instrumentPublicAddress
         && calls[i].txId == Identifiers.UuidToBn(found[i].id)
  }

  lemma CallsAreIssuedFor(kind: Confirmation, found: seq<StrTransaction>, n: nat)
    requires n <= |found|
    ensures IssuedFor(kind, found, CallsFor(kind, found)[..n])
  {
  }

  /** The position of the first step that does not answer with a hash. */
  ghost predicate FirstFailure(answers: nat -> Answer, n: nat, length: nat) {
    && n <= length
    && (forall i :: 0 <= i < n ==> answers(i).Accepted?)
    && (n < length ==> !answers(n).Accepted?)
  }

  class FsoService {
    /** The calls sent to contracts so far, over all requests. */
    var issued: seq<ContractCall>

    constructor ()
      ensures issued == []
    {
      issued := [];
    }

    /**
     `found` is what the repository answered, absent when it answered nothing or threw. The
     calls issued are those for a prefix of the transactions, in order, and the prefix is
     everything exactly when every call is accepted.
     */
    method Confirm(kind: Confirmation, found: Option<seq<StrTransaction>>, answers: nat -> Answer)
      returns (r: Result<seq<string>>, ghost n: nat)
      modifies this
      ensures found.None? || found.value == [] ==> r.Rejected? && issued == old(issued)
      ensures found.Some? && found.value != [] ==>
        && FirstFailure(answers, n, |found.value|)
        && (r.Ok? <==> n == |found.value|)
        && (r.Ok? ==> |r.value| == n && forall i :: 0 <= i < n ==> answers(i) == Accepted(r.value[i]))
        && (n < |found.value| ==> r == Rejected(answers(n).error))
        && issued == old(issued) + CallsFor(kind, found.value)[..n + if n < |found.value| && answers(n).Refused? then 1 else 0]
        && IssuedFor(kind, found.value, issued[|old(issued)|..])
    {
      n := 0;
      if found.None? || found.value == [] {
        return Rejected("No settlement transaction found for paymentReference"), n;
      }
      var transactions := found.value;
      var hashes: seq<string> := [];
      ghost var calls := CallsFor(kind, transactions);
      for index := 0 to |transactions|
        invariant n == index == |hashes|
        invariant forall i :: 0 <= i < index ==> answers(i) == Accepted(hashes[i])
        invariant issued == old(issued) + calls[..index]
      {
        assert calls[..index + 1] == calls[..index] + [calls[index]];
        match answers(index)
        case NoContract(error) =>
          CallsAreIssuedFor(kind, transactions, index);
          return Rejected(error), n;
        case Refused(error) =>
          issued := issued + [CallFor(kind, transactions[index])];
          CallsAreIssuedFor(kind, transactions, index + 1);
          return Rejected(error), n;
        case Accepted(hash) =>
          issued := issued + [CallFor(kind, transactions[index])];
          hashes := hashes + [hash];
          n := n + 1;
      }
      CallsAreIssuedFor(kind, transactions, |transactions|);
      return Ok(hashes), n;
    }
  }
}
