/**
 The settlement transaction repository: transactions, movements and the join between them,
 indexed by payment reference.
 */
module SettlementRepository {
  import opened Wrappers
  import opened Redemption

  /** The three tables, transactions in the order they were saved. */
  datatype Tables = Tables(
    transactions: seq<StrTransaction>,
    movements: map<string, Movement>,
    links: set<(string, string)>)

  ghost predicate HasTransaction(t: Tables, id: string) {
    exists i :: 0 <= i < |t.transactions| && t.transactions[i].id == id
  }

  /** Movements are saved by cascade: a movement already stored under the same id is overwritten. */
  function SaveMovements(stored: map<string, Movement>, movements: seq<Movement>): map<string, Movement> {
    if movements == [] then stored
    else SaveMovements(stored, movements[..|movements| - 1])[movements[|movements| - 1].id := movements[|movements| - 1]]
  }

  function LinksOf(input: CreateInput): set<(string, string)> {
    set m | m in input.movements :: (input.row.id, m.id)
  }

  function Save(t: Tables, input: CreateInput): Tables {
    Tables(t.transactions + [input.row], SaveMovements(t.movements, input.movements), t.links + LinksOf(input))
  }

  ghost predicate CarriesReference(t: Tables, transactionId: string, reference: string) {
    exists m :: (transactionId, m) in t.links && m in t.movements && t.movements[m].paymentReference == Some(reference)
  }

  /** The user asking. `isOperator` is what each instrument contract says: settler, registrar or owner, or no answer. */
  datatype User = User(chain: Ledger, address: string, isOperator: string -> bool)

  /** The censor, on the user's own chain: parties, operators of the instrument and additional readers. */
  predicate MayRead(user: User, row: StrTransaction) {
    var self := Lower(user.address);
    || self == Lower(row.deliveryReceiverAccountNumber) || self == Lower(row.deliverySenderAccountNumber)
    || user.isOperator(row.instrumentPublicAddress)
    || exists reader :: reader in row.additionalReaderAddresses && self == Lower(reader)
  }

  /** The rows joined to a movement with this reference, on the user's chain, after the censor: each row once. */
  ghost function Matching(t: Tables, rows: seq<StrTransaction>, user: User, reference: string): seq<StrTransaction> {
    if rows == [] then []
    else
      Matching(t, rows[..|rows| - 1], user, reference)
      + var row := rows[|rows| - 1];
        if CarriesReference(t, row.id, reference) && row.instrumentLedger == user.chain && MayRead(user, row)
        then [row] else []
  }

  ghost function ByPaymentReference(t: Tables, user: User, reference: string): seq<StrTransaction> {
    Matching(t, t.transactions, user, reference)
  }

  lemma {:induction false} MatchingIsExact(t: Tables, rows: seq<StrTransaction>, user: User, reference: string)
    returns (at: seq<nat>)
    ensures var found := Matching(t, rows, user, reference);
      && |at| == |found|
      && (forall k :: 0 <= k < |at| ==> at[k] < |rows| && found[k] == rows[at[k]])
      && (forall j, k :: 0 <= j < k < |at| ==> at[j] < at[k])
      && (forall i :: 0 <= i < |rows| ==>
            (i in at <==> CarriesReference(t, rows[i].id, reference) && rows[i].instrumentLedger == user.chain
                          && MayRead(user, rows[i])))
  {
    if rows == [] {
      at := [];
    } else {
      var last := |rows| - 1;
      at := MatchingIsExact(t, rows[..last], user, reference);
      if CarriesReference(t, rows[last].id, reference) && rows[last].instrumentLedger == user.chain
         && MayRead(user, rows[last]) {
        at := at + [last];
      }
    }
  }

  /**
   The lookup answers exactly the stored rows that carry the reference, are on the user's chain,
   and have the user as a party, an operator or an additional reader: each row where it is
   stored, none twice, in stored order. `at` tells where each answer is stored.
   */
  lemma LookupIsExact(t: Tables, user: User, reference: string) returns (at: seq<nat>)
    ensures var found := ByPaymentReference(t, user, reference);
      && |at| == |found|
      && (forall k :: 0 <= k < |at| ==> at[k] < |t.transactions| && found[k] == t.transactions[at[k]])
      && (forall j, k :: 0 <= j < k < |at| ==> at[j] < at[k])
      && forall i :: 0 <= i < |t.transactions| ==>
           var row := t.transactions[i];
           (i in at <==>
              && (exists m :: (row.id, m) in t.links && m in t.movements
                              && t.movements[m].paymentReference == Some(reference))
              && row.instrumentLedger == user.chain
              && (|| Lower(user.address) in {Lower(row.deliveryReceiverAccountNumber), Lower(row.deliverySenderAccountNumber)}
                  || user.isOperator(row.instrumentPublicAddress)
                  || exists r :: r in row.additionalReaderAddresses && Lower(r) == Lower(user.address)))
  {
    at := MatchingIsExact(t, t.transactions, user, reference);
  }

  /** Saving keeps every other movement and stores each movement of the input as it is, under its id. */
  lemma {:induction false} MovementsAreStored(stored: map<string, Movement>, movements: seq<Movement>)
    requires forall i, j :: 0 <= i < j < |movements| ==> movements[i].id != movements[j].id
    ensures var after := SaveMovements(stored, movements);
      && (forall m :: m in movements ==> m.id in after && after[m.id] == m)
      && (forall id :: id in after <==> id in stored || exists m :: m in movements && m.id == id)
      && (forall id :: id in stored && (forall m :: m in movements ==> m.id != id) ==> id in after && after[id] == stored[id])
  {
    if movements != [] {
      var (front, last) := (movements[..|movements| - 1], movements[|movements| - 1]);
      MovementsAreStored(stored, front);
      assert movements == front + [last];
    }
  }

  /** Which ledgers `getLedgerForPaymentReference` may answer: that of a transaction of some movement with the reference. */
  ghost predicate AnswersLedger(t: Tables, reference: string, ledger: Ledger) {
    exists m, i :: m in t.movements && t.movements[m].paymentReference == Some(reference)
      && 0 <= i < |t.transactions| && (t.transactions[i].id, m) in t.links
      && t.transactions[i].instrumentLedger == ledger
  }

  function SaveAll(t: Tables, inputs: seq<CreateInput>): Tables {
    if inputs == [] then t else Save(SaveAll(t, inputs[..|inputs| - 1]), inputs[|inputs| - 1])
  }

  lemma SaveAllNext(t: Tables, inputs: seq<CreateInput>, n: nat)
    requires n < |inputs|
    ensures SaveAll(t, inputs[..n + 1]) == Save(SaveAll(t, inputs[..n]), inputs[n])
  {
    assert inputs[..n + 1][..n] == inputs[..n];
  }

  /** With the inputs before it saved, the i-th is created: its instrument names the user registrar, and its id is unused. */
  ghost predicate IsAccepted(t: Tables, inputs: seq<CreateInput>, isRegistrar: nat -> bool, i: nat)
    requires i < |inputs|
  {
    isRegistrar(i) && !HasTransaction(SaveAll(t, inputs[..i]), inputs[i].row.id)
  }

  class SettlementTransactionService {
    var transactions: seq<StrTransaction>
    var movements: map<string, Movement>
    var links: set<(string, string)>

    constructor ()
      ensures Contents() == Tables([], map[], {})
    {
      transactions, movements, links := [], map[], {};
    }

    ghost function Contents(): Tables
      reads this
    {
      Tables(transactions, movements, links)
    }

    /** `isRegistrar` is what the instrument contract says about the user. */
    method Create(input: CreateInput, isRegistrar: bool) returns (r: Result<StrTransaction>)
      modifies this
      ensures r.Ok? <==> isRegistrar && !HasTransaction(old(Contents()), input.row.id)
      ensures r.Ok? ==> r.value == input.row && Contents() == Save(old(Contents()), input)
      ensures r.Rejected? ==> Contents() == old(Contents())
    {
      if !isRegistrar {
        return Rejected("Only registrar agent of the instrument can create transactions");
      }
      for i := 0 to |transactions|
        invariant forall k :: 0 <= k < i ==> transactions[k].id != input.row.id
        invariant unchanged(this)
      {
        if transactions[i].id == input.row.id {
          return Rejected("Settlement transaction already exists");
        }
      }
      transactions := transactions + [input.row];
      for i := 0 to |input.movements|
        modifies this`movements, this`links
        invariant movements == SaveMovements(old(movements), input.movements[..i])
        invariant links == old(links) + set m | m in input.movements[..i] :: (input.row.id, m.id)
      {
        var m := input.movements[i];
        assert input.movements[..i + 1] == input.movements[..i] + [m];
        movements := movements[m.id := m];
        links := links + {(input.row.id, m.id)};
      }
      assert input.movements[..|input.movements|] == input.movements;
      return Ok(input.row);
    }

    /**
     `createSettlementTransactions`: one after the other, each after asking the instrument of
     its own input; the first failure leaves the earlier ones saved.
     */
    method CreateAll(inputs: seq<CreateInput>, isRegistrar: nat -> bool) returns (r: Result<()>, saved: nat)
      modifies this
      ensures saved <= |inputs| && Contents() == SaveAll(old(Contents()), inputs[..saved])
      ensures forall i :: 0 <= i < saved ==> IsAccepted(old(Contents()), inputs, isRegistrar, i)
      ensures r.Ok? <==> saved == |inputs|
      ensures r.Rejected? ==> saved < |inputs| && !IsAccepted(old(Contents()), inputs, isRegistrar, saved)
    {
      saved := 0;
      while saved < |inputs|
        invariant saved <= |inputs|
        invariant Contents() == SaveAll(old(Contents()), inputs[..saved])
        invariant forall i :: 0 <= i < saved ==> IsAccepted(old(Contents()), inputs, isRegistrar, i)
      {
        var created := Create(inputs[saved], isRegistrar(saved));
        if created.Rejected? {
          return Rejected(created.reason), saved;
        }
        SaveAllNext(old(Contents()), inputs, saved);
        saved := saved + 1;
      }
      return Ok(()), saved;
    }

    /**
     `getLedgerForPaymentReference`: the ledger of a transaction linked to some movement with the
     reference. Nothing is answered when there is no such movement, and the original raises when
     the one it finds is linked to no transaction.
     */
    method GetLedgerForPaymentReference(reference: string) returns (r: Result<Option<Ledger>>)
      ensures r == Ok(None) <==> forall m :: m in movements ==> movements[m].paymentReference != Some(reference)
      ensures r.Ok? && r.value.Some? ==> AnswersLedger(Contents(), reference, r.value.value)
      ensures r.Rejected? ==>
        exists m :: (m in movements && movements[m].paymentReference == Some(reference)
                     && forall i :: 0 <= i < |transactions| ==> (transactions[i].id, m) !in links)
    {
      var matches := set m | m in movements && movements[m].paymentReference == Some(reference);
      if matches == {} {
        assert forall m :: m in movements ==> m !in matches;
        return Ok(None);
      }
      var movement :| movement in matches;
      for i := 0 to |transactions|
        invariant forall k :: 0 <= k < i ==> (transactions[k].id, movement) !in links
      {
        if (transactions[i].id, movement) in links {
          return Ok(Some(transactions[i].instrumentLedger));
        }
      }
      return Rejected("Cannot read properties of undefined");
    }

    /** The join by payment reference, then the censor. */
    method GetByPaymentReference(user: User, reference: string) returns (found: seq<StrTransaction>)
      ensures found == ByPaymentReference(Contents(), user, reference)
    {
      found := [];
      for i := 0 to |transactions|
        invariant found == Matching(Contents(), transactions[..i], user, reference)
      {
        var row := transactions[i];
        var carries := exists link :: (link in links && link.0 == row.id && link.1 in movements
                                       && movements[link.1].paymentReference == Some(reference));
        assert carries <==> CarriesReference(Contents(), row.id, reference) by {
          if CarriesReference(Contents(), row.id, reference) {
            var m :| (row.id, m) in links && m in movements && movements[m].paymentReference == Some(reference);
            assert (row.id, m) in links && (row.id, m).0 == row.id;
          }
        }
        assert transactions[..i + 1][..i] == transactions[..i];
        if carries && row.instrumentLedger == user.chain && MayRead(user, row) {
          found := found + [row];
        }
      }
      assert transactions[..|transactions|] == transactions;
    }
  }
}
