/**
 What a payment reference of a stored redemption reaches: the issuer's payment to the settler
 reaches every planned transaction, each onward payment reaches its own.
 */
module PaymentReach {
  import opened Wrappers
  import opened Redemption
  import opened SettlementRepository
  import SettlementOracle
  import Identifiers

  /** How many ids an indirect plan of `length` transactions generates. */
  function Ids(length: nat): nat { 3 * length + 1 }

  /** Two generated ids differ, as must those of two steps of one plan. */
  ghost predicate Differ(g: Generators, i: nat, j: nat) { g.uuid(i) != g.uuid(j) }

  /** No row, movement or link of the repository uses this id. */
  ghost predicate IsNew(t: Tables, id: string) {
    && id !in t.movements && !HasTransaction(t, id)
    && forall link :: link in t.links ==> link.0 != id && link.1 != id
  }

  ghost predicate FreshId(g: Generators, t: Tables, i: nat) { IsNew(t, g.uuid(i)) }

  /** The first `n` generated ids are pairwise distinct and new to the repository. */
  ghost predicate FreshIds(g: Generators, t: Tables, n: nat) {
    && (forall i: nat, j: nat :: i < n && j < n && i != j ==> Differ(g, i, j))
    && (forall i: nat :: i < n ==> FreshId(g, t, i))
  }

  function Reference(g: Generators, req: Request, i: nat): string {
    g.reference(req.operationId, g.uuid(i))
  }

  ghost predicate ReferencesDiffer(g: Generators, req: Request, i: nat, j: nat) {
    Reference(g, req, i) != Reference(g, req, j)
  }

  ghost predicate FreshReference(g: Generators, req: Request, t: Tables, i: nat) {
    forall m :: m in t.movements ==> t.movements[m].paymentReference != Some(Reference(g, req, i))
  }

  /** The references of the first `n` generated ids differ, from each other and from all stored ones. */
  ghost predicate DistinctReferences(g: Generators, req: Request, t: Tables, n: nat) {
    && (forall i: nat, j: nat :: i < n && j < n && i != j ==> ReferencesDiffer(g, req, i, j))
    && (forall i: nat :: i < n ==> FreshReference(g, req, t, i))
  }

  ghost predicate CanonicalIds(g: Generators, n: nat) {
    forall i: nat :: i < n ==> Identifiers.Canonical(g.uuid(i))
  }

  lemma IdsDiffer(g: Generators, t: Tables, n: nat, i: nat, j: nat)
    requires FreshIds(g, t, n) && i < n && j < n
    ensures g.uuid(i) == g.uuid(j) <==> i == j
  {
    assert i == j || Differ(g, i, j);
  }

  lemma ReferencesAreDistinct(g: Generators, req: Request, t: Tables, n: nat, i: nat, j: nat)
    requires DistinctReferences(g, req, t, n) && i < n && j < n
    ensures Reference(g, req, i) == Reference(g, req, j) <==> i == j
  {
    assert i == j || ReferencesDiffer(g, req, i, j);
  }

  lemma FewerIds(g: Generators, t: Tables, m: nat, n: nat)
    requires m <= n && FreshIds(g, t, n)
    ensures FreshIds(g, t, m)
  {
  }

  /** The ids and references of an indirect plan, read off its transactions. */
  ghost predicate Indirect(g: Generators, req: Request, plan: seq<CreateInput>) {
    forall k :: 0 <= k < |plan| ==> IndirectOne(g, req, k, plan[k])
  }

  ghost predicate IndirectOne(g: Generators, req: Request, k: nat, input: CreateInput) {
    && input.row.id == g.uuid(3 * k + 3) && input.row.instrumentLedger == req.instrumentLedger
    && |input.movements| == 3
    && input.movements[0].id == g.uuid(0) && input.movements[0].paymentReference == Some(Reference(g, req, 0))
    && input.movements[1].id == g.uuid(3 * k + 1)
    && input.movements[1].paymentReference == Some(Reference(g, req, 3 * k + 1))
    && input.movements[2].id == g.uuid(3 * k + 2) && input.movements[2].paymentReference == None
  }

  lemma PlansAreIndirect(g: Generators, req: Request, paying: seq<Position>, plan: seq<CreateInput>)
    requires Plans(g, req, paying, plan) && req.settlementModel.INDIRECT?
    ensures Indirect(g, req, plan)
  {
    forall k | 0 <= k < |plan| ensures IndirectOne(g, req, k, plan[k]) {
      assert PlanOne(g, req, k, paying[k]) == Ok(plan[k]);
    }
  }

  function Rows(plan: seq<CreateInput>): seq<StrTransaction> {
    seq(|plan|, k requires 0 <= k < |plan| => plan[k].row)
  }

  /** Which generated ids a transaction of the plan is linked to. */
  predicate Uses(k: nat, i: nat) {
    i == 0 || i == 3 * k + 1 || i == 3 * k + 2
  }

  /** The link from the k-th planned transaction to the i-th generated id. */
  function PlanLink(g: Generators, k: nat, i: nat): (string, string) {
    (g.uuid(3 * k + 3), g.uuid(i))
  }

  ghost predicate IsPlanLink(g: Generators, n: nat, link: (string, string)) {
    exists k: nat, i: nat :: k < n && Uses(k, i) && link == PlanLink(g, k, i)
  }

  ghost predicate LinksStored(g: Generators, t: Tables, n: nat, d: Tables) {
    forall link :: link in d.links <==> (link in t.links || IsPlanLink(g, n, link))
  }

  ghost predicate ReferencesStored(g: Generators, req: Request, t: Tables, n: nat, d: Tables) {
    && (forall m :: m in t.movements ==> m in d.movements && d.movements[m] == t.movements[m])
    && (n > 0 ==> ReferenceAt(g, d, 0) == Some(Reference(g, req, 0)))
    && (forall k: nat :: k < n ==>
          && ReferenceAt(g, d, 3 * k + 1) == Some(Reference(g, req, 3 * k + 1))
          && ReferenceAt(g, d, 3 * k + 2) == None)
  }

  /** The tables after the plan was saved on top of `t`. */
  ghost predicate Stored(g: Generators, req: Request, t: Tables, plan: seq<CreateInput>, d: Tables) {
    && d.transactions == t.transactions + Rows(plan)
    && LinksStored(g, t, |plan|, d)
    && ReferencesStored(g, req, t, |plan|, d)
  }

  ghost function ReferenceAt(g: Generators, d: Tables, i: nat): Option<string> {
    if g.uuid(i) in d.movements then d.movements[g.uuid(i)].paymentReference else None
  }

  lemma SaveThree(stored: map<string, Movement>, ms: seq<Movement>)
    requires |ms| == 3
    ensures SaveMovements(stored, ms) == stored[ms[0].id := ms[0]][ms[1].id := ms[1]][ms[2].id := ms[2]]
  {
    assert ms[..2][..1] == ms[..1] && ms[..1][..0] == [];
    assert SaveMovements(stored, ms[..1]) == stored[ms[0].id := ms[0]];
    assert SaveMovements(stored, ms[..2]) == stored[ms[0].id := ms[0]][ms[1].id := ms[1]];
  }

  lemma StoreReferences(g: Generators, req: Request, t: Tables, n: nat, d: Tables, next: CreateInput)
    requires FreshIds(g, t, Ids(n + 1)) && ReferencesStored(g, req, t, n, d) && IndirectOne(g, req, n, next)
    ensures ReferencesStored(g, req, t, n + 1, Save(d, next))
  {
    var d' := Save(d, next);
    SaveThree(d.movements, next.movements);
    assert FreshId(g, t, 0) && FreshId(g, t, 3 * n + 1) && FreshId(g, t, 3 * n + 2);
    assert Differ(g, 0, 3 * n + 1) && Differ(g, 0, 3 * n + 2) && Differ(g, 3 * n + 1, 3 * n + 2);
    forall k: nat | k < n
      ensures ReferenceAt(g, d', 3 * k + 1) == ReferenceAt(g, d, 3 * k + 1)
      ensures ReferenceAt(g, d', 3 * k + 2) == ReferenceAt(g, d, 3 * k + 2)
    {
      assert Differ(g, 3 * k + 1, 0) && Differ(g, 3 * k + 1, 3 * n + 1) && Differ(g, 3 * k + 1, 3 * n + 2);
      assert Differ(g, 3 * k + 2, 0) && Differ(g, 3 * k + 2, 3 * n + 1) && Differ(g, 3 * k + 2, 3 * n + 2);
    }
  }

  lemma StoreLinks(g: Generators, req: Request, t: Tables, n: nat, d: Tables, next: CreateInput)
    requires LinksStored(g, t, n, d) && IndirectOne(g, req, n, next)
    ensures LinksStored(g, t, n + 1, Save(d, next))
  {
    forall link ensures link in LinksOf(next) <==> exists i: nat :: Uses(n, i) && link == PlanLink(g, n, i) {
      NewLinks(g, req, n, next, link);
    }
    forall link ensures IsPlanLink(g, n + 1, link) <==> (IsPlanLink(g, n, link) || link in LinksOf(next)) {
      if link in LinksOf(next) {
        var i: nat :| Uses(n, i) && link == PlanLink(g, n, i);
        assert n < n + 1 && Uses(n, i);
      }
      if IsPlanLink(g, n + 1, link) {
        var k: nat, i: nat :| k < n + 1 && Uses(k, i) && link == PlanLink(g, k, i);
        assert k < n || link in LinksOf(next);
      }
    }
  }

  lemma NewLinks(g: Generators, req: Request, n: nat, next: CreateInput, link: (string, string))
    requires IndirectOne(g, req, n, next)
    ensures link in LinksOf(next) <==> exists i: nat :: Uses(n, i) && link == PlanLink(g, n, i)
  {
    if link in LinksOf(next) {
      var m :| m in next.movements && link == (next.row.id, m.id);
      var j :| 0 <= j < 3 && next.movements[j] == m;
      var i := if j == 0 then 0 else 3 * n + j;
      assert Uses(n, i) && link == PlanLink(g, n, i);
    }
    if i: nat :| Uses(n, i) && link == PlanLink(g, n, i) {
      var j := if i == 0 then 0 else i - 3 * n;
      assert next.movements[j] in next.movements && next.movements[j].id == g.uuid(i);
    }
  }

  /** Saving one more transaction of the plan. */
  lemma StoreOne(g: Generators, req: Request, t: Tables, plan: seq<CreateInput>, d: Tables, next: CreateInput)
    requires FreshIds(g, t, Ids(|plan| + 1)) && Stored(g, req, t, plan, d) && IndirectOne(g, req, |plan|, next)
    ensures Stored(g, req, t, plan + [next], Save(d, next))
  {
    assert Rows(plan + [next]) == Rows(plan) + [next.row];
    StoreReferences(g, req, t, |plan|, d, next);
    StoreLinks(g, req, t, |plan|, d, next);
  }

  lemma {:induction false} SaveAllStores(g: Generators, req: Request, t: Tables, plan: seq<CreateInput>)
    requires FreshIds(g, t, Ids(|plan|)) && Indirect(g, req, plan)
    ensures Stored(g, req, t, plan, SaveAll(t, plan))
  {
    if plan == [] {
      assert t.transactions + Rows(plan) == t.transactions;
    } else {
      var (front, last) := (plan[..|plan| - 1], plan[|plan| - 1]);
      assert Indirect(g, req, front) by {
        forall k | 0 <= k < |front| ensures IndirectOne(g, req, k, front[k]) { assert front[k] == plan[k]; }
      }
      FewerIds(g, t, Ids(|front|), Ids(|plan|));
      SaveAllStores(g, req, t, front);
      assert IndirectOne(g, req, |front|, last);
      StoreOne(g, req, t, front, SaveAll(t, front), last);
      assert front + [last] == plan;
    }
  }

  // ---------- what a reference reaches ----------

  /** Stored transactions from before the plan carry none of its references. */
  lemma OldRowsAreNotReached(g: Generators, req: Request, t: Tables, plan: seq<CreateInput>, d: Tables, id: string, i: nat)
    requires FreshIds(g, t, Ids(|plan|)) && DistinctReferences(g, req, t, Ids(|plan|)) && Stored(g, req, t, plan, d)
    requires HasTransaction(t, id) && (forall link :: link in t.links ==> link.1 in t.movements) && i < Ids(|plan|)
    ensures !CarriesReference(d, id, Reference(g, req, i))
  {
    assert FreshReference(g, req, t, i);
    forall k: nat, l: nat | k < |plan| && Uses(k, l) ensures PlanLink(g, k, l).0 != id {
      assert FreshId(g, t, 3 * k + 3);
    }
    forall m | (id, m) in d.links && m in d.movements
      ensures d.movements[m].paymentReference != Some(Reference(g, req, i))
    {
      assert (id, m).0 == id && (id, m).1 in t.movements;
    }
  }

  /** The k-th planned transaction carries the shared reference and its own onward reference, and no other. */
  lemma PlannedRowsAreReached(g: Generators, req: Request, t: Tables, plan: seq<CreateInput>, d: Tables, k: nat, i: nat)
    requires FreshIds(g, t, Ids(|plan|)) && DistinctReferences(g, req, t, Ids(|plan|))
    requires Stored(g, req, t, plan, d) && k < |plan|
    requires i < Ids(|plan|)
    ensures CarriesReference(d, g.uuid(3 * k + 3), Reference(g, req, i)) <==> i == 0 || i == 3 * k + 1
  {
    if i == 0 || i == 3 * k + 1 {
      assert Uses(k, i) && IsPlanLink(g, |plan|, PlanLink(g, k, i));
      assert (g.uuid(3 * k + 3), g.uuid(i)) in d.links && ReferenceAt(g, d, i) == Some(Reference(g, req, i));
    }
    if CarriesReference(d, g.uuid(3 * k + 3), Reference(g, req, i)) {
      PlannedRowsCarryNoOther(g, req, t, plan, d, k, i);
    }
  }

  /** A movement linked to the k-th planned transaction is one of its own. */
  lemma PlannedLink(g: Generators, t: Tables, length: nat, d: Tables, k: nat, m: string) returns (j: nat)
    requires FreshIds(g, t, Ids(length)) && LinksStored(g, t, length, d) && k < length
    requires (g.uuid(3 * k + 3), m) in d.links
    ensures Uses(k, j) && m == g.uuid(j)
  {
    var link := (g.uuid(3 * k + 3), m);
    assert FreshId(g, t, 3 * k + 3);
    assert link !in t.links by { assert link.0 == g.uuid(3 * k + 3); }
    var l: nat, n: nat :| l < length && Uses(l, n) && link == PlanLink(g, l, n);
    IdsDiffer(g, t, Ids(length), 3 * l + 3, 3 * k + 3);
    j := n;
  }

  lemma PlannedRowsCarryNoOther(g: Generators, req: Request, t: Tables, plan: seq<CreateInput>, d: Tables, k: nat, i: nat)
    requires FreshIds(g, t, Ids(|plan|)) && DistinctReferences(g, req, t, Ids(|plan|)) && Stored(g, req, t, plan, d)
    requires k < |plan| && i < Ids(|plan|) && CarriesReference(d, g.uuid(3 * k + 3), Reference(g, req, i))
    ensures i == 0 || i == 3 * k + 1
  {
    var m :| (g.uuid(3 * k + 3), m) in d.links && m in d.movements
             && d.movements[m].paymentReference == Some(Reference(g, req, i));
    var j := PlannedLink(g, t, |plan|, d, k, m);
    assert ReferenceAt(g, d, j) == Some(Reference(g, req, i));
    assert j != 3 * k + 2;
    assert ReferenceAt(g, d, j) == Some(Reference(g, req, j));
    ReferencesAreDistinct(g, req, t, Ids(|plan|), i, j);
  }

  lemma {:induction false} MatchingConcat(t: Tables, a: seq<StrTransaction>, b: seq<StrTransaction>, user: User, reference: string)
    ensures Matching(t, a + b, user, reference) == Matching(t, a, user, reference) + Matching(t, b, user, reference)
    decreases |b|
  {
    if b == [] {
      assert a + b == a;
    } else {
      assert (a + b)[..|a + b| - 1] == a + b[..|b| - 1];
      MatchingConcat(t, a, b[..|b| - 1], user, reference);
    }
  }

  lemma {:induction false} MatchingNone(t: Tables, rows: seq<StrTransaction>, user: User, reference: string)
    requires forall i :: 0 <= i < |rows| ==> !CarriesReference(t, rows[i].id, reference)
    ensures Matching(t, rows, user, reference) == []
  {
    if rows != [] { MatchingNone(t, rows[..|rows| - 1], user, reference); }
  }

  lemma {:induction false} MatchingEvery(t: Tables, rows: seq<StrTransaction>, user: User, reference: string)
    requires forall i :: 0 <= i < |rows| ==>
      CarriesReference(t, rows[i].id, reference) && rows[i].instrumentLedger == user.chain && MayRead(user, rows[i])
    ensures Matching(t, rows, user, reference) == rows
  {
    if rows != [] { MatchingEvery(t, rows[..|rows| - 1], user, reference); }
  }

  /** A repository whose links only name stored movements. */
  ghost predicate LinksAreStored(t: Tables) {
    forall link :: link in t.links ==> link.1 in t.movements
  }

  /** The lookup on stored plans splits into the rows from before and the planned rows. */
  lemma LookupSeesThePlan(g: Generators, req: Request, t: Tables, plan: seq<CreateInput>, d: Tables, user: User, i: nat)
    requires FreshIds(g, t, Ids(|plan|)) && DistinctReferences(g, req, t, Ids(|plan|)) && LinksAreStored(t)
    requires Stored(g, req, t, plan, d)
    requires i < Ids(|plan|)
    ensures ByPaymentReference(d, user, Reference(g, req, i)) == Matching(d, Rows(plan), user, Reference(g, req, i))
  {
    forall j | 0 <= j < |t.transactions| ensures !CarriesReference(d, t.transactions[j].id, Reference(g, req, i)) {
      OldRowsAreNotReached(g, req, t, plan, d, t.transactions[j].id, i);
    }
    MatchingNone(d, t.transactions, user, Reference(g, req, i));
    MatchingConcat(d, t.transactions, Rows(plan), user, Reference(g, req, i));
  }

  lemma SharedReferenceReachesAll(g: Generators, req: Request, t: Tables, plan: seq<CreateInput>, d: Tables, user: User)
    requires FreshIds(g, t, Ids(|plan|)) && DistinctReferences(g, req, t, Ids(|plan|)) && LinksAreStored(t)
    requires Stored(g, req, t, plan, d)
    requires Indirect(g, req, plan) && user.chain == req.instrumentLedger
    requires forall k :: 0 <= k < |plan| ==> MayRead(user, plan[k].row)
    ensures ByPaymentReference(d, user, Reference(g, req, 0)) == Rows(plan)
  {
    LookupSeesThePlan(g, req, t, plan, d, user, 0);
    forall k | 0 <= k < |plan| ensures CarriesReference(d, Rows(plan)[k].id, Reference(g, req, 0)) {
      assert IndirectOne(g, req, k, plan[k]);
      PlannedRowsAreReached(g, req, t, plan, d, k, 0);
    }
    forall k | 0 <= k < |plan| ensures Rows(plan)[k].instrumentLedger == user.chain {
      assert IndirectOne(g, req, k, plan[k]);
    }
    MatchingEvery(d, Rows(plan), user, Reference(g, req, 0));
  }

  /** When exactly one row carries the reference, that row is found. */
  lemma MatchingOnly(t: Tables, rows: seq<StrTransaction>, user: User, reference: string, k: nat)
    requires k < |rows| && rows[k].instrumentLedger == user.chain && MayRead(user, rows[k])
    requires forall i :: 0 <= i < |rows| ==> (CarriesReference(t, rows[i].id, reference) <==> i == k)
    ensures Matching(t, rows, user, reference) == [rows[k]]
  {
    var (before, here, after) := (rows[..k], [rows[k]], rows[k + 1..]);
    assert rows == before + here + after;
    MatchingNone(t, before, user, reference);
    MatchingEvery(t, here, user, reference);
    MatchingNone(t, after, user, reference);
    MatchingConcat(t, before + here, after, user, reference);
    MatchingConcat(t, before, here, user, reference);
  }

  /** Which planned rows carry the i-th reference. */
  lemma CarriersInThePlan(g: Generators, req: Request, t: Tables, plan: seq<CreateInput>, d: Tables, i: nat)
    requires FreshIds(g, t, Ids(|plan|)) && DistinctReferences(g, req, t, Ids(|plan|))
    requires Stored(g, req, t, plan, d) && Indirect(g, req, plan)
    requires i < Ids(|plan|)
    ensures forall j :: 0 <= j < |plan| ==>
      (CarriesReference(d, plan[j].row.id, Reference(g, req, i)) <==> i == 0 || i == 3 * j + 1)
  {
    forall j | 0 <= j < |plan|
      ensures CarriesReference(d, plan[j].row.id, Reference(g, req, i)) <==> i == 0 || i == 3 * j + 1
    {
      assert IndirectOne(g, req, j, plan[j]);
      PlannedRowsAreReached(g, req, t, plan, d, j, i);
    }
  }

  lemma OnwardReferenceMatchesOne(g: Generators, req: Request, t: Tables, plan: seq<CreateInput>, d: Tables, user: User,
                                  k: nat)
    requires FreshIds(g, t, Ids(|plan|)) && DistinctReferences(g, req, t, Ids(|plan|)) && Stored(g, req, t, plan, d)
    requires Indirect(g, req, plan) && user.chain == req.instrumentLedger
    requires k < |plan| && MayRead(user, plan[k].row)
    ensures Matching(d, Rows(plan), user, Reference(g, req, 3 * k + 1)) == [plan[k].row]
  {
    CarriersInThePlan(g, req, t, plan, d, 3 * k + 1);
    assert IndirectOne(g, req, k, plan[k]);
    MatchingOnly(d, Rows(plan), user, Reference(g, req, 3 * k + 1), k);
  }

  lemma OnwardReferenceReachesOne(g: Generators, req: Request, t: Tables, plan: seq<CreateInput>, d: Tables, user: User,
                                  k: nat)
    requires FreshIds(g, t, Ids(|plan|)) && DistinctReferences(g, req, t, Ids(|plan|)) && LinksAreStored(t)
    requires Stored(g, req, t, plan, d)
    requires Indirect(g, req, plan) && user.chain == req.instrumentLedger
    requires k < |plan| && MayRead(user, plan[k].row)
    ensures ByPaymentReference(d, user, Reference(g, req, 3 * k + 1)) == [plan[k].row]
  {
    LookupSeesThePlan(g, req, t, plan, d, user, 3 * k + 1);
    OnwardReferenceMatchesOne(g, req, t, plan, d, user, k);
  }

  /** Every stored transaction that carries one of the plan's references is a planned one, on the instrument's ledger. */
  lemma CarriersAreOnTheLedger(g: Generators, req: Request, t: Tables, plan: seq<CreateInput>, d: Tables, i: nat, j: nat)
    requires FreshIds(g, t, Ids(|plan|)) && DistinctReferences(g, req, t, Ids(|plan|)) && LinksAreStored(t)
    requires Stored(g, req, t, plan, d)
    requires Indirect(g, req, plan) && i < Ids(|plan|)
    requires j < |d.transactions| && CarriesReference(d, d.transactions[j].id, Reference(g, req, i))
    ensures d.transactions[j].instrumentLedger == req.instrumentLedger
  {
    forall row | row in t.transactions ensures !CarriesReference(d, row.id, Reference(g, req, i)) {
      OldRowsAreNotReached(g, req, t, plan, d, row.id, i);
    }
    forall k | 0 <= k < |plan| ensures plan[k].row.instrumentLedger == req.instrumentLedger {
      assert IndirectOne(g, req, k, plan[k]);
    }
    assert d.transactions[j] in t.transactions || d.transactions[j] in Rows(plan);
  }

  lemma CarriersAnswer(d: Tables, reference: string, j: nat)
    requires j < |d.transactions| && CarriesReference(d, d.transactions[j].id, reference)
    ensures AnswersLedger(d, reference, d.transactions[j].instrumentLedger)
  {
    var m :| (d.transactions[j].id, m) in d.links && m in d.movements
             && d.movements[m].paymentReference == Some(reference);
    assert m in d.movements && (d.transactions[j].id, m) in d.links;
  }

  lemma AnswersCarry(d: Tables, reference: string, ledger: Ledger) returns (j: nat)
    requires AnswersLedger(d, reference, ledger)
    ensures j < |d.transactions| && CarriesReference(d, d.transactions[j].id, reference)
    ensures d.transactions[j].instrumentLedger == ledger
  {
    var m, i :| m in d.movements && d.movements[m].paymentReference == Some(reference)
      && 0 <= i < |d.transactions| && (d.transactions[i].id, m) in d.links
      && d.transactions[i].instrumentLedger == ledger;
    j := i;
  }

  /** Any ledger the repository answers for one of the plan's references is the instrument's, and it answers one. */
  lemma ReferencesAnswerTheLedger(g: Generators, req: Request, t: Tables, plan: seq<CreateInput>, d: Tables,
                                  k: nat, i: nat, ledger: Ledger)
    requires FreshIds(g, t, Ids(|plan|)) && DistinctReferences(g, req, t, Ids(|plan|)) && LinksAreStored(t)
    requires Stored(g, req, t, plan, d)
    requires Indirect(g, req, plan) && k < |plan| && (i == 0 || i == 3 * k + 1)
    ensures AnswersLedger(d, Reference(g, req, i), ledger) <==> ledger == req.instrumentLedger
  {
    var n := |t.transactions| + k;
    CarriersInThePlan(g, req, t, plan, d, i);
    assert d.transactions[n] == plan[k].row && IndirectOne(g, req, k, plan[k]);
    CarriersAnswer(d, Reference(g, req, i), n);
    if AnswersLedger(d, Reference(g, req, i), ledger) {
      var j := AnswersCarry(d, Reference(g, req, i), ledger);
      CarriersAreOnTheLedger(g, req, t, plan, d, i, j);
    }
  }

  // ---------- the whole flow ----------

  lemma StoredPlanIsReached(g: Generators, req: Request, t: Tables, plan: seq<CreateInput>, d: Tables, user: User,
                            k: nat, ledger: Ledger)
    requires FreshIds(g, t, Ids(|plan|)) && DistinctReferences(g, req, t, Ids(|plan|)) && LinksAreStored(t)
    requires Stored(g, req, t, plan, d) && Indirect(g, req, plan) && k < |plan|
    requires user.chain == req.instrumentLedger && forall j :: 0 <= j < |plan| ==> MayRead(user, plan[j].row)
    ensures ByPaymentReference(d, user, Reference(g, req, 0)) == Rows(plan)
    ensures ByPaymentReference(d, user, Reference(g, req, 3 * k + 1)) == [plan[k].row]
    ensures AnswersLedger(d, Reference(g, req, 0), ledger) <==> ledger == req.instrumentLedger
    ensures AnswersLedger(d, Reference(g, req, 3 * k + 1), ledger) <==> ledger == req.instrumentLedger
  {
    SharedReferenceReachesAll(g, req, t, plan, d, user);
    OnwardReferenceReachesOne(g, req, t, plan, d, user, k);
    ReferencesAnswerTheLedger(g, req, t, plan, d, k, 0, ledger);
    ReferencesAnswerTheLedger(g, req, t, plan, d, k, 3 * k + 1, ledger);
  }

  /**
   Exact reach: store a planned indirect redemption on top of any repository. The issuer's
   payment reference finds every planned transaction exactly once, in order; each onward
   reference finds exactly its own; and all of them answer the instrument's ledger.
   */
  lemma ReferencesReachExactly(g: Generators, req: Request, paying: seq<Position>, plan: seq<CreateInput>, t: Tables,
                               user: User, k: nat, ledger: Ledger)
    requires Plans(g, req, paying, plan) && req.settlementModel.INDIRECT? && k < |plan|
    requires FreshIds(g, t, Ids(|plan|)) && DistinctReferences(g, req, t, Ids(|plan|)) && LinksAreStored(t)
    requires user.chain == req.instrumentLedger && forall j :: 0 <= j < |plan| ==> MayRead(user, plan[j].row)
    ensures var (d, own) := (SaveAll(t, plan), plan[k].movements[1].paymentReference.value);
      && plan[k].movements[0].paymentReference == Some(Reference(g, req, 0))
      && ByPaymentReference(d, user, Reference(g, req, 0)) == Rows(plan)
      && ByPaymentReference(d, user, own) == [plan[k].row]
      && (AnswersLedger(d, Reference(g, req, 0), ledger) <==> ledger == req.instrumentLedger)
      && (AnswersLedger(d, own, ledger) <==> ledger == req.instrumentLedger)
  {
    var d := SaveAll(t, plan);
    PlansAreIndirect(g, req, paying, plan);
    SaveAllStores(g, req, t, plan);
    assert IndirectOne(g, req, k, plan[k]);
    StoredPlanIsReached(g, req, t, plan, d, user, k, ledger);
  }

  /** No stored row has the id of the next planned transaction. */
  lemma NextRowIsNew(g: Generators, req: Request, t: Tables, plan: seq<CreateInput>, n: nat, d: Tables)
    requires FreshIds(g, t, Ids(|plan|)) && Indirect(g, req, plan) && n < |plan|
    requires d.transactions == t.transactions + Rows(plan[..n])
    ensures !HasTransaction(d, plan[n].row.id)
  {
    assert IndirectOne(g, req, n, plan[n]) && FreshId(g, t, 3 * n + 3);
    forall i | 0 <= i < |d.transactions| ensures d.transactions[i].id != plan[n].row.id {
      if i < |t.transactions| {
        assert HasTransaction(t, t.transactions[i].id) && d.transactions[i] == t.transactions[i];
      } else {
        var k := i - |t.transactions|;
        assert IndirectOne(g, req, k, plan[k]) && Differ(g, 3 * k + 3, 3 * n + 3);
      }
    }
  }

  /** A registrar can store the whole plan: no transaction of it is refused as already stored. */
  lemma PlansCanBeStored(g: Generators, req: Request, paying: seq<Position>, plan: seq<CreateInput>, t: Tables, n: nat)
    requires Plans(g, req, paying, plan) && req.settlementModel.INDIRECT? && n < |plan| && FreshIds(g, t, Ids(|plan|))
    ensures !HasTransaction(SaveAll(t, plan[..n]), plan[n].row.id)
  {
    var d := SaveAll(t, plan[..n]);
    assert Indirect(g, req, plan) by { PlansAreIndirect(g, req, paying, plan); }
    assert d.transactions == t.transactions + Rows(plan[..n]) by {
      FewerIds(g, t, Ids(n), Ids(|plan|));
      SaveAllStores(g, req, t, plan[..n]);
    }
    NextRowIsNew(g, req, t, plan, n, d);
  }

  lemma PlannedRow(g: Generators, req: Request, paying: seq<Position>, plan: seq<CreateInput>, k: nat)
    requires Plans(g, req, paying, plan) && req.settlementModel.INDIRECT? && k < |plan|
    ensures plan[k].row.id == g.uuid(3 * k + 3)
    ensures plan[k].row.instrumentLedger == req.instrumentLedger
    ensures plan[k].row.instrumentPublicAddress == req.instrumentAddress
  {
    assert PlanOne(g, req, k, paying[k]) == Ok(plan[k]);
  }

  /** The call for one planned transaction. */
  lemma PlannedCall(g: Generators, req: Request, paying: seq<Position>, plan: seq<CreateInput>, k: nat,
                    kind: SettlementOracle.Confirmation)
    requires Plans(g, req, paying, plan) && req.settlementModel.INDIRECT? && k < |plan|
    requires Identifiers.Canonical(g.uuid(3 * k + 3))
    ensures var call := SettlementOracle.CallFor(kind, plan[k].row);
      && call.ledger == req.instrumentLedger && call.instrument == req.instrumentAddress
      && call.txId.Some? && Identifiers.BnToUuid(call.txId.value) == plan[k].row.id == g.uuid(3 * k + 3)
  {
    PlannedRow(g, req, paying, plan, k);
    Identifiers.IdsRoundTrip(g.uuid(3 * k + 3));
  }

  lemma PlannedCallsDiffer(g: Generators, req: Request, paying: seq<Position>, plan: seq<CreateInput>, t: Tables,
                           i: nat, j: nat, kind: SettlementOracle.Confirmation)
    requires Plans(g, req, paying, plan) && req.settlementModel.INDIRECT? && i < j < |plan|
    requires FreshIds(g, t, Ids(|plan|))
    requires Identifiers.Canonical(g.uuid(3 * i + 3)) && Identifiers.Canonical(g.uuid(3 * j + 3))
    ensures SettlementOracle.CallFor(kind, plan[i].row).txId != SettlementOracle.CallFor(kind, plan[j].row).txId
  {
    PlannedCall(g, req, paying, plan, i, kind);
    PlannedCall(g, req, paying, plan, j, kind);
    assert Differ(g, 3 * i + 3, 3 * j + 3);
  }

  lemma PlannedCalls(g: Generators, req: Request, paying: seq<Position>, plan: seq<CreateInput>, t: Tables,
                     kind: SettlementOracle.Confirmation)
    requires Plans(g, req, paying, plan) && req.settlementModel.INDIRECT? && FreshIds(g, t, Ids(|plan|))
    requires CanonicalIds(g, Ids(|plan|))
    ensures var calls := SettlementOracle.CallsFor(kind, Rows(plan));
      && |calls| == |paying|
      && (forall k :: 0 <= k < |calls| ==>
            && calls[k].kind == kind
            && calls[k].ledger == req.instrumentLedger && calls[k].instrument == req.instrumentAddress
            && calls[k].txId.Some? && Identifiers.BnToUuid(calls[k].txId.value) == plan[k].row.id)
      && forall i, j :: 0 <= i < j < |calls| ==> calls[i].txId != calls[j].txId
  {
    var calls := SettlementOracle.CallsFor(kind, Rows(plan));
    forall k | 0 <= k < |calls|
      ensures calls[k].ledger == req.instrumentLedger && calls[k].instrument == req.instrumentAddress
      ensures calls[k].txId.Some? && Identifiers.BnToUuid(calls[k].txId.value) == plan[k].row.id
    {
      PlannedCall(g, req, paying, plan, k, kind);
    }
    forall i, j | 0 <= i < j < |calls| ensures calls[i].txId != calls[j].txId {
      PlannedCallsDiffer(g, req, paying, plan, t, i, j, kind);
    }
  }

  /**
   Confirming the issuer's payment sends one call per planned transaction, in order, each to
   the redeemed instrument; with canonical ids no two calls name the same settlement.
   */
  lemma OnePaymentConfirmsTheRedemption(g: Generators, req: Request, paying: seq<Position>, plan: seq<CreateInput>,
                                        t: Tables, user: User, kind: SettlementOracle.Confirmation)
    requires Plans(g, req, paying, plan) && req.settlementModel.INDIRECT?
    requires FreshIds(g, t, Ids(|plan|)) && DistinctReferences(g, req, t, Ids(|plan|)) && LinksAreStored(t)
    requires user.chain == req.instrumentLedger && forall j :: 0 <= j < |plan| ==> MayRead(user, plan[j].row)
    requires CanonicalIds(g, Ids(|plan|))
    ensures var calls := SettlementOracle.CallsFor(kind, ByPaymentReference(SaveAll(t, plan), user, Reference(g, req, 0)));
      && |calls| == |paying|
      && (forall k :: 0 <= k < |calls| ==>
            && calls[k].kind == kind
            && calls[k].ledger == req.instrumentLedger && calls[k].instrument == req.instrumentAddress
            && calls[k].txId.Some? && Identifiers.BnToUuid(calls[k].txId.value) == plan[k].row.id)
      && forall i, j :: 0 <= i < j < |calls| ==> calls[i].txId != calls[j].txId
  {
    var found := ByPaymentReference(SaveAll(t, plan), user, Reference(g, req, 0));
    assert found == Rows(plan) by {
      PlansAreIndirect(g, req, paying, plan);
      SaveAllStores(g, req, t, plan);
      SharedReferenceReachesAll(g, req, t, plan, SaveAll(t, plan), user);
    }
    PlannedCalls(g, req, paying, plan, t, kind);
  }

  // ---------- the hypotheses can be met ----------

  /** Ids counted from zero, and 16-digit references that write the number of the movement's id. */
  function CountingGenerators(): Generators {
    Generators(
      (i: nat) => Identifiers.BnToUuid(i),
      (operationId: string, id: string) =>
        match Identifiers.UuidToBn(id)
        case None => ""
        case Some(n) => Identifiers.PadStart(Identifiers.Numeral(n, 16), 16))
  }

  lemma CountedIdsAreDistinct(i: nat, j: nat)
    ensures CountingGenerators().uuid(i) == CountingGenerators().uuid(j) ==> i == j
  {
    Identifiers.NumbersRoundTrip(i);
    Identifiers.NumbersRoundTrip(j);
  }

  lemma CountedReference(req: Request, i: nat)
    requires i < Identifiers.Pow(16, 16)
    ensures Reference(CountingGenerators(), req, i) == Identifiers.PadStart(Identifiers.Numeral(i, 16), 16)
    ensures |Reference(CountingGenerators(), req, i)| == 16
    ensures Identifiers.Parse(Reference(CountingGenerators(), req, i), 16) == Some(i)
  {
    Identifiers.NumbersRoundTrip(i);
    Identifiers.NumeralLength(i, 16, 16);
    Identifiers.PaddedIsRead(i, 16);
  }

  /** For every plan whose ids fit into the 16 digits of a reference there are generators that meet all that is asked. */
  lemma GeneratorsExist(req: Request, length: nat)
    requires Ids(length) <= Identifiers.Pow(16, 16)
    ensures var (g, t, n) := (CountingGenerators(), Tables([], map[], {}), Ids(length));
      && FreshIds(g, t, n) && DistinctReferences(g, req, t, n) && CanonicalIds(g, n) && LinksAreStored(t)
      && forall i: nat :: i < n ==> |Reference(g, req, i)| == 16
  {
    var (g, n) := (CountingGenerators(), Ids(length));
    forall i: nat, j: nat | i < n && j < n && i != j ensures Differ(g, i, j) && ReferencesDiffer(g, req, i, j) {
      CountedIdsAreDistinct(i, j);
      CountedReference(req, i);
      CountedReference(req, j);
    }
    forall i: nat | i < n ensures Identifiers.Canonical(g.uuid(i)) && |Reference(g, req, i)| == 16 {
      Identifiers.PowersAgree(32);
      Identifiers.PowIsMonotone(16, 16, 16);
      Identifiers.FormatsUuidsBelow128Bits(i);
      CountedReference(req, i);
    }
  }

  const ALICE := ParticipantAddresses("alice", "a", "A")
  const BOB := ParticipantAddresses("bob", "b", "B")

  /** A redemption of two investors' positions through an intermediate account. */
  function TwoInvestors(): Request {
    Request("operation", "bond", TEZOS, INDIRECT, None, Some("settler"), "issuer", "I", [ALICE, BOB], "owner", 100, [])
  }

  function TwoPositions(): seq<Position> {
    [Position("alice", 7), Position("bob", 5)]
  }

  lemma TwoInvestorsArePlanned(g: Generators) returns (plan: seq<CreateInput>)
    ensures Plans(g, TwoInvestors(), TwoPositions(), plan)
  {
    var (req, paying) := (TwoInvestors(), TwoPositions());
    forall k | 0 <= k < |paying|
      ensures exists p :: p in req.participants && Lower(p.deliveryAccountNumber) == Lower(paying[k].legalEntityAddress)
    {
      assert req.participants[k] in req.participants;
    }
    PlanExistsExactlyWhen(g, req, paying);
    plan :| Plans(g, req, paying, plan);
  }

  /** They meet every hypothesis of the flow. */
  lemma ConcreteRedemption() returns (g: Generators, plan: seq<CreateInput>, t: Tables, user: User)
    ensures var (req, paying) := (TwoInvestors(), TwoPositions());
      && Plans(g, req, paying, plan) && req.settlementModel.INDIRECT? && |plan| == 2
      && FreshIds(g, t, Ids(|plan|)) && DistinctReferences(g, req, t, Ids(|plan|)) && LinksAreStored(t)
      && user.chain == req.instrumentLedger && (forall j :: 0 <= j < |plan| ==> MayRead(user, plan[j].row))
      && CanonicalIds(g, Ids(|plan|))
  {
    g, t, user := CountingGenerators(), Tables([], map[], {}), User(TEZOS, "settler", _ => true);
    plan := TwoInvestorsArePlanned(g);
    Identifiers.PowGrows(16, 16);
    GeneratorsExist(TwoInvestors(), 2);
  }
}
