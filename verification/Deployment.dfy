/**
 How the library reaches a token: the builder packs the five lambdas under their packed
 names, sends them to the factory, the factory copies them into its table, and every token
 it then creates carries that table and behaves as if it called the library directly.
 */
module Deployment {
  import opened Wrappers
  import opened Ledger
  import opened Dispatch
  import opened ForgeBonds
  import opened TokenRuns
  import Registry

  type Table = map<Bytes, Bytes>

  /** Every library lambda, packed, under its packed name. */
  function Library(codec: Codec): Table {
    map[codec.packName(INITIATE_SUBSCRIPTION) := codec.packLambda(LibraryLambda.InitiateSubscription),
        codec.packName(CONFIRM_PAYMENT_RECEIVED) := codec.packLambda(LibraryLambda.ConfirmPaymentReceived),
        codec.packName(CONFIRM_PAYMENT_TRANSFERRED) := codec.packLambda(LibraryLambda.ConfirmPaymentTransferred),
        codec.packName(AUTHORIZE_OPERATOR) := codec.packLambda(LibraryLambda.AuthorizeOperator),
        codec.packName(REVOKE_OPERATOR_AUTHORIZATION) := codec.packLambda(LibraryLambda.RevokeOperatorAuthorization)]
  }

  const NAMES := [INITIATE_SUBSCRIPTION, CONFIRM_PAYMENT_RECEIVED, CONFIRM_PAYMENT_TRANSFERRED,
                  AUTHORIZE_OPERATOR, REVOKE_OPERATOR_AUTHORIZATION]

  lemma LibraryIsNamed(codec: Codec, key: Bytes)
    ensures key in Library(codec) <==> exists j :: 0 <= j < |NAMES| && key == codec.packName(NAMES[j])
  {
    if key in Library(codec) {
      assert key == codec.packName(NAMES[0]) || key == codec.packName(NAMES[1]) || key == codec.packName(NAMES[2])
          || key == codec.packName(NAMES[3]) || key == codec.packName(NAMES[4]);
    }
  }

  /** The parameter of the factory's `upgrade` call. */
  function Entries(codec: Codec, scripts: Table): Result<Table> {
    if Library(codec).Keys <= scripts.Keys then Ok(map k | k in Library(codec) :: scripts[k])
    else Rejected(MISSING_KEY)
  }

  class CreateAndPlayBuilder {
    const codec: Codec
    const administrator: Address
    var bytesScripts: Table

    constructor (codec: Codec, admin: Address)
      ensures this.codec == codec && administrator == admin && bytesScripts == map[]
    {
      this.codec := codec;
      administrator := admin;
      bytesScripts := map[];
    }

    method BuildCreateAndPlay()
      modifies this
      ensures bytesScripts == old(bytesScripts) + Library(codec)
    {
      bytesScripts := bytesScripts[
        codec.packName(INITIATE_SUBSCRIPTION) := codec.packLambda(LibraryLambda.InitiateSubscription)];
      bytesScripts := bytesScripts[
        codec.packName(CONFIRM_PAYMENT_RECEIVED) := codec.packLambda(LibraryLambda.ConfirmPaymentReceived)];
      bytesScripts := bytesScripts[
        codec.packName(CONFIRM_PAYMENT_TRANSFERRED) := codec.packLambda(LibraryLambda.ConfirmPaymentTransferred)];
      bytesScripts := bytesScripts[
        codec.packName(AUTHORIZE_OPERATOR) := codec.packLambda(LibraryLambda.AuthorizeOperator)];
      bytesScripts := bytesScripts[
        codec.packName(REVOKE_OPERATOR_AUTHORIZATION) := codec.packLambda(LibraryLambda.RevokeOperatorAuthorization)];
    }

    /** Sends the five scripts, or fails when one was never built. */
    method SendCreateAndPlay() returns (r: Result<Table>)
      ensures r == Entries(codec, bytesScripts)
    {
      var names := NAMES;
      var entryPoints: Table := map[];
      for i := 0 to |names|
        invariant forall k :: k in entryPoints <==> exists j :: 0 <= j < i && k == codec.packName(names[j])
        invariant entryPoints.Keys <= bytesScripts.Keys
        invariant forall k :: k in entryPoints ==> entryPoints[k] == bytesScripts[k]
      {
        var key := codec.packName(names[i]);
        if key !in bytesScripts {
          LibraryIsNamed(codec, key);
          return Rejected(MISSING_KEY);
        }
        entryPoints := entryPoints[key := bytesScripts[key]];
      }
      forall k ensures k in entryPoints <==> k in Library(codec) {
        LibraryIsNamed(codec, k);
      }
      assert entryPoints == Entries(codec, bytesScripts).value;
      return Ok(entryPoints);
    }
  }

  /** The parameters of `createForgeBond` that reach the token's storage. */
  datatype BondParams = BondParams(
    initialSupply: nat, isinCode: string, name: string, symbol: string, currency: string,
    registrar: Address, settler: Address, owner: Address)

  /** The storage a token is originated with. The role literal is meant for two distinct operators. */
  function OriginationStorage(table: Table, eventSink: Address, p: BondParams): Storage {
    Storage(
      Repository(map[], map[]),
      map[p.owner := Balance(p.initialSupply, 0)],
      map[p.registrar := {REGISTRAR}, p.settler := {SETTLER}],
      table, p.owner, p.initialSupply, p.initialSupply, p.isinCode, p.name, p.symbol, p.currency, eventSink)
  }

  class ForgeBondFactory {
    const admin: Address
    const eventSink: Address
    const registrarAddress: Address
    var entrypoints: Table

    constructor (admin: Address, eventSink: Address, registrarAddress: Address)
      ensures this.admin == admin && this.eventSink == eventSink && this.registrarAddress == registrarAddress
      ensures entrypoints == map[]
    {
      this.admin, this.eventSink, this.registrarAddress := admin, eventSink, registrarAddress;
      entrypoints := map[];
    }

    /** Copies every entry of `params`, in whatever order the map is walked. */
    method Upgrade(sender: Address, source: Address, params: Table) returns (r: Result<()>)
      modifies this`entrypoints
      ensures r.Ok? <==> sender == admin || source == admin
      ensures entrypoints == if r.Ok? then old(entrypoints) + params else old(entrypoints)
    {
      if sender != admin && source != admin {
        return Rejected("only admin can upgrade");
      }
      var keys := params.Keys;
      while keys != {}
        invariant keys <= params.Keys
        invariant entrypoints.Keys == old(entrypoints).Keys + (params.Keys - keys)
        invariant forall k :: k in entrypoints ==>
          entrypoints[k] == if k in params.Keys - keys then params[k] else old(entrypoints)[k]
        decreases |keys|
      {
        var key :| key in keys;
        entrypoints := entrypoints[key := params[key]];
        keys := keys - {key};
      }
      assert entrypoints == old(entrypoints) + params;
      return Ok(());
    }

    /** The originated storage and the listing request sent to the registry. */
    method CreateForgeBond(sender: Address, createdAddress: Address, registryResolves: bool, p: BondParams)
      returns (r: Result<(Storage, Registry.Instrument)>)
      ensures r.Ok? <==> sender == registrarAddress == p.registrar && registryResolves
      ensures r.Ok? ==> r.value.0 == OriginationStorage(entrypoints, eventSink, p)
                        && r.value.1 == Registry.Instrument(p.name, p.isinCode, createdAddress)
      ensures r.Ok? ==> var s := r.value.0;
        && s.owner == p.owner && s.initialSupply == s.currentSupply == p.initialSupply
        && s.balances == map[p.owner := Balance(p.initialSupply, 0)]
        && s.repository == Repository(map[], map[]) && s.entrypoints == entrypoints && s.eventSink == eventSink
        && s.isinCode == p.isinCode && s.name == p.name && s.symbol == p.symbol && s.currency == p.currency
    {
      if sender != registrarAddress {
        return Rejected("Calling address should match factory registrar agent");
      }
      if sender != p.registrar {
        return Rejected("Calling address should match bond registrar agent");
      }
      var storage := OriginationStorage(entrypoints, eventSink, p);
      if !registryResolves {
        return Rejected("Bad instrument registry address");
      }
      return Ok((storage, Registry.Instrument(p.name, p.isinCode, createdAddress)));
    }
  }

  // ---------- deployments: any sequence of calls by any senders ----------

  datatype DeploymentCall =
    | BuildCall
    | SendCall(source: Address)
    | UpgradeCall(sender: Address, source: Address, entries: Table)
    | CreateCall(sender: Address, registryResolves: bool, params: BondParams)

  /** What deployment calls cannot change. */
  datatype Roles = Roles(builder: Address, admin: Address, eventSink: Address, registrar: Address)

  datatype World = World(scripts: Table, table: Table, created: seq<Storage>)

  const FRESH := World(map[], map[], [])

  /** A `send` reaches the factory with the builder as its sender and the operator behind it as its source. */
  predicate IsAdmin(roles: Roles, sender: Address, source: Address) {
    sender == roles.admin || source == roles.admin
  }

  function Deploy(codec: Codec, roles: Roles, w: World, c: DeploymentCall): World {
    match c
    case BuildCall => w.(scripts := w.scripts + Library(codec))
    case SendCall(source) =>
      (match Entries(codec, w.scripts)
       case Ok(sent) => if IsAdmin(roles, roles.builder, source) then w.(table := w.table + sent) else w
       case Rejected(_) => w)
    case UpgradeCall(sender, source, entries) =>
      if IsAdmin(roles, sender, source) then w.(table := w.table + entries) else w
    case CreateCall(sender, registryResolves, p) =>
      if sender == roles.registrar == p.registrar && registryResolves
      then w.(created := w.created + [OriginationStorage(w.table, roles.eventSink, p)]) else w
  }

  function Deployed(codec: Codec, roles: Roles, calls: seq<DeploymentCall>): World {
    if calls == [] then FRESH
    else Deploy(codec, roles, Deployed(codec, roles, calls[..|calls| - 1]), calls[|calls| - 1])
  }

  /** Only the admin changes the factory's table, directly or through the builder, and only its registrar creates tokens. */
  lemma GuardsHold(codec: Codec, roles: Roles, w: World, c: DeploymentCall)
    ensures var w' := Deploy(codec, roles, w, c);
      && (w'.scripts != w.scripts ==> c.BuildCall?)
      && (w'.table != w.table ==>
            || (c.UpgradeCall? && roles.admin in {c.sender, c.source})
            || (c.SendCall? && roles.admin in {roles.builder, c.source} && Library(codec).Keys <= w.scripts.Keys))
      && (w'.created != w.created ==>
            c.CreateCall? && c.sender == roles.registrar == c.params.registrar && c.registryResolves)
      && (c.UpgradeCall? && roles.admin in {c.sender, c.source} ==> w'.table == w.table + c.entries)
  {
  }

  /** The library was built, and then sent with the administrator behind it. */
  ghost predicate LibrarySent(roles: Roles, calls: seq<DeploymentCall>) {
    exists i, k :: 0 <= i < k < |calls| && calls[i].BuildCall? && Delivers(roles, calls[k])
  }

  predicate Delivers(roles: Roles, c: DeploymentCall) {
    c.SendCall? && IsAdmin(roles, roles.builder, c.source)
  }

  /** An upgrade that bypasses the builder and touches a library name. */
  ghost predicate Overwrites(codec: Codec, roles: Roles, c: DeploymentCall) {
    c.UpgradeCall? && IsAdmin(roles, c.sender, c.source) && !(c.entries.Keys !! Library(codec).Keys)
  }

  ghost predicate Built(calls: seq<DeploymentCall>) {
    exists i :: 0 <= i < |calls| && calls[i].BuildCall?
  }

  lemma BuiltBefore(calls: seq<DeploymentCall>)
    requires calls != []
    ensures Built(calls) <==> Built(calls[..|calls| - 1]) || calls[|calls| - 1].BuildCall?
  {
    var front := calls[..|calls| - 1];
    forall i | 0 <= i < |front| ensures front[i] == calls[i] {}
    if Built(front) {
      var i :| 0 <= i < |front| && front[i].BuildCall?;
      assert calls[i].BuildCall?;
    }
  }

  lemma SentBefore(roles: Roles, calls: seq<DeploymentCall>)
    requires calls != []
    ensures LibrarySent(roles, calls) <==>
      || LibrarySent(roles, calls[..|calls| - 1])
      || (Built(calls[..|calls| - 1]) && Delivers(roles, calls[|calls| - 1]))
  {
    var front, last := calls[..|calls| - 1], |calls| - 1;
    forall i | 0 <= i < |front| ensures front[i] == calls[i] {}
    if LibrarySent(roles, front) {
      var i, k :| 0 <= i < k < |front| && front[i].BuildCall? && Delivers(roles, front[k]);
      assert calls[i].BuildCall? && Delivers(roles, calls[k]);
    }
    if Built(front) && Delivers(roles, calls[last]) {
      var i :| 0 <= i < |front| && front[i].BuildCall?;
      assert calls[i].BuildCall? && Delivers(roles, calls[last]);
    }
    if LibrarySent(roles, calls) {
      var i, k :| 0 <= i < k < |calls| && calls[i].BuildCall? && Delivers(roles, calls[k]);
      assert front[i].BuildCall?;
      assert k < last ==> Delivers(roles, front[k]);
    }
  }

  /** The builder only ever holds nothing or the whole library. */
  lemma {:induction false} ScriptsAreTheLibrary(codec: Codec, roles: Roles, calls: seq<DeploymentCall>)
    ensures Deployed(codec, roles, calls).scripts == if Built(calls) then Library(codec) else map[]
  {
    if calls != [] {
      ScriptsAreTheLibrary(codec, roles, calls[..|calls| - 1]);
      BuiltBefore(calls);
      assert Library(codec) + Library(codec) == Library(codec) && map[] + Library(codec) == Library(codec);
    }
  }

  lemma SendingDelivers(codec: Codec, scripts: Table)
    requires scripts == Library(codec) || scripts == map[]
    ensures Entries(codec, scripts) == if scripts == Library(codec) then Ok(Library(codec)) else Rejected(MISSING_KEY)
  {
    assert codec.packName(INITIATE_SUBSCRIPTION) in Library(codec);
    if scripts == Library(codec) {
      assert (map k | k in Library(codec) :: scripts[k]) == Library(codec);
    }
  }

  ghost predicate HoldsLibrary(codec: Codec, table: Table) {
    forall k :: k in Library(codec) ==> k in table && table[k] == Library(codec)[k]
  }

  lemma LibraryResolves(codec: Codec, table: Table)
    requires codec.Faithful() && HoldsLibrary(codec, table)
    ensures Resolves(codec, table)
  {
    NamesAreDistinct();
    var library := Library(codec);
    assert codec.packName(INITIATE_SUBSCRIPTION) in library && codec.packName(CONFIRM_PAYMENT_RECEIVED) in library
        && codec.packName(CONFIRM_PAYMENT_TRANSFERRED) in library && codec.packName(AUTHORIZE_OPERATOR) in library
        && codec.packName(REVOKE_OPERATOR_AUTHORIZATION) in library;
  }

  /** The library was sent, and nothing sent around the builder touched it since. */
  ghost predicate LibraryInPlace(codec: Codec, roles: Roles, calls: seq<DeploymentCall>) {
    exists k :: 0 <= k < |calls| && Built(calls[..k]) && Delivers(roles, calls[k])
      && forall j :: k < j < |calls| ==> !Overwrites(codec, roles, calls[j])
  }

  lemma InPlaceBefore(codec: Codec, roles: Roles, calls: seq<DeploymentCall>)
    requires calls != [] && LibraryInPlace(codec, roles, calls)
    ensures var (front, last) := (calls[..|calls| - 1], calls[|calls| - 1]);
      || (Built(front) && Delivers(roles, last))
      || (LibraryInPlace(codec, roles, front) && !Overwrites(codec, roles, last))
  {
    var front := calls[..|calls| - 1];
    var k :| 0 <= k < |calls| && Built(calls[..k]) && Delivers(roles, calls[k])
      && forall j :: k < j < |calls| ==> !Overwrites(codec, roles, calls[j]);
    if k < |front| {
      assert front[..k] == calls[..k] && front[k] == calls[k];
      forall j | k < j < |front| ensures !Overwrites(codec, roles, front[j]) { assert front[j] == calls[j]; }
    }
  }

  /** Whoever calls what in between: the factory holds the library as long as it is in place. */
  lemma {:induction false} FactoryHoldsTheLibrary(codec: Codec, roles: Roles, calls: seq<DeploymentCall>)
    requires LibraryInPlace(codec, roles, calls)
    ensures HoldsLibrary(codec, Deployed(codec, roles, calls).table)
  {
    var (front, last) := (calls[..|calls| - 1], calls[|calls| - 1]);
    InPlaceBefore(codec, roles, calls);
    ScriptsAreTheLibrary(codec, roles, front);
    SendingDelivers(codec, Deployed(codec, roles, front).scripts);
    if !(Built(front) && Delivers(roles, last)) {
      FactoryHoldsTheLibrary(codec, roles, front);
    }
  }

  /** When every upgrade comes from the builder, the factory holds the library exactly once it was sent, else nothing. */
  lemma {:induction false} FactoryHoldsNothingElse(codec: Codec, roles: Roles, calls: seq<DeploymentCall>)
    requires forall c :: c in calls && c.UpgradeCall? ==> !IsAdmin(roles, c.sender, c.source)
    ensures Deployed(codec, roles, calls).table == if LibrarySent(roles, calls) then Library(codec) else map[]
  {
    if calls != [] {
      var (front, last) := (calls[..|calls| - 1], calls[|calls| - 1]);
      forall c | c in front ensures c in calls {}
      FactoryHoldsNothingElse(codec, roles, front);
      SentBefore(roles, calls);
      ScriptsAreTheLibrary(codec, roles, front);
      SendingDelivers(codec, Deployed(codec, roles, front).scripts);
      assert last in calls;
      assert Library(codec) + Library(codec) == Library(codec) && map[] + Library(codec) == Library(codec);
      assert Library(codec) != map[] by { assert codec.packName(INITIATE_SUBSCRIPTION) in Library(codec); }
    }
  }

  ghost predicate Creates(roles: Roles, c: DeploymentCall) {
    c.CreateCall? && c.sender == roles.registrar == c.params.registrar && c.registryResolves
  }

  /**
   After any sequence of deployment calls by any senders, creating a token adds one with a fresh
   ledger and one registrar and one settler. Its five names resolve to the library once the
   library is in place; when every upgrade came from the builder, exactly then.
   */
  lemma CreatedTokensResolve(codec: Codec, roles: Roles, calls: seq<DeploymentCall>, c: DeploymentCall)
    requires codec.Faithful() && Creates(roles, c)
    ensures var (w, w') := (Deployed(codec, roles, calls), Deployed(codec, roles, calls + [c]));
      var s := OriginationStorage(w.table, roles.eventSink, c.params);
      && w' == w.(created := w.created + [s])
      && Originated(Token(s, []))
      && (LibraryInPlace(codec, roles, calls) ==> Resolves(codec, s.entrypoints))
      && ((forall u :: u in calls && u.UpgradeCall? ==> !IsAdmin(roles, u.sender, u.source)) ==>
            && (LibrarySent(roles, calls) <==> Resolves(codec, s.entrypoints))
            && (LibrarySent(roles, calls) ==> s.entrypoints == Library(codec)))
      && (c.params.registrar != c.params.settler ==>
            forall who, role :: HasRole(who, s.authorizations, role) <==>
              (who == c.params.registrar && role == REGISTRAR) || (who == c.params.settler && role == SETTLER))
  {
    assert (calls + [c])[..|calls|] == calls;
    var table := Deployed(codec, roles, calls).table;
    if LibraryInPlace(codec, roles, calls) {
      FactoryHoldsTheLibrary(codec, roles, calls);
      LibraryResolves(codec, table);
    }
    if forall u :: u in calls && u.UpgradeCall? ==> !IsAdmin(roles, u.sender, u.source) {
      FactoryHoldsNothingElse(codec, roles, calls);
      LibraryResolves(codec, Library(codec));
    }
  }

  /**
   A token is created for its owner, who holds the whole supply, and carries the name, ISIN,
   symbol and currency asked for, the factory's event sink and the factory's table of that moment.
   */
  lemma CreatedTokensCarryTheirParameters(codec: Codec, roles: Roles, calls: seq<DeploymentCall>, c: DeploymentCall)
    requires Creates(roles, c)
    ensures var (before, w, p) := (Deployed(codec, roles, calls), Deployed(codec, roles, calls + [c]), c.params);
      |w.created| == |before.created| + 1 &&
      var s := w.created[|before.created|];
      && s.owner == p.owner && s.balances == map[p.owner := Balance(p.initialSupply, 0)]
      && s.initialSupply == p.initialSupply && s.currentSupply == p.initialSupply
      && s.isinCode == p.isinCode && s.name == p.name && s.symbol == p.symbol && s.currency == p.currency
      && s.eventSink == roles.eventSink && s.entrypoints == before.table
      && s.repository == Repository(map[], map[])
      && (p.registrar != p.settler ==>
            HasRole(p.registrar, s.authorizations, REGISTRAR) && HasRole(p.settler, s.authorizations, SETTLER))
  {
    assert (calls + [c])[..|calls|] == calls;
  }

  // ---------- a token without a table ----------

  /** The call of one entry point, made straight at the library. */
  function DirectStep(s: Storage, c: Call): Outcome {
    match c.entryPoint
    case InitiateSubscriptionCall(params) =>
      if params.txId in s.repository.byId then Rejected("settlementTransactionId already used")
      else if s.owner != params.deliverySender then Rejected("deliverySenderAccountNumber must match token owner")
      else
        (match InitiateOutcome(c.sender, params, s.repository, s.authorizations, s.balances)
         case Rejected(reason) => Rejected(reason)
         case Ok((repository, balances)) =>
           Notify(c.sinkResolves, s.(repository := repository, balances := balances), SubscriptionInitiated(params.txId)))
    case ConfirmPaymentReceivedCall(txId) =>
      if txId !in s.repository.byId then Rejected(MISSING_KEY)
      else if s.repository.byId[txId].status != TOKEN_LOCKED then Rejected("subscription ticket not locked")
      else
        (match ReceivedOutcome(txId, c.sender, s.owner, s.authorizations, s.repository, s.balances)
         case Rejected(reason) => Rejected(reason)
         case Ok((repository, balances)) =>
           Notify(c.sinkResolves, s.(repository := repository, balances := balances),
                  Paid(s.repository.byId[txId].details, txId)))
    case ConfirmPaymentTransferredCall(txId) =>
      (match TransferredOutcome(txId, c.sender, s.authorizations, s.repository)
       case Rejected(reason) => Rejected(reason)
       case Ok(repository) =>
         Notify(c.sinkResolves, s.(repository := repository), PaymentTransferred(txId, SUBSCRIPTION)))
    case RunCall(name, operator, role) =>
      if name == AUTHORIZE_OPERATOR then
        (match AuthorizeOutcome(c.sender, s.authorizations, operator, role)
         case Rejected(reason) => Rejected(reason)
         case Ok(authorizations) =>
           Notify(c.sinkResolves, s.(authorizations := authorizations), NewOperator(c.sender, operator, role)))
      else if name == REVOKE_OPERATOR_AUTHORIZATION then
        (match RevokeOutcome(c.sender, s.authorizations, operator, role)
         case Rejected(reason) => Rejected(reason)
         case Ok(authorizations) =>
           Notify(c.sinkResolves, s.(authorizations := authorizations), RevokeOperator(c.sender, operator, role)))
      else Rejected(MISSING_KEY)
  }

  ghost function DirectRun(t: Token, calls: seq<Call>): Token {
    if calls == [] then t
    else
      var before := DirectRun(t, calls[..|calls| - 1]);
      match DirectStep(before.storage, calls[|calls| - 1])
      case Rejected(_) => before
      case Ok((s, batches)) => Token(s, before.log + batches)
  }

  /** The call names no code besides the library's two operator lambdas. */
  ghost predicate NamesNoOther(codec: Codec, table: Table, c: Call) {
    c.entryPoint.RunCall? && c.entryPoint.entrypointName !in {AUTHORIZE_OPERATOR, REVOKE_OPERATOR_AUTHORIZATION}
    ==> LoadLambda(codec, table, c.entryPoint.entrypointName, OperatorSignature).Rejected?
  }

  /** On a resolving table an entry point does what the direct library call does, errors included. */
  lemma EntryPointsRunTheLibrary(codec: Codec, s: Storage, c: Call)
    requires Resolves(codec, s.entrypoints) && NamesNoOther(codec, s.entrypoints, c)
    ensures Step(codec, s, c).Ok? <==> DirectStep(s, c).Ok?
    ensures Step(codec, s, c).Ok? ==> Step(codec, s, c) == DirectStep(s, c)
    ensures !c.entryPoint.RunCall? ==> Step(codec, s, c) == DirectStep(s, c)
  {
  }

  /** No call touches the table. */
  lemma {:induction false} TableStays(codec: Codec, t: Token, calls: seq<Call>)
    ensures Run(codec, t, calls).storage.entrypoints == t.storage.entrypoints
  {
    if calls != [] { TableStays(codec, t, calls[..|calls| - 1]); }
  }

  /** Every run on a resolving table is a run of direct library calls. */
  lemma {:induction false} RunsAreDirect(codec: Codec, t: Token, calls: seq<Call>)
    requires Resolves(codec, t.storage.entrypoints)
    requires forall c :: c in calls ==> NamesNoOther(codec, t.storage.entrypoints, c)
    ensures Run(codec, t, calls) == DirectRun(t, calls)
  {
    if calls != [] {
      var (front, last) := (calls[..|calls| - 1], calls[|calls| - 1]);
      forall c | c in front ensures c in calls {}
      RunsAreDirect(codec, t, front);
      TableStays(codec, t, front);
      assert last in calls;
      EntryPointsRunTheLibrary(codec, Run(codec, t, front).storage, last);
    }
  }

  /** The library alone offers no other code to `run`. */
  lemma LibraryNamesNoOther(codec: Codec, c: Call)
    requires codec.Faithful()
    ensures NamesNoOther(codec, Library(codec), c)
  {
    NamesAreDistinct();
  }

  /**
   The whole way: when the builder's library was sent and every upgrade came from the builder,
   a token created by the factory behaves, over every sequence of calls by any senders, as if
   its entry points called the library directly.
   */
  lemma DeployedTokensRunTheLibrary(codec: Codec, roles: Roles, calls: seq<DeploymentCall>, c: DeploymentCall,
                                    later: seq<Call>)
    requires codec.Faithful() && Creates(roles, c) && LibrarySent(roles, calls)
    requires forall u :: u in calls && u.UpgradeCall? ==> !IsAdmin(roles, u.sender, u.source)
    ensures var created := Deployed(codec, roles, calls + [c]).created;
      created != [] &&
      var t := Token(created[|created| - 1], []);
      Run(codec, t, later) == DirectRun(t, later)
  {
    CreatedTokensResolve(codec, roles, calls, c);
    var created := Deployed(codec, roles, calls + [c]).created;
    var t := Token(created[|created| - 1], []);
    forall call | call in later ensures NamesNoOther(codec, t.storage.entrypoints, call) {
      LibraryNamesNoOther(codec, call);
    }
    RunsAreDirect(codec, t, later);
  }
}
