/** The instrument registry: one instrument list kept under two indexes, and the factories allowed to change it. */
module Registry {
  import opened Wrappers
  import opened Ledger

  datatype Instrument = Instrument(name: string, isin: string, address: Address)

  datatype Event = InstrumentListed(instrument: Instrument) | InstrumentUnlisted(instrument: Instrument)

  datatype Storage = Storage(
    byIsin: map<string, Instrument>,
    byName: map<string, Instrument>,
    factories: map<string, Address>,
    registrar: Address)

  datatype EntryPoint =
    | AuthorizeFactory(factoryType: string, factoryAddress: Address)
    | UnAuthorizeFactory(factoryAddress: Address)
    | ListInstrument(instrument: Instrument)
    | UnlistInstrument(isin: string)

  datatype Call = Call(sender: Address, sinkResolves: bool, entryPoint: EntryPoint)

  const NOT_OWNER := "Sender is not the registry owner"
  const NOT_FACTORY := "Sender is not an authorized factory"
  const BAD_SINK := "test error"

  predicate IsFactory(factories: map<string, Address>, who: Address) {
    exists t :: t in factories && factories[t] == who
  }

  function Step(s: Storage, c: Call): Result<(Storage, seq<Event>)> {
    match c.entryPoint
    case AuthorizeFactory(factoryType, factoryAddress) =>
      if s.registrar != c.sender then Rejected(NOT_OWNER)
      else Ok((s.(factories := s.factories[factoryType := factoryAddress]), []))
    case UnAuthorizeFactory(factoryAddress) =>
      if s.registrar != c.sender then Rejected(NOT_OWNER)
      else Ok((s.(factories := map t | t in s.factories && s.factories[t] != factoryAddress :: s.factories[t]), []))
    case ListInstrument(instrument) =>
      if !IsFactory(s.factories, c.sender) then Rejected(NOT_FACTORY)
      else if instrument.name in s.byName then Rejected("Token with this name already exists")
      else if instrument.isin in s.byIsin then Rejected("Token with this isin already exists")
      else if !c.sinkResolves then Rejected(BAD_SINK)
      else Ok((s.(byIsin := s.byIsin[instrument.isin := instrument], byName := s.byName[instrument.name := instrument]),
               [InstrumentListed(instrument)]))
    case UnlistInstrument(isin) =>
      if !IsFactory(s.factories, c.sender) then Rejected(NOT_FACTORY)
      else if isin !in s.byIsin then Rejected("No Token with this isin exists")
      else if !c.sinkResolves then Rejected(BAD_SINK)
      else Ok((s.(byIsin := s.byIsin - {isin}, byName := s.byName - {s.byIsin[isin].name}),
               [InstrumentUnlisted(s.byIsin[isin])]))
  }

  function Apply(s: Storage, c: Call): Storage {
    match Step(s, c)
    case Rejected(_) => s
    case Ok((s', _)) => s'
  }

  class ForgeInstrumentRegistry {
    const registrarAddress: Address
    var tokensByIsinCode: map<string, Instrument>
    var tokensByName: map<string, Instrument>
    var factories: map<string, Address>
    var emitted: seq<Event>

    constructor (registrarAddress: Address)
      ensures Contents() == Storage(map[], map[], map[], registrarAddress) && emitted == []
    {
      this.registrarAddress := registrarAddress;
      tokensByIsinCode, tokensByName, factories, emitted := map[], map[], map[], [];
    }

    ghost function Contents(): Storage
      reads this
    {
      Storage(tokensByIsinCode, tokensByName, factories, registrarAddress)
    }

    /** What a call must leave behind: the stepped storage and the stepped events, or nothing new. */
    ghost predicate Follows(before: Storage, emittedBefore: seq<Event>, c: Call, r: Result<()>)
      reads this
    {
      match Step(before, c)
      case Rejected(reason) => r == Rejected(reason) && Contents() == before && emitted == emittedBefore
      case Ok((s, events)) => r == Ok(()) && Contents() == s && emitted == emittedBefore + events
    }

    method AuthorizeFactory(sender: Address, factoryType: string, factoryAddress: Address) returns (r: Result<()>)
      modifies this`factories
      ensures Follows(old(Contents()), old(emitted),
                      Call(sender, true, EntryPoint.AuthorizeFactory(factoryType, factoryAddress)), r)
    {
      if registrarAddress != sender {
        return Rejected(NOT_OWNER);
      }
      factories := factories[factoryType := factoryAddress];
      return Ok(());
    }

    method UnAuthorizeFactory(sender: Address, factoryAddress: Address) returns (r: Result<()>)
      modifies this`factories
      ensures Follows(old(Contents()), old(emitted), Call(sender, true, EntryPoint.UnAuthorizeFactory(factoryAddress)), r)
    {
      if registrarAddress != sender {
        return Rejected(NOT_OWNER);
      }
      var items := factories.Items;
      while items != {}
        invariant items <= old(factories).Items
        invariant forall t :: t in factories <==>
          t in old(factories) && (old(factories)[t] != factoryAddress || (t, factoryAddress) in items)
        invariant forall t :: t in factories ==> factories[t] == old(factories)[t]
        decreases |items|
      {
        var item :| item in items;
        if item.1 == factoryAddress {
          factories := factories - {item.0};
        }
        items := items - {item};
      }
      assert factories == map t | t in old(factories) && old(factories)[t] != factoryAddress :: old(factories)[t];
      return Ok(());
    }

    method SenderIsFactory(sender: Address) returns (present: bool)
      ensures present <==> IsFactory(factories, sender)
    {
      present := false;
      var items := factories.Items;
      while items != {}
        invariant items <= factories.Items
        invariant present <==> exists t :: t in factories && factories[t] == sender && (t, sender) !in items
        decreases |items|
      {
        var item :| item in items;
        if item.1 == sender {
          present := true;
        }
        items := items - {item};
      }
    }

    method ListInstrument(sender: Address, sinkResolves: bool, instrument: Instrument) returns (r: Result<()>)
      modifies this`tokensByIsinCode, this`tokensByName, this`emitted
      ensures Follows(old(Contents()), old(emitted), Call(sender, sinkResolves, EntryPoint.ListInstrument(instrument)), r)
    {
      var present := SenderIsFactory(sender);
      if !present {
        return Rejected(NOT_FACTORY);
      }
      if instrument.name in tokensByName {
        return Rejected("Token with this name already exists");
      }
      if instrument.isin in tokensByIsinCode {
        return Rejected("Token with this isin already exists");
      }
      if !sinkResolves {
        return Rejected(BAD_SINK);
      }
      tokensByIsinCode := tokensByIsinCode[instrument.isin := instrument];
      tokensByName := tokensByName[instrument.name := instrument];
      emitted := emitted + [InstrumentListed(instrument)];
      return Ok(());
    }

    method UnlistInstrument(sender: Address, sinkResolves: bool, isin: string) returns (r: Result<()>)
      modifies this`tokensByIsinCode, this`tokensByName, this`emitted
      ensures Follows(old(Contents()), old(emitted), Call(sender, sinkResolves, EntryPoint.UnlistInstrument(isin)), r)
    {
      var present := SenderIsFactory(sender);
      if !present {
        return Rejected(NOT_FACTORY);
      }
      if isin !in tokensByIsinCode {
        return Rejected("No Token with this isin exists");
      }
      if !sinkResolves {
        return Rejected(BAD_SINK);
      }
      var instrument := tokensByIsinCode[isin];
      emitted := emitted + [InstrumentUnlisted(instrument)];
      tokensByName := tokensByName - {instrument.name};
      tokensByIsinCode := tokensByIsinCode - {isin};
      return Ok(());
    }
  }

  // ---------- every run ----------

  /** Both indexes hold the same instruments, each under its own key. */
  ghost predicate IndexesAgree(s: Storage) {
    && (forall isin :: isin in s.byIsin ==>
          var i := s.byIsin[isin]; i.isin == isin && i.name in s.byName && s.byName[i.name] == i)
    && (forall name :: name in s.byName ==>
          var i := s.byName[name]; i.name == name && i.isin in s.byIsin && s.byIsin[i.isin] == i)
  }

  ghost function Run(s: Storage, calls: seq<Call>): Storage {
    if calls == [] then s else Apply(Run(s, calls[..|calls| - 1]), calls[|calls| - 1])
  }

  /** The indexes agree after any run, so they list the same instruments. */
  lemma {:induction false} RunKeepsIndexesAgreeing(s: Storage, calls: seq<Call>)
    requires IndexesAgree(s)
    ensures IndexesAgree(Run(s, calls))
    ensures Run(s, calls).byIsin.Values == Run(s, calls).byName.Values
  {
    if calls != [] {
      RunKeepsIndexesAgreeing(s, calls[..|calls| - 1]);
      ApplyKeepsIndexesAgreeing(Run(s, calls[..|calls| - 1]), calls[|calls| - 1]);
    }
    AgreeingIndexesListTheSame(Run(s, calls));
  }

  /** Only the registrar changes who is a factory, and every accepted call reports exactly what it did to the list. */
  lemma CallsAreGuardedAndReported(s: Storage, c: Call)
    ensures c.entryPoint.AuthorizeFactory? || c.entryPoint.UnAuthorizeFactory? ==>
      && (Step(s, c).Ok? <==> c.sender == s.registrar)
      && (Step(s, c).Ok? ==> Step(s, c).value.1 == [])
      && Apply(s, c).byIsin == s.byIsin && Apply(s, c).byName == s.byName
    ensures c.sender != s.registrar ==> Apply(s, c).factories == s.factories
    ensures Step(s, c).Ok? && c.entryPoint.ListInstrument? ==>
      Step(s, c).value.1 == [InstrumentListed(c.entryPoint.instrument)]
    ensures Step(s, c).Ok? && c.entryPoint.UnlistInstrument? ==>
      c.entryPoint.isin in s.byIsin && Step(s, c).value.1 == [InstrumentUnlisted(s.byIsin[c.entryPoint.isin])]
    ensures Apply(s, c).registrar == s.registrar
  {
  }

  lemma ListingKeepsIndexesAgreeing(s: Storage, s': Storage, i: Instrument)
    requires IndexesAgree(s) && i.name !in s.byName && i.isin !in s.byIsin
    requires s' == s.(byIsin := s.byIsin[i.isin := i], byName := s.byName[i.name := i])
    ensures IndexesAgree(s')
  {
  }

  lemma UnlistingKeepsIndexesAgreeing(s: Storage, s': Storage, isin: string)
    requires IndexesAgree(s) && isin in s.byIsin
    requires s' == s.(byIsin := s.byIsin - {isin}, byName := s.byName - {s.byIsin[isin].name})
    ensures IndexesAgree(s')
  {
  }

  lemma ApplyKeepsIndexesAgreeing(s: Storage, c: Call)
    requires IndexesAgree(s)
    ensures IndexesAgree(Apply(s, c))
  {
    if Step(s, c).Ok? {
      match c.entryPoint
      case ListInstrument(i) => ListingKeepsIndexesAgreeing(s, Apply(s, c), i);
      case UnlistInstrument(isin) => UnlistingKeepsIndexesAgreeing(s, Apply(s, c), isin);
      case _ =>
    }
  }

  lemma AgreeingIndexesListTheSame(s: Storage)
    requires IndexesAgree(s)
    ensures s.byIsin.Values == s.byName.Values
  {
    forall i | i in s.byIsin.Values ensures i in s.byName.Values { assert s.byName[i.name] == i; }
    forall i | i in s.byName.Values ensures i in s.byIsin.Values { assert s.byIsin[i.isin] == i; }
  }

  /**
   Unlisting removes the instrument from both indexes and nothing else, and right after a
   listing it restores both.
   */
  lemma UnlistUndoesList(s: Storage, c: Call, sender: Address)
    requires IndexesAgree(s) && c.entryPoint.ListInstrument? && Step(s, c).Ok? && IsFactory(s.factories, sender)
    ensures Apply(Apply(s, c), Call(sender, true, UnlistInstrument(c.entryPoint.instrument.isin))) == s
  {
    var i := c.entryPoint.instrument;
    var s' := Apply(Apply(s, c), Call(sender, true, UnlistInstrument(i.isin)));
    assert s'.byIsin == s.byIsin && s'.byName == s.byName;
  }

  /** Listing is for authorized factories and unused names and codes, and adds exactly the one instrument to both indexes. */
  lemma ListAddsExactlyOne(s: Storage, c: Call)
    requires IndexesAgree(s) && c.entryPoint.ListInstrument?
    ensures var (s', i) := (Apply(s, c), c.entryPoint.instrument);
      && (Step(s, c).Ok? <==>
            IsFactory(s.factories, c.sender) && i.name !in s.byName && i.isin !in s.byIsin && c.sinkResolves)
      && (Step(s, c).Ok? ==>
            && s'.byIsin.Values == s.byIsin.Values + {i} && i !in s.byIsin.Values
            && s'.byName.Values == s.byName.Values + {i}
            && s'.factories == s.factories)
  {
    var (s', i) := (Apply(s, c), c.entryPoint.instrument);
    if Step(s, c).Ok? {
      assert s'.byIsin[i.isin] == i && s'.byName[i.name] == i;
      forall j | j in s.byIsin.Values ensures j in s'.byIsin.Values && j != i {
        assert s.byIsin[j.isin] == j && s'.byIsin[j.isin] == j;
      }
      forall j | j in s.byName.Values ensures j in s'.byName.Values { assert s'.byName[j.name] == j; }
    }
  }

  /** Authorizing an address under a type makes it a factory; only the address it replaces under that type can lose out. */
  lemma AuthorizeReplacesOneType(s: Storage, c: Call, who: Address)
    requires c.entryPoint.AuthorizeFactory? && c.sender == s.registrar
    ensures var (after, replaced) := (Apply(s, c).factories, c.entryPoint.factoryType);
      IsFactory(after, who) <==>
        who == c.entryPoint.factoryAddress || exists t :: t in s.factories && t != replaced && s.factories[t] == who
  {
    var (after, replaced) := (Apply(s, c).factories, c.entryPoint.factoryType);
    assert after[replaced] == c.entryPoint.factoryAddress;
    if t :| t in s.factories && t != replaced && s.factories[t] == who {
      assert after[t] == who;
    }
  }

  lemma UnlistRemovesExactlyOne(s: Storage, c: Call)
    requires IndexesAgree(s) && c.entryPoint.UnlistInstrument? && Step(s, c).Ok?
    ensures var s' := Apply(s, c);
      && s'.byIsin.Values == s.byIsin.Values - {s.byIsin[c.entryPoint.isin]}
      && s'.byName.Values == s.byName.Values - {s.byIsin[c.entryPoint.isin]}
  {
    var s', gone := Apply(s, c), s.byIsin[c.entryPoint.isin];
    forall i | i in s.byIsin.Values && i != gone ensures i in s'.byIsin.Values && i in s'.byName.Values {
      assert s'.byIsin[i.isin] == i && s'.byName[i.name] == i;
    }
    forall i | i in s.byName.Values ensures i in s.byIsin.Values { assert s.byIsin[i.isin] == i; }
  }

  /** A factory without authorization stays locked out of the lists until the registrar authorizes its address again. */
  lemma {:induction false} UnauthorizedStaysLockedOut(s: Storage, calls: seq<Call>, factory: Address, c: Call)
    requires !IsFactory(s.factories, factory)
    requires forall call :: call in calls && call.entryPoint.AuthorizeFactory? ==>
      call.entryPoint.factoryAddress != factory || call.sender != s.registrar
    ensures !IsFactory(Run(s, calls).factories, factory) && Run(s, calls).registrar == s.registrar
    ensures c.sender == factory && (c.entryPoint.ListInstrument? || c.entryPoint.UnlistInstrument?)
        ==> Apply(Run(s, calls), c) == Run(s, calls)
  {
    if calls != [] {
      UnauthorizedStaysLockedOut(s, calls[..|calls| - 1], factory, c);
    }
  }

  /** Unauthorizing an address removes it under every factory type, and no other address. */
  lemma UnauthorizeRemovesEveryEntry(s: Storage, c: Call, who: Address)
    requires c.entryPoint.UnAuthorizeFactory? && c.sender == s.registrar
    ensures IsFactory(Apply(s, c).factories, who) <==>
      IsFactory(s.factories, who) && who != c.entryPoint.factoryAddress
  {
    var after := Apply(s, c).factories;
    if IsFactory(s.factories, who) && who != c.entryPoint.factoryAddress {
      var t :| t in s.factories && s.factories[t] == who;
      assert t in after && after[t] == who;
    }
  }
}
