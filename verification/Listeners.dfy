/**
 Listening to contracts and factories: each attempt checks and marks its address in one go,
 then waits for the contract, and is resumed at any later moment with success or failure.
 */
module Listeners {
  import opened Wrappers

  datatype Target = Contract(address: string) | Factory(address: string)

  /**
   The service between two steps: the marked addresses, the attempts that wait for their
   contract, the factory attempts that still wait for an address, and the live subscriptions.
   */
  datatype State = State(
    listened: set<Target>,
    opening: map<nat, Target>,
    resolving: set<nat>,
    subscriptions: multiset<Target>,
    nextAttempt: nat)

  /** What can happen next: a request, or the resumption of some waiting attempt. */
  datatype Event =
    | ContractRequested(address: string, valid: bool)
    | FactoryRequested
    | FactoryResolved(attempt: nat, factoryAddress: Option<string>, valid: bool)
    | FactoryLookupFailed(attempt: nat)
    | Opened(attempt: nat, subscribed: bool)
    | OpenFailed(attempt: nat)

  /** The part of an attempt that runs without waiting: check, mark, and start waiting for the contract. */
  function Begin(s: State, attempt: nat, target: Target): State {
    if target in s.listened then s
    else s.(listened := s.listened + {target}, opening := s.opening[attempt := target])
  }

  function Abandon(s: State, attempt: nat): State
    requires attempt in s.opening
  {
    s.(listened := s.listened - {s.opening[attempt]}, opening := s.opening - {attempt})
  }

  function Step(s: State, e: Event): State {
    match e
    case ContractRequested(address, valid) =>
      var s' := s.(nextAttempt := s.nextAttempt + 1);
      if valid then Begin(s', s.nextAttempt, Contract(address)) else s'
    case FactoryRequested =>
      s.(nextAttempt := s.nextAttempt + 1, resolving := s.resolving + {s.nextAttempt})
    case FactoryResolved(attempt, address, valid) =>
      if attempt !in s.resolving then s
      else
        var s' := s.(resolving := s.resolving - {attempt});
        if address.Some? && valid then Begin(s', attempt, Factory(address.value)) else s'
    case FactoryLookupFailed(attempt) => s.(resolving := s.resolving - {attempt})
    case Opened(attempt, subscribed) =>
      if attempt !in s.opening then s
      else if subscribed then
        s.(opening := s.opening - {attempt}, subscriptions := s.subscriptions + multiset{s.opening[attempt]})
      else Abandon(s, attempt)
    case OpenFailed(attempt) =>
      if attempt !in s.opening then s else Abandon(s, attempt)
  }

  const INITIAL := State({}, map[], {}, multiset{}, 0)

  ghost function Run(events: seq<Event>): State {
    if events == [] then INITIAL else Step(Run(events[..|events| - 1]), events[|events| - 1])
  }

  // ---------- the service ----------

  class EventService {
    var listenedContracts: set<string>
    var listenedFactories: set<string>
    /** What the event loop holds for this service: waiting attempts and live subscriptions. */
    var opening: map<nat, Target>
    var resolving: set<nat>
    var subscriptions: multiset<Target>
    var nextAttempt: nat

    constructor ()
      ensures Contents() == INITIAL
    {
      listenedContracts, listenedFactories := {}, {};
      opening, resolving, subscriptions, nextAttempt := map[], {}, multiset{}, 0;
      new;
      assert Marked() == {};
    }

    ghost function Marked(): set<Target>
      reads this
    {
      (set a | a in listenedContracts :: Contract(a)) + (set a | a in listenedFactories :: Factory(a))
    }

    ghost function Contents(): State
      reads this
    {
      State(Marked(), opening, resolving, subscriptions, nextAttempt)
    }

    /** Runs up to the wait for the contract. */
    method SubscribeToNewContract(address: string, valid: bool)
      modifies this
      ensures Contents() == Step(old(Contents()), ContractRequested(address, valid))
    {
      var attempt := nextAttempt;
      nextAttempt := nextAttempt + 1;
      if !valid {
        return;
      }
      if address in listenedContracts {
        return;
      }
      listenedContracts := listenedContracts + {address};
      opening := opening[attempt := Contract(address)];
      assert Marked() == old(Marked()) + {Contract(address)};
    }

    /** Runs up to the wait for the factory's address. */
    method SubscribeEventFactory()
      modifies this
      ensures Contents() == Step(old(Contents()), FactoryRequested)
    {
      resolving := resolving + {nextAttempt};
      nextAttempt := nextAttempt + 1;
    }

    /** Resumes a factory attempt with its address, up to the wait for the contract. */
    method ResumeWithFactoryAddress(attempt: nat, address: Option<string>, valid: bool)
      requires attempt in resolving
      modifies this
      ensures Contents() == Step(old(Contents()), FactoryResolved(attempt, address, valid))
    {
      resolving := resolving - {attempt};
      if address.None? {
        return;
      }
      if !valid {
        return;
      }
      if address.value in listenedFactories {
        return;
      }
      listenedFactories := listenedFactories + {address.value};
      opening := opening[attempt := Factory(address.value)];
      assert Marked() == old(Marked()) + {Factory(address.value)};
    }

    /** Resumes an attempt with its contract; `subscribed` tells whether subscribing to its events went through. */
    method ResumeWithContract(attempt: nat, subscribed: bool)
      requires attempt in opening
      modifies this
      ensures Contents() == Step(old(Contents()), Opened(attempt, subscribed))
    {
      if !subscribed {
        ResumeWithError(attempt);
        return;
      }
      subscriptions := subscriptions + multiset{opening[attempt]};
      opening := opening - {attempt};
    }

    /** Resumes an attempt with an error: the address is unmarked. */
    method ResumeWithError(attempt: nat)
      requires attempt in opening
      modifies this
      ensures Contents() == Step(old(Contents()), OpenFailed(attempt))
    {
      var target := opening[attempt];
      opening := opening - {attempt};
      match target
      case Contract(address) =>
        listenedContracts := listenedContracts - {address};
        assert Marked() == old(Marked()) - {target};
      case Factory(address) =>
        listenedFactories := listenedFactories - {address};
        assert Marked() == old(Marked()) - {target};
    }
  }

  // ---------- at most one listener ----------

  /** The attempts currently waiting for the contract at `target`. */
  ghost function Waiting(s: State, target: Target): set<nat> {
    set attempt | attempt in s.opening && s.opening[attempt] == target
  }

  /** Pending attempts and live subscriptions of one address. */
  ghost function Listeners(s: State, target: Target): nat {
    |Waiting(s, target)| + s.subscriptions[target]
  }

  /** An address is marked exactly when it has a listener, and it never has two. */
  ghost predicate AtMostOne(s: State) {
    && (forall target :: Listeners(s, target) == if target in s.listened then 1 else 0)
    && (forall attempt :: attempt in s.opening || attempt in s.resolving ==> attempt < s.nextAttempt)
    && s.opening.Keys !! s.resolving
  }

  lemma BeginCounts(s: State, s': State, attempt: nat, target: Target, x: Target)
    requires attempt !in s.opening && s'.opening == s.opening[attempt := target] && s'.subscriptions == s.subscriptions
    ensures Listeners(s', x) == Listeners(s, x) + if x == target then 1 else 0
  {
    assert Waiting(s', x) == if x == target then Waiting(s, x) + {attempt} else Waiting(s, x);
  }

  lemma BeginKeeps(s: State, s': State, attempt: nat, target: Target)
    requires AtMostOne(s) && attempt !in s.opening && target !in s.listened
    requires s'.listened == s.listened + {target} && s'.opening == s.opening[attempt := target]
    requires s'.subscriptions == s.subscriptions
    ensures forall x :: Listeners(s', x) == if x in s'.listened then 1 else 0
  {
    forall x ensures Listeners(s', x) == if x in s'.listened then 1 else 0 {
      BeginCounts(s, s', attempt, target, x);
    }
  }

  lemma EndCounts(s: State, s': State, attempt: nat, subscribed: bool, x: Target)
    requires attempt in s.opening && s'.opening == s.opening - {attempt}
    requires s'.subscriptions == if subscribed then s.subscriptions + multiset{s.opening[attempt]} else s.subscriptions
    ensures Listeners(s', x) == Listeners(s, x) - if x == s.opening[attempt] && !subscribed then 1 else 0
  {
    WaitingEnds(s, s', attempt, x);
    var target := s.opening[attempt];
    assert s'.subscriptions[x] == s.subscriptions[x] + if subscribed && x == target then 1 else 0;
  }

  lemma WaitingEnds(s: State, s': State, attempt: nat, x: Target)
    requires attempt in s.opening && s'.opening == s.opening - {attempt}
    ensures |Waiting(s', x)| == |Waiting(s, x)| - if x == s.opening[attempt] then 1 else 0
  {
    if x == s.opening[attempt] {
      assert attempt in Waiting(s, x);
      assert Waiting(s', x) == Waiting(s, x) - {attempt};
    } else {
      assert Waiting(s', x) == Waiting(s, x);
    }
  }

  lemma EndKeeps(s: State, s': State, attempt: nat, subscribed: bool)
    requires AtMostOne(s) && attempt in s.opening
    requires s'.opening == s.opening - {attempt}
    requires s'.listened == if subscribed then s.listened else s.listened - {s.opening[attempt]}
    requires s'.subscriptions == if subscribed then s.subscriptions + multiset{s.opening[attempt]} else s.subscriptions
    ensures forall x :: Listeners(s', x) == if x in s'.listened then 1 else 0
  {
    assert attempt in Waiting(s, s.opening[attempt]);
    forall x ensures Listeners(s', x) == if x in s'.listened then 1 else 0 {
      EndCounts(s, s', attempt, subscribed, x);
    }
  }

  lemma SameListeners(s: State, s': State)
    requires AtMostOne(s) && s'.listened == s.listened && s'.opening == s.opening && s'.subscriptions == s.subscriptions
    ensures forall x :: Listeners(s', x) == if x in s'.listened then 1 else 0
  {
    forall x ensures Listeners(s', x) == Listeners(s, x) {
      assert Waiting(s', x) == Waiting(s, x);
    }
  }

  lemma StepKeepsAtMostOne(s: State, e: Event)
    requires AtMostOne(s)
    ensures AtMostOne(Step(s, e))
  {
    var s' := Step(s, e);
    match e
    case ContractRequested(address, valid) =>
      if valid && Contract(address) !in s.listened {
        BeginKeeps(s, s', s.nextAttempt, Contract(address));
      } else {
        SameListeners(s, s');
      }
    case FactoryRequested => SameListeners(s, s');
    case FactoryResolved(attempt, address, valid) =>
      if attempt in s.resolving && address.Some? && valid && Factory(address.value) !in s.listened {
        BeginKeeps(s, s', attempt, Factory(address.value));
      } else {
        SameListeners(s, s');
      }
    case FactoryLookupFailed(_) => SameListeners(s, s');
    case Opened(attempt, subscribed) =>
      if attempt in s.opening { EndKeeps(s, s', attempt, subscribed); }
    case OpenFailed(attempt) =>
      if attempt in s.opening { EndKeeps(s, s', attempt, false); }
  }

  /**
   Under every interleaving of requests, successes and failures, each address has at most one
   pending or live listener, and it is marked exactly when it has one.
   */
  lemma {:induction false} AtMostOneListener(events: seq<Event>)
    ensures AtMostOne(Run(events))
  {
    if events == [] {
      forall x ensures Listeners(INITIAL, x) == 0 { assert Waiting(INITIAL, x) == {}; }
    } else {
      AtMostOneListener(events[..|events| - 1]);
      StepKeepsAtMostOne(Run(events[..|events| - 1]), events[|events| - 1]);
    }
  }

  /** The next request for a target, which becomes attempt number `attempt`. */
  function Retry(target: Target, attempt: nat): seq<Event> {
    match target
    case Contract(address) => [ContractRequested(address, true)]
    case Factory(address) => [FactoryRequested, FactoryResolved(attempt, Some(address), true)]
  }

  /** An attempt fails when its contract cannot be had, or when subscribing to its events throws. */
  predicate Fails(e: Event, attempt: nat) {
    e == OpenFailed(attempt) || e == Opened(attempt, false)
  }

  lemma {:induction false} RunAppends(events: seq<Event>, e: Event)
    ensures Run(events + [e]) == Step(Run(events), e)
  {
    assert (events + [e])[..|events|] == events;
  }

  lemma FactoryRetryRuns(events: seq<Event>, address: string)
    requires Factory(address) !in Run(events).listened
    ensures var s := Run(events);
      var s' := Run(events + [FactoryRequested, FactoryResolved(s.nextAttempt, Some(address), true)]);
      s'.opening == s.opening[s.nextAttempt := Factory(address)] && s'.listened == s.listened + {Factory(address)}
  {
    var s := Run(events);
    var resolved := FactoryResolved(s.nextAttempt, Some(address), true);
    var requested := events + [FactoryRequested];
    RunAppends(events, FactoryRequested);
    assert Run(requested).listened == s.listened && Run(requested).opening == s.opening;
    assert s.nextAttempt in Run(requested).resolving;
    RunAppends(requested, resolved);
    assert requested + [resolved] == events + [FactoryRequested, resolved];
  }

  /** A request for an address that is not marked marks it and starts waiting for its contract. */
  lemma RequestsStartAttempts(events: seq<Event>, target: Target)
    requires target !in Run(events).listened
    ensures var (s, s') := (Run(events), Run(events + Retry(target, Run(events).nextAttempt)));
      s'.opening == s.opening[s.nextAttempt := target] && s'.listened == s.listened + {target}
  {
    match target
    case Contract(address) => RunAppends(events, ContractRequested(address, true));
    case Factory(address) => FactoryRetryRuns(events, address);
  }

  /** Invalid addresses and addresses that are already marked are left alone. */
  lemma OtherRequestsAreIgnored(s: State, e: Event)
    requires || (e.ContractRequested? && (!e.valid || Contract(e.address) in s.listened))
             || (e.FactoryResolved? && (e.factoryAddress.None? || !e.valid || Factory(e.factoryAddress.value) in s.listened))
             || e.FactoryRequested? || e.FactoryLookupFailed?
    ensures var s' := Step(s, e);
      s'.listened == s.listened && s'.opening == s.opening && s'.subscriptions == s.subscriptions
  {
  }

  /**
   A failed attempt on a contract or a factory leaves its address without a listener, and the
   next request for it starts a new attempt.
   */
  lemma FailureLeavesSubscribable(events: seq<Event>, attempt: nat, failure: Event)
    requires attempt in Run(events).opening && Fails(failure, attempt)
    ensures var target := Run(events).opening[attempt];
      var failed := Run(events + [failure]);
      var retried := Run(events + [failure] + Retry(target, failed.nextAttempt));
      && target !in failed.listened && Listeners(failed, target) == 0
      && retried.opening == failed.opening[failed.nextAttempt := target]
      && target in retried.listened && Listeners(retried, target) == 1
  {
    var target := Run(events).opening[attempt];
    var failing := events + [failure];
    RunAppends(events, failure);
    AtMostOneListener(failing);
    RequestsStartAttempts(failing, target);
    AtMostOneListener(failing + Retry(target, Run(failing).nextAttempt));
  }

  lemma LiveSubscriptionSurvivesStep(s: State, e: Event, target: Target)
    requires target in s.subscriptions
    ensures target in Step(s, e).subscriptions
  {
  }

  /** A live subscription is never lost: whatever happens later, the address stays marked and is not subscribed again. */
  lemma {:induction false} LiveSubscriptionsStay(events: seq<Event>, later: seq<Event>, target: Target)
    requires target in Run(events).subscriptions
    ensures Run(events + later).subscriptions[target] == 1 && target in Run(events + later).listened
    ensures Waiting(Run(events + later), target) == {}
    decreases |later|
  {
    var all := events + later;
    AtMostOneListener(all);
    if later == [] {
      assert all == events;
    } else {
      assert all[..|all| - 1] == events + later[..|later| - 1];
      LiveSubscriptionsStay(events, later[..|later| - 1], target);
      LiveSubscriptionSurvivesStep(Run(all[..|all| - 1]), all[|all| - 1], target);
    }
    OneListener(Run(all), target);
  }

  /** An attempt whose contract arrives and is subscribed to becomes the one live listener of its address. */
  lemma OpeningSubscribes(events: seq<Event>, attempt: nat)
    requires attempt in Run(events).opening
    ensures var target := Run(events).opening[attempt];
      var s := Run(events + [Opened(attempt, true)]);
      && s.subscriptions[target] == 1 && target in s.listened && Waiting(s, target) == {}
      && attempt !in s.opening
  {
    var arrived := events + [Opened(attempt, true)];
    RunAppends(events, Opened(attempt, true));
    AtMostOneListener(arrived);
    OneListener(Run(arrived), Run(events).opening[attempt]);
  }

  /** The i-th event subscribes to `target`: it opens an attempt that waits for it. */
  ghost predicate SubscribesAt(events: seq<Event>, i: nat, target: Target)
    requires i < |events|
  {
    var before := Run(events[..i]);
    && events[i].Opened? && events[i].subscribed
    && events[i].attempt in before.opening && before.opening[events[i].attempt] == target
  }

  lemma SubscribesOne(s: State, e: Event, target: Target)
    ensures target in Step(s, e).subscriptions <==>
      || target in s.subscriptions
      || (e.Opened? && e.subscribed && e.attempt in s.opening && s.opening[e.attempt] == target)
  {
  }

  ghost predicate WasSubscribed(events: seq<Event>, target: Target) {
    exists i :: 0 <= i < |events| && SubscribesAt(events, i, target)
  }

  lemma WasSubscribedBefore(events: seq<Event>, target: Target)
    requires events != []
    ensures var front := events[..|events| - 1];
      WasSubscribed(events, target) <==> WasSubscribed(front, target) || SubscribesAt(events, |front|, target)
  {
    var front := events[..|events| - 1];
    forall i | 0 <= i < |front| ensures SubscribesAt(events, i, target) <==> SubscribesAt(front, i, target) {
      assert events[..i] == front[..i] && events[i] == front[i];
    }
  }

  /** Over every interleaving an address has a live subscription exactly when some attempt for it was subscribed. */
  lemma {:induction false} SubscribedExactlyWhen(events: seq<Event>, target: Target)
    ensures target in Run(events).subscriptions <==> WasSubscribed(events, target)
  {
    if events != [] {
      var front := events[..|events| - 1];
      SubscribedExactlyWhen(front, target);
      WasSubscribedBefore(events, target);
      SubscribesOne(Run(front), events[|front|], target);
      assert Run(events) == Step(Run(front), events[|front|]);
    }
  }

  lemma OneListener(s: State, target: Target)
    requires AtMostOne(s) && target in s.subscriptions
    ensures s.subscriptions[target] == 1 && target in s.listened && Waiting(s, target) == {}
  {
    assert Listeners(s, target) == if target in s.listened then 1 else 0;
  }
}
