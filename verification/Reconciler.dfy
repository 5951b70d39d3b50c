/**
 The subscriptions of the MQTT integration (integration/mqtt/backend.go): the gateways
 wanted by the forwarder, the gateways recorded as subscribed, and a loop that moves the
 record towards the wish, one call and one publication per gateway.
 */
module Reconciler {
  import opened Prelude
  import opened Registry

  /** A call to the broker can report a failure and still have been carried out. */
  datatype Call = Succeeded | Failed | FailedButDone

  /** One gateway in one pass: the call, and whether the state was then published. */
  datatype Attempt = Attempt(call: Call, published: bool)

  type Answers = Mac -> Attempt

  predicate Reaches(a: Attempt) {
    !a.call.Failed?
  }

  predicate Completes(a: Attempt) {
    a.call.Succeeded? && a.published
  }

  /** `broker` is what the broker has subscribed. */
  datatype State = State(desired: set<Mac>, recorded: set<Mac>, broker: set<Mac>)

  function Missing(s: State): set<Mac> {
    s.desired - s.recorded
  }

  function Surplus(s: State): set<Mac> {
    s.recorded - s.desired
  }

  function Completed(gs: set<Mac>, answers: Answers): set<Mac> {
    set g | g in gs && Completes(answers(g))
  }

  function Reached(gs: set<Mac>, answers: Answers): set<Mac> {
    set g | g in gs && Reaches(answers(g))
  }

  function AfterSubscribe(s: State, gs: set<Mac>, answers: Answers): State {
    s.(recorded := s.recorded + Completed(gs, answers), broker := s.broker + Reached(gs, answers))
  }

  function AfterUnsubscribe(s: State, gs: set<Mac>, answers: Answers): State {
    s.(recorded := s.recorded - Completed(gs, answers), broker := s.broker - Reached(gs, answers))
  }

  /** A pass works on the difference it finds at its start. */
  function AfterPass(s: State, answers: Answers): State {
    AfterUnsubscribe(AfterSubscribe(s, Missing(s), answers), Surplus(s), answers)
  }

  function AfterSet(auth: Option<Mac>, s: State, e: Subscription): State {
    if auth == Some(e.gateway) then s
    else if e.subscribe then s.(desired := s.desired + {e.gateway})
    else s.(desired := s.desired - {e.gateway})
  }

  function AfterConnect(s: State): State {
    s.(recorded := {})
  }

  // ----- one pass

  predicate FailureFree(s: State, answers: Answers) {
    forall g :: g in Missing(s) + Surplus(s) ==> Completes(answers(g))
  }

  /** The record approaches the wish by exactly the gateways whose call and publication
      succeeded, and no other record changes. */
  lemma PassShrinksTheDifference(s: State, answers: Answers)
    ensures var s' := AfterPass(s, answers);
            var before, after := Missing(s) + Surplus(s), Missing(s') + Surplus(s');
            && after == before - Completed(before, answers)
            && |after| + |Completed(before, answers)| == |before|
            && s'.desired == s.desired
            && (forall g :: g !in before ==> (g in s'.recorded <==> g in s.recorded))
  {
    var s' := AfterPass(s, answers);
    var before, after := Missing(s) + Surplus(s), Missing(s') + Surplus(s');
    forall g | g in before
      ensures g in after <==> !Completes(answers(g))
    {
      assert g in Missing(s) <==> g !in Surplus(s);
    }
    assert before == after + Completed(before, answers);
  }

  /** A pass completes the record exactly when it is free of failures. */
  lemma PassCompletesIff(s: State, answers: Answers)
    ensures AfterPass(s, answers).recorded == s.desired <==> FailureFree(s, answers)
  {
  }

  /** Once the record is complete, passes do nothing. */
  lemma CompletePassIsIdle(s: State, answers: Answers)
    requires s.recorded == s.desired
    ensures AfterPass(s, answers) == s
  {
  }

  function AfterPasses(s: State, passes: seq<Answers>): State
    decreases |passes|
  {
    if passes == [] then s else AfterPasses(AfterPass(s, passes[0]), passes[1..])
  }

  /** Every pass with an unfinished record completes some gateway. */
  ghost predicate Progressing(s: State, passes: seq<Answers>)
    decreases |passes|
  {
    passes != [] ==>
      && (s.recorded == s.desired || Completed(Missing(s) + Surplus(s), passes[0]) != {})
      && Progressing(AfterPass(s, passes[0]), passes[1..])
  }

  /** As many such passes as there are differences complete the record. */
  lemma {:induction false} RecordConverges(s: State, passes: seq<Answers>)
    requires Progressing(s, passes) && |Missing(s) + Surplus(s)| <= |passes|
    ensures AfterPasses(s, passes).recorded == s.desired
    decreases |passes|
  {
    if passes == [] {
      assert Missing(s) + Surplus(s) == {};
      assert s.recorded == s.desired;
    } else {
      PassShrinksTheDifference(s, passes[0]);
      if s.recorded == s.desired {
        assert Missing(s) + Surplus(s) == {};
      } else {
        SomeCompleted(Completed(Missing(s) + Surplus(s), passes[0]));
      }
      RecordConverges(AfterPass(s, passes[0]), passes[1..]);
    }
  }

  lemma SomeCompleted(gs: set<Mac>)
    requires gs != {}
    ensures |gs| > 0
  {
  }

  // ----- runs

  datatype Event = Set(subscription: Subscription) | Pass(answers: Answers) | Lost(left: set<Mac>) | Connected

  function Start(auth: Option<Mac>): State {
    State(if auth.Some? then {auth.value} else {}, {}, {})
  }

  /** `Lost(left)` is the end of a connection, of which the broker keeps the subscriptions
      `left`; `Connected` is the connect handler. */
  function Step(auth: Option<Mac>, s: State, e: Event): State {
    match e
    case Set(subscription) => AfterSet(auth, s, subscription)
    case Pass(answers) => AfterPass(s, answers)
    case Lost(left) => s.(broker := left)
    case Connected => AfterConnect(s)
  }

  function Run(auth: Option<Mac>, events: seq<Event>): State {
    if events == [] then Start(auth)
    else Step(auth, Run(auth, events[..|events| - 1]), events[|events| - 1])
  }

  /** The last connection has not been lost yet. */
  predicate IsConnected(events: seq<Event>) {
    events != [] &&
    var last := events[|events| - 1];
    last.Connected? || (!last.Lost? && IsConnected(events[..|events| - 1]))
  }

  /** What became of a gateway on the connection at hand: the last attempt for it that
      reached the broker, and whether that one was completed. */
  datatype Fate = Untried | Subscribing(completed: bool) | Unsubscribing(completed: bool)

  function FateOf(auth: Option<Mac>, events: seq<Event>, g: Mac): Fate {
    if events == [] then Untried
    else
      var before := events[..|events| - 1];
      match events[|events| - 1]
      case Connected => Untried
      case Pass(answers) =>
        var s, completed := Run(auth, before), answers(g) == Attempt(Succeeded, true);
        if answers(g).call == Failed then FateOf(auth, before, g)
        else if g in s.desired && g !in s.recorded then Subscribing(completed)
        else if g !in s.desired && g in s.recorded then Unsubscribing(completed)
        else FateOf(auth, before, g)
      case _ => FateOf(auth, before, g)
  }

  /** What the broker still had subscribed when the connection was made. */
  function Inherited(auth: Option<Mac>, events: seq<Event>): set<Mac> {
    if events == [] then {}
    else if events[|events| - 1].Connected? then Run(auth, events[..|events| - 1]).broker
    else Inherited(auth, events[..|events| - 1])
  }

  /** While connected, record and broker say of every gateway what its last attempt says,
      and differ by nothing but the attempts that reached the broker and were not completed. */
  lemma {:induction false} RecordIsTracked(auth: Option<Mac>, events: seq<Event>, g: Mac)
    requires IsConnected(events)
    ensures var s := Run(auth, events);
            match FateOf(auth, events, g)
            case Untried => g !in s.recorded && (g in s.broker <==> g in Inherited(auth, events))
            case Subscribing(completed) => g in s.broker && (g in s.recorded <==> completed)
            case Unsubscribing(completed) => g !in s.broker && (g in s.recorded <==> !completed)
  {
    var before, last := events[..|events| - 1], events[|events| - 1];
    if !last.Connected? {
      RecordIsTracked(auth, before, g);
    }
  }

  /** Unsubscribed at the broker, but still recorded. */
  predicate Withdrawn(auth: Option<Mac>, events: seq<Event>, g: Mac) {
    FateOf(auth, events, g) == Unsubscribing(false)
  }

  /** Subscribed at the broker, but not recorded. */
  predicate Unrecorded(auth: Option<Mac>, events: seq<Event>, g: Mac) {
    FateOf(auth, events, g) == Subscribing(false) ||
    (FateOf(auth, events, g) == Untried && g in Inherited(auth, events))
  }

  /** What a failure-free pass leaves at the broker: the wish, except that a withdrawn
      gateway wanted again is not subscribed again, and an unrecorded one no longer
      wanted is not unsubscribed. */
  lemma BrokerMeetsTheWishIff(auth: Option<Mac>, events: seq<Event>, answers: Answers)
    requires IsConnected(events) && FailureFree(Run(auth, events), answers)
    ensures var s := Run(auth, events);
            var broker := AfterPass(s, answers).broker;
            && (forall g :: g in broker <==>
                  if g in s.desired then !Withdrawn(auth, events, g) else Unrecorded(auth, events, g))
            && (broker == s.desired <==>
                  forall g :: if g in s.desired then !Withdrawn(auth, events, g) else !Unrecorded(auth, events, g))
  {
    var s := Run(auth, events);
    var broker := AfterPass(s, answers).broker;
    forall g
      ensures g in broker <==> if g in s.desired then !Withdrawn(auth, events, g) else Unrecorded(auth, events, g)
    {
      RecordIsTracked(auth, events, g);
    }
    if forall g :: if g in s.desired then !Withdrawn(auth, events, g) else !Unrecorded(auth, events, g) {
      assert forall g :: g in broker <==> g in s.desired;
    }
  }

  /** A new connection starts from an empty record, whatever happened on the last one: a
      failure-free pass then subscribes everything that is wanted again, and the broker has
      the wish and what it had kept, for a clean session the wish alone. */
  lemma ReconnectingSubscribesAgain(auth: Option<Mac>, events: seq<Event>, left: set<Mac>, answers: Answers)
    requires forall g :: g in Run(auth, events).desired ==> answers(g) == Attempt(Succeeded, true)
    ensures var s := Run(auth, events + [Lost(left), Connected]);
            && s == State(Run(auth, events).desired, {}, left)
            && FailureFree(s, answers)
            && AfterPass(s, answers) == State(s.desired, s.desired, s.desired + left)
            && (left == {} ==> AfterPass(s, answers).broker == s.desired)
  {
    var lost, all := events + [Lost(left)], events + [Lost(left), Connected];
    assert all[..|all| - 1] == lost && lost[..|lost| - 1] == events;
    var s := Run(auth, all);
    assert Run(auth, lost) == Run(auth, events).(broker := left);
    assert s == AfterConnect(Run(auth, lost));
    assert Missing(s) == s.desired && Surplus(s) == {};
    assert Completed(Missing(s), answers) == s.desired == Reached(Missing(s), answers);
    assert {} + s.desired == s.desired && left + s.desired == s.desired + left;
  }

  /** Such a gateway: unsubscribed with its OFFLINE state unpublished, then wanted again.
      The record is complete, the gateway is not subscribed, and passes do nothing. */
  lemma WantedAgainIsNeverSubscribed(g: Mac, all: Answers, unpublished: Answers)
    requires all(g) == Attempt(Succeeded, true) && unpublished(g) == Attempt(Succeeded, false)
    ensures var on, off := Set(Subscription(true, g)), Set(Subscription(false, g));
            var s := Run(None, [Connected, on, Pass(all), off, Pass(unpublished), on]);
            && s.desired == {g} && s.recorded == {g} && s.broker == {}
            && forall answers :: AfterPass(s, answers) == s
  {
    var on, off := Set(Subscription(true, g)), Set(Subscription(false, g));
    var events := [Connected, on, Pass(all), off, Pass(unpublished), on];
    assert events[..0] == [];
    assert events[..1][..0] == [] && events[..2][..1] == events[..1] && events[..3][..2] == events[..2];
    assert events[..4][..3] == events[..3] && events[..5][..4] == events[..4] && events[..5] == events[..|events| - 1];
    assert Run(None, events[..1]) == State({}, {}, {});
    assert Run(None, events[..2]) == State({g}, {}, {});
    assert Run(None, events[..3]) == State({g}, {g}, {g});
    assert Run(None, events[..4]) == State({}, {g}, {g});
    assert Run(None, events[..5]) == State({}, {g}, {});
    forall answers: Answers
      ensures AfterPass(Run(None, events), answers) == Run(None, events)
    {
      CompletePassIsIdle(Run(None, events), answers);
    }
  }

  // ----- the gateways wanted by the forwarder

  function Sets(events: seq<Event>): seq<Subscription> {
    if events == [] then []
    else
      var before := Sets(events[..|events| - 1]);
      match events[|events| - 1]
      case Set(subscription) => before + [subscription]
      case _ => before
  }

  /** Whatever happens in between, the wish is the registry's set of gateways as its
      events tell, with the gateway of the authentication always in it. */
  lemma {:induction false} WishFollowsTheRegistry(auth: Option<Mac>, events: seq<Event>)
    ensures Run(auth, events).desired ==
            Subscribed(Sets(events)) + if auth.Some? then {auth.value} else {}
  {
    if events != [] {
      var before := events[..|events| - 1];
      WishFollowsTheRegistry(auth, before);
      if events[|events| - 1].Set? {
        SubscribedAppend(Sets(before), events[|events| - 1].subscription);
      }
    }
  }

  function OwnEvents(events: seq<Subscription>, g: Mac): seq<Subscription> {
    if events == [] then []
    else
      var before, last := OwnEvents(events[..|events| - 1], g), events[|events| - 1];
      if last.gateway == g then before + [last] else before
  }

  predicate EndsSubscribed(events: seq<Subscription>, g: Mac) {
    var own := OwnEvents(events, g);
    own != [] && own[|own| - 1].subscribe
  }

  /** A gateway's own last event alone decides. */
  lemma {:induction false} LastEventDecides(events: seq<Subscription>, g: Mac)
    ensures g in Subscribed(events) <==> EndsSubscribed(events, g)
  {
    if events != [] {
      LastEventDecides(events[..|events| - 1], g);
    }
  }

  /** Events may overtake each other: the registered gateways come out the same exactly
      when each gateway's own events still end alike. */
  lemma OvertakingIsHarmlessIff(events: seq<Subscription>, arrived: seq<Subscription>)
    ensures Subscribed(events) == Subscribed(arrived) <==>
            forall g :: EndsSubscribed(events, g) == EndsSubscribed(arrived, g)
  {
    var these, those := Subscribed(events), Subscribed(arrived);
    forall g
      ensures g in these <==> EndsSubscribed(events, g)
      ensures g in those <==> EndsSubscribed(arrived, g)
    {
      LastEventDecides(events, g);
      LastEventDecides(arrived, g);
    }
    if forall g :: EndsSubscribed(events, g) == EndsSubscribed(arrived, g) {
      assert forall g :: g in these <==> g in those;
    }
  }

  /** In particular as long as the events of each gateway arrive in their own order. */
  lemma OwnOrderIsHarmless(events: seq<Subscription>, arrived: seq<Subscription>)
    requires forall g {:trigger OwnEvents(arrived, g)} :: OwnEvents(arrived, g) == OwnEvents(events, g)
    ensures Subscribed(arrived) == Subscribed(events)
  {
    forall g
      ensures EndsSubscribed(events, g) == EndsSubscribed(arrived, g)
    {
      assert OwnEvents(arrived, g) == OwnEvents(events, g);
    }
    OvertakingIsHarmlessIff(events, arrived);
  }

  /** But a gateway that comes and goes, its two events overtaking each other, stays
      wanted for good. */
  lemma ReversedEventsAreHarmful(g: Mac)
    ensures var on, off := Subscription(true, g), Subscription(false, g);
            && multiset([on, off]) == multiset([off, on])
            && Subscribed([on, off]) == {} && Subscribed([off, on]) == {g}
            && Run(None, [Set(on), Set(off)]).desired == {} && Run(None, [Set(off), Set(on)]).desired == {g}
  {
    var on, off := Subscription(true, g), Subscription(false, g);
    assert [on, off][..1] == [on] && [off, on][..1] == [off] && [on][..0] == [] && [off][..0] == [];
    assert Subscribed([on]) == {} + {g} == {g} && Subscribed([off]) == {} - {g} == {};
    assert {g} - {g} == {};
    var there, back := [Set(on), Set(off)], [Set(off), Set(on)];
    assert there[..1] == [Set(on)] && back[..1] == [Set(off)];
    assert [Set(on)][..0] == [] && [Set(off)][..0] == [];
    assert Run(None, []) == Start(None);
    assert Run(None, there[..1]) == AfterSet(None, Start(None), on);
    assert Run(None, back[..1]) == AfterSet(None, Start(None), off);
  }

  // ----- the integration

  class Subscriptions {
    const auth: Option<Mac>
    var gateways: set<Mac>
    var gatewaysSubscribed: set<Mac>
    ghost var broker: set<Mac>

    ghost function Current(): State
      reads this
    {
      State(gateways, gatewaysSubscribed, broker)
    }

    constructor (auth: Option<Mac>)
      ensures this.auth == auth && Current() == Start(auth)
    {
      this.auth := auth;
      gateways := if auth.Some? then {auth.value} else {};
      gatewaysSubscribed := {};
      broker := {};
    }

    method SetGatewaySubscription(subscribe: bool, gatewayId: Mac)
      modifies this`gateways
      ensures Current() == Step(auth, old(Current()), Set(Subscription(subscribe, gatewayId)))
    {
      if auth.Some? && auth.value == gatewayId {
        return;
      }
      if subscribe {
        gateways := gateways + {gatewayId};
      } else {
        gateways := gateways - {gatewayId};
      }
    }

    method OnConnected()
      modifies this
      ensures Current() == Step(auth, old(Current()), Connected)
    {
      gatewaysSubscribed := {};
    }

    /** One round of the subscription loop; `answers` stands for the broker. */
    method SubscribePass(answers: Answers)
      modifies this
      ensures Current() == Step(auth, old(Current()), Pass(answers))
    {
      ghost var start := Current();
      var subscribe := Lacking(gateways, gatewaysSubscribed);
      var unsubscribe := Lacking(gatewaysSubscribed, gateways);
      for i := 0 to |subscribe|
        invariant Current() == AfterSubscribe(start, Elements(subscribe[..i]), answers)
      {
        OneMore(subscribe, i);
        SubscribedOneMore(start, Elements(subscribe[..i]), subscribe[i], answers);
        Subscribe(subscribe[i], answers(subscribe[i]));
      }
      assert Elements(subscribe[..|subscribe|]) == Missing(start);
      ghost var middle := Current();
      for i := 0 to |unsubscribe|
        invariant Current() == AfterUnsubscribe(middle, Elements(unsubscribe[..i]), answers)
      {
        OneMore(unsubscribe, i);
        UnsubscribedOneMore(middle, Elements(unsubscribe[..i]), unsubscribe[i], answers);
        Unsubscribe(unsubscribe[i], answers(unsubscribe[i]));
      }
      assert Elements(unsubscribe[..|unsubscribe|]) == Surplus(start);
    }

    method Subscribe(gatewayId: Mac, answer: Attempt)
      modifies this`gatewaysSubscribed, this`broker
      ensures Current() == AfterSubscribe(old(Current()), {gatewayId}, _ => answer)
    {
      if Reaches(answer) {
        broker := broker + {gatewayId};
      }
      if answer.call.Succeeded? && answer.published {
        gatewaysSubscribed := gatewaysSubscribed + {gatewayId};
      }
    }

    method Unsubscribe(gatewayId: Mac, answer: Attempt)
      modifies this`gatewaysSubscribed, this`broker
      ensures Current() == AfterUnsubscribe(old(Current()), {gatewayId}, _ => answer)
    {
      if Reaches(answer) {
        broker := broker - {gatewayId};
      }
      if answer.call.Succeeded? && answer.published {
        gatewaysSubscribed := gatewaysSubscribed - {gatewayId};
      }
    }
  }

  function Elements(s: seq<Mac>): set<Mac> {
    set g | g in s
  }

  lemma OneMore(s: seq<Mac>, i: nat)
    requires i < |s| && forall j, k :: 0 <= j < k < |s| ==> s[j] != s[k]
    ensures Elements(s[..i + 1]) == Elements(s[..i]) + {s[i]}
    ensures s[i] !in Elements(s[..i])
  {
  }

  lemma SubscribedOneMore(s: State, gs: set<Mac>, g: Mac, answers: Answers)
    requires g !in gs
    ensures AfterSubscribe(AfterSubscribe(s, gs, answers), {g}, _ => answers(g)) == AfterSubscribe(s, gs + {g}, answers)
  {
    assert Completed(gs + {g}, answers) == Completed(gs, answers) + Completed({g}, _ => answers(g));
    assert Reached(gs + {g}, answers) == Reached(gs, answers) + Reached({g}, _ => answers(g));
  }

  lemma UnsubscribedOneMore(s: State, gs: set<Mac>, g: Mac, answers: Answers)
    requires g !in gs
    ensures AfterUnsubscribe(AfterUnsubscribe(s, gs, answers), {g}, _ => answers(g)) == AfterUnsubscribe(s, gs + {g}, answers)
  {
    assert Completed(gs + {g}, answers) == Completed(gs, answers) + Completed({g}, _ => answers(g));
    assert Reached(gs + {g}, answers) == Reached(gs, answers) + Reached({g}, _ => answers(g));
  }

  /** The gateways of `these` that are not in `those`, in whatever order the map yields
      them. */
  method Lacking(these: set<Mac>, those: set<Mac>) returns (s: seq<Mac>)
    ensures Elements(s) == these - those
    ensures forall i, j :: 0 <= i < j < |s| ==> s[i] != s[j]
  {
    s := [];
    var todo := these;
    while todo != {}
      invariant todo <= these
      invariant Elements(s) == these - todo - those
      invariant forall i, j :: 0 <= i < j < |s| ==> s[i] != s[j]
      decreases todo
    {
      var g :| g in todo;
      todo := todo - {g};
      if g !in those {
        assert g !in Elements(s);
        assert Elements(s + [g]) == Elements(s) + {g};
        s := s + [g];
      }
    }
  }
}
