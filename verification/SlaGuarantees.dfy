/**
 What the two sides of an SLA can rely on, over every run of calls from a fresh
 deployment: agreement of the ledgers, exact accounting of accepted packets and
 payments, when a provider is banned, and conservation of packets and money.
 */
module SlaGuarantees {
  import opened SlaContract
  import opened SlaHistory
  import opened SlaLaws

  /** A chain on which the contracts have been created but not yet called. */
  ghost predicate Fresh(w: World) {
    WorldOk(w) && w.globals == map[] && w.boxes == map[]
  }

  function Start(w: World): Monitor {
    Monitor(w, map[], 0)
  }

  lemma ReachableInv(w: World, calls: seq<Call>)
    requires Fresh(w) && AllWellFormed(w.catalogue, calls)
    ensures Inv(Run(Start(w), calls)) && Run(Start(w), calls).world.catalogue == w.catalogue
  {
    InvRun(Start(w), calls);
  }

  /** In every reachable state the two boxes of an SLA, when both exist, come from
      the same handshake and carry the same terms, token and gateway. */
  lemma LedgersAgree(w: World, calls: seq<Call>, kf: BoxRef, kh: BoxRef)
    requires Fresh(w) && AllWellFormed(w.catalogue, calls) && Peer(w.catalogue, kf, kh)
    requires var end := Run(Start(w), calls).world; kf in end.boxes && kh in end.boxes
    ensures var m := Run(Start(w), calls);
            var ef, eh := m.world.boxes[kf], m.world.boxes[kh];
            && kf in m.history && kh in m.history
            && m.history[kf].origin == m.history[kh].origin
            && ef.price == eh.price && ef.threshold == eh.threshold
            && ef.token == eh.token && ef.gwId == eh.gwId
            && (ef.state == SlaRejected <==> eh.state == SlaRejected)
  {
    ReachableInv(w, calls);
    var m := Run(Start(w), calls);
    assert Agree(m.world.boxes[kf], m.history[kf], m.world.boxes[kh], m.history[kh]);
  }

  /** Accepted packets, resets and payments of a forward box, in every reachable state. */
  lemma AcceptsAreAccountedFor(w: World, calls: seq<Call>, app: AppId, netId: string)
    requires Fresh(w) && AllWellFormed(w.catalogue, calls)
    requires ForwardBox(app, netId) in Run(Start(w), calls).world.boxes
    ensures var m := Run(Start(w), calls);
            var k := ForwardBox(app, netId);
            k in m.history && m.history[k].ForwardHistory? &&
            var e, h := m.world.boxes[k], m.history[k];
            && h.accepts == (e.threshold + 1) * h.resets + e.counter
            && e.counter <= e.threshold
            && h.resets == h.payments + h.waived
            && h.income == e.price * h.payments
  {
    ReachableInv(w, calls);
    ForwardBoxIsForward(Run(Start(w), calls), app, netId);
  }

  // ----- the first check

  /** The forwarder's terms suit the home provider. */
  predicate TermsSuit(w: World, forwarder: AppId, home: AppId) {
    && SettingsOf(w, forwarder).price <= SettingsOf(w, home).price
    && SettingsOf(w, forwarder).threshold >= SettingsOf(w, home).threshold
  }

  /** A first check of a listed forwarder opens both boxes with the forwarder's terms,
      active exactly when the terms suit the home provider, and answers with the state,
      token and gateway that it has written. After a deletion on one side
      only there is no new SLA: the home box that remains makes every check abort. */
  lemma FirstCheckNegotiates(m: Monitor, c: Call)
    requires Inv(m) && c.SlaCheck? && WellFormed(m.world.catalogue, c) && Authorized(m.world, c.sender, c.self)
    requires c.endpointHome != c.self && CallerVerified(m.world, c.self, c.endpointHome, c.catRef, c.provider)
    requires ForwardBox(c.self, c.netIdHome) !in m.world.boxes
    ensures var kf, kh := ForwardBox(c.self, c.netIdHome), HomeBox(c.endpointHome, m.world.catalogue[c.provider].netId);
            var m' := Observe(m, c);
            && (Execute(m.world, c).Committed? <==> kh !in m.world.boxes)
            && (kh in m.world.boxes ==> m' == m)
            && (kh !in m.world.boxes ==>
                  && kf in m'.world.boxes && kh in m'.world.boxes
                  && var ef, eh := m'.world.boxes[kf], m'.world.boxes[kh];
                  var offer := SettingsOf(m.world, c.self);
                  && ef.state == eh.state
                  && (ef.state == ActiveSla <==> TermsSuit(m.world, c.self, c.endpointHome))
                  && ef.price == eh.price == offer.price && ef.threshold == eh.threshold == offer.threshold
                  && ef.counter == eh.counter == 0
                  && ef.netId == c.netIdHome && ef.name == c.nameHome
                  && eh.netId == m.world.catalogue[c.provider].netId && eh.name == m.world.catalogue[c.provider].name
                  && (ef.token, ef.gwId) == (eh.token, eh.gwId) ==
                     (if ef.state == ActiveSla
                      then (SettingsOf(m.world, c.endpointHome).token, SettingsOf(m.world, c.endpointHome).gwId)
                      else ("None", "None"))
                  && Execute(m.world, c).reply == SlaOutput(ef.state, ef.token, ef.gwId)
                  && ef.state in {ActiveSla, SlaRejected})
  {
    var kf, kh := ForwardBox(c.self, c.netIdHome), HomeBox(c.endpointHome, m.world.catalogue[c.provider].netId);
    CheckedBoxesArePeers(m.world, c);
    PeerIsUnique(m.world.catalogue, kf, kh, kf, kh);
  }

  // ----- bans

  /** The home contract gets as far as deciding whether to pay. */
  predicate PayIsDecided(w: World, c: Call)
    requires c.SlaCheck?
  {
    && c.endpointHome != c.self
    && CallerVerified(w, c.self, c.endpointHome, c.catRef, c.provider)
    && var kh := HomeBox(c.endpointHome, w.catalogue[c.provider].netId);
       kh in w.boxes && w.boxes[kh].threshold * SettingsOf(w, c.endpointHome).tolerance <= MAX_UINT64
  }

  /** The forwarder's payment verification stays within uint64. */
  predicate VerificationFits(w: World, c: Call, price: uint64)
    requires c.SlaCheck?
  {
    var paymentTolerance := SettingsOf(w, c.self).paymentTolerance;
    && price * paymentTolerance <= MAX_UINT64
    && price * paymentTolerance < 100 * (MAX_UINT64 + 1 - Balance(w.balances, c.sender))
  }

  ghost predicate BecomesBanned(w: World, c: Call)
    requires c.SlaCheck?
  {
    var k := ForwardBox(c.self, c.netIdHome);
    && k in w.boxes && w.boxes[k].state != Banned
    && Execute(w, c).Committed?
    && k in Execute(w, c).world.boxes && Execute(w, c).world.boxes[k].state == Banned
  }

  /** sla_check bans the home provider exactly when the counter has reached the
      threshold, the home contract decides not to pay (its box is not active or has
      counted too few packets) and the minimum payment is not rounded down to 0. */
  lemma BannedIffHomeDeclinesToPay(m: Monitor, c: Call)
    requires Inv(m) && c.SlaCheck? && WellFormed(m.world.catalogue, c)
    requires ForwardBox(c.self, c.netIdHome) in m.world.boxes
    ensures var price := m.world.boxes[ForwardBox(c.self, c.netIdHome)].price;
            BecomesBanned(m.world, c) <==>
            && Settling(m.world, c)
            && PayIsDecided(m.world, c)
            && VerificationFits(m.world, c, price)
            && (var eh := m.world.boxes[HomeBox(c.endpointHome, m.world.catalogue[c.provider].netId)];
                || eh.state != ActiveSla
                || 100 * (eh.counter + 1) <= eh.threshold * SettingsOf(m.world, c.endpointHome).tolerance)
            && price * SettingsOf(m.world, c.self).paymentTolerance >= 100
  {
    var w := m.world;
    var kf := ForwardBox(c.self, c.netIdHome);
    ForwardBoxIsForward(m, c.self, c.netIdHome);
    if !Settling(w, c) {
      if Execute(w, c).Committed? {
        CountOutcome(w, c);
      }
    } else if !PayIsDecided(w, c) {
      assert HomePay(w, c) == Aborted;
    } else if PaysFor(w.boxes[HomeBox(c.endpointHome, w.catalogue[c.provider].netId)],
                      SettingsOf(w, c.endpointHome).tolerance) {
      HomeBoxIsHome(m, c.endpointHome, w.catalogue[c.provider].netId);
      PayingIsNoBan(m, c);
    } else {
      assert HomePay(w, c) == Committed(w, NoReply);
      if Execute(w, c).Committed? {
        UnpaidOutcome(w, c);
      }
    }
  }

  /** The home contract answers that it does not pay. */
  predicate HomeDeclines(w: World, c: Call)
    requires c.SlaCheck?
  {
    PayIsDecided(w, c) &&
    !PaysFor(w.boxes[HomeBox(c.endpointHome, w.catalogue[c.provider].netId)], SettingsOf(w, c.endpointHome).tolerance)
  }

  lemma DecidedCheckCommits(m: Monitor, c: Call)
    requires Inv(m) && Settling(m.world, c) && HomeDeclines(m.world, c)
    requires VerificationFits(m.world, c, m.world.boxes[ForwardBox(c.self, c.netIdHome)].price)
    ensures HomePay(m.world, c) == Committed(m.world, NoReply) && Execute(m.world, c).Committed?
  {
  }

  lemma PayingIsNoBan(m: Monitor, c: Call)
    requires Inv(m) && WellFormed(m.world.catalogue, c) && Settling(m.world, c) && PayIsDecided(m.world, c)
    requires PaysFor(m.world.boxes[HomeBox(c.endpointHome, m.world.catalogue[c.provider].netId)],
                     SettingsOf(m.world, c.endpointHome).tolerance)
    ensures !BecomesBanned(m.world, c)
  {
    var w := m.world;
    if Execute(w, c).Committed? {
      var kf, kh := ForwardBox(c.self, c.netIdHome), HomeBox(c.endpointHome, w.catalogue[c.provider].netId);
      ForwardBoxIsForward(m, c.self, c.netIdHome);
      HomeBoxIsHome(m, c.endpointHome, w.catalogue[c.provider].netId);
      PaymentMovesMoney(w, c, kh);
      PaidRecord(m, c);
      assert Observe(m, c).world == Execute(w, c).world;
    }
  }

  lemma PaymentMovesMoney(w: World, c: Call, kh: BoxRef)
    requires Settling(w, c) && PayIsDecided(w, c) && WorldOk(w)
    requires kh == HomeBox(c.endpointHome, w.catalogue[c.provider].netId)
    requires PaysFor(w.boxes[kh], SettingsOf(w, c.endpointHome).tolerance) && w.boxes[kh].price > 0
    requires c.provider == c.sender
    ensures HomePay(w, c) != Committed(w, NoReply)
  {
  }

  /** A home provider that has counted enough and can pay does pay: the check commits and
      accepts, the price moves once and both counters start anew. */
  lemma EarnedPaymentIsMade(m: Monitor, c: Call)
    requires Inv(m) && WellFormed(m.world.catalogue, c) && Settling(m.world, c) && PayIsDecided(m.world, c)
    requires var eh := m.world.boxes[HomeBox(c.endpointHome, m.world.catalogue[c.provider].netId)];
             && eh.state == ActiveSla
             && 100 * (eh.counter + 1) > eh.threshold * SettingsOf(m.world, c.endpointHome).tolerance
             && Fundable(m.world, Application(c.endpointHome), c.sender, eh.price)
             && eh.price * SettingsOf(m.world, c.self).paymentTolerance <= MAX_UINT64
    ensures var kf, kh := ForwardBox(c.self, c.netIdHome), HomeBox(c.endpointHome, m.world.catalogue[c.provider].netId);
            var w, out := m.world, Execute(m.world, c);
            && out.Committed? && out.reply == SlaOutput(Accept, w.boxes[kf].token, w.boxes[kf].gwId)
            && Moved(w.balances, out.world.balances, Application(c.endpointHome), c.sender, w.boxes[kf].price)
            && out.world.boxes == w.boxes[kh := w.boxes[kh].(counter := 0)][kf := w.boxes[kf].(counter := 0)]
  {
    var w, netId := m.world, m.world.catalogue[c.provider].netId;
    var kf, kh := ForwardBox(c.self, c.netIdHome), HomeBox(c.endpointHome, netId);
    ForwardBoxIsForward(m, c.self, c.netIdHome);
    HomeBoxIsHome(m, c.endpointHome, netId);
    CheckedBoxesArePeers(w, c);
    assert Agree(w.boxes[kf], m.history[kf], w.boxes[kh], m.history[kh]);
    BoxNamesAreInjective(c.netIdHome, netId);
    PaymentMovesMoney(w, c, kh);
    PaymentIsEnough(w.boxes[kh].price, SettingsOf(w, c.self).paymentTolerance);
    PaysIffCountedEnough(w, c.self, c.endpointHome, c.catRef, c.provider);
    PaymentCommits(w, c, kh);
    PaidOutcome(w, c);
    assert w.boxes[kh].(netId := netId) == w.boxes[kh];
  }

  /** The verification of a payment that has arrived in full does not abort. */
  lemma PaymentCommits(w: World, c: Call, kh: BoxRef)
    requires Settling(w, c) && HomePay(w, c).Committed? && WorldOk(w) && c.sender == c.provider && kh in w.boxes
    requires w.boxes[ForwardBox(c.self, c.netIdHome)].price == w.boxes[kh].price
    requires Fundable(w, Application(c.endpointHome), c.sender, w.boxes[kh].price)
    requires Moved(w.balances, HomePay(w, c).world.balances, Application(c.endpointHome), c.sender, w.boxes[kh].price)
    requires w.boxes[kh].price * SettingsOf(w, c.self).paymentTolerance <= MAX_UINT64
    requires MinPayment(w.boxes[kh].price, SettingsOf(w, c.self).paymentTolerance) <= w.boxes[kh].price
    ensures Execute(w, c).Committed?
  {
    var price := w.boxes[kh].price;
    assert Authorized(w, c.sender, c.self) && c.sender != Application(c.endpointHome);
    assert Balance(HomePay(w, c).world.balances, c.sender) == Balance(w.balances, c.sender) + price;
    assert VerificationComputes(price, SettingsOf(w, c.self).paymentTolerance, Balance(w.balances, c.sender),
                                Balance(HomePay(w, c).world.balances, c.sender));
  }

  /** A home contract that owes a payment it cannot fund blocks the check instead
      of getting banned: the transaction aborts and both boxes stay as they are. */
  lemma UnfundedHomeBlocksTheCheck(m: Monitor, c: Call)
    requires Inv(m) && WellFormed(m.world.catalogue, c) && Settling(m.world, c) && PayIsDecided(m.world, c)
    requires var e := m.world.boxes[HomeBox(c.endpointHome, m.world.catalogue[c.provider].netId)];
             && PaysFor(e, SettingsOf(m.world, c.endpointHome).tolerance)
             && Balance(m.world.balances, Application(c.endpointHome)) < e.price
    ensures Execute(m.world, c) == Aborted && Observe(m, c) == m
  {
    assert !CanTransfer(m.world.balances, Application(c.endpointHome), c.provider,
                        m.world.boxes[HomeBox(c.endpointHome, m.world.catalogue[c.provider].netId)].price);
    assert HomePay(m.world, c) == Aborted;
  }

  /** Without a payment the counter is reset all the same exactly when price and
      payment tolerance multiply to less than 100. */
  lemma UnpaidResetIffMinimumRoundsToZero(m: Monitor, c: Call)
    requires Inv(m) && WellFormed(m.world.catalogue, c) && Settling(m.world, c)
    requires HomePay(m.world, c) == Committed(m.world, NoReply) && Execute(m.world, c).Committed?
    ensures var e := m.world.boxes[ForwardBox(c.self, c.netIdHome)];
            var accepted := Execute(m.world, c).reply.state == Accept;
            && (accepted <==> e.price * SettingsOf(m.world, c.self).paymentTolerance < 100)
            && Execute(m.world, c).reply.state in {Accept, Reject}
            && Execute(m.world, c).world.boxes[ForwardBox(c.self, c.netIdHome)].counter ==
               if accepted then 0 else e.threshold
  {
    ForwardBoxIsForward(m, c.self, c.netIdHome);
    UnpaidOutcome(m.world, c);
  }

  // ----- frame of a check

  ghost predicate Concerns(w: World, c: Call, k: BoxRef)
    requires c.SlaCheck?
  {
    || k == ForwardBox(c.self, c.netIdHome)
    || (c.provider in w.catalogue && w.catalogue[c.provider].endpoint == c.self
        && k == HomeBox(c.endpointHome, w.catalogue[c.provider].netId))
  }

  ghost predicate Untouched(m: Monitor, m': Monitor, k: BoxRef) {
    && (k in m'.world.boxes <==> k in m.world.boxes)
    && (k in m'.history <==> k in m.history)
    && (k in m.world.boxes ==> m'.world.boxes[k] == m.world.boxes[k])
    && (k in m.history ==> m'.history[k] == m.history[k])
  }

  lemma CheckLeavesOthers(m: Monitor, c: Call, k: BoxRef)
    requires Inv(m) && c.SlaCheck? && WellFormed(m.world.catalogue, c) && !Concerns(m.world, c, k)
    ensures Untouched(m, Observe(m, c), k)
  {
    var w := m.world;
    if Execute(w, c).Committed? {
      if ForwardBox(c.self, c.netIdHome) !in w.boxes {
      } else {
        ForwardBoxIsForward(m, c.self, c.netIdHome);
        if !Settling(w, c) {
          CountOutcome(w, c);
        } else if HomePay(w, c) == Committed(w, NoReply) {
          UnpaidOutcome(w, c);
        } else {
          PaidLeavesOthers(m, c, k);
        }
      }
    }
  }

  lemma PaidLeavesOthers(m: Monitor, c: Call, k: BoxRef)
    requires Inv(m) && WellFormed(m.world.catalogue, c) && !c.DeleteSla? && Settling(m.world, c)
    requires !Concerns(m.world, c, k)
    requires HomePay(m.world, c).Committed? && HomePay(m.world, c) != Committed(m.world, NoReply)
    requires Execute(m.world, c).Committed?
    ensures Untouched(m, Observe(m, c), k)
  {
    PaidRecord(m, c);
  }
}
