/**
 What an observer of the chain records about each box while calls are executed,
 and the invariant of every run: exact accounting on both sides and agreement
 between the two ledgers of an SLA.
 */
module SlaHistory {
  import opened SlaContract

  /** Everything recorded is visible from outside: the answers given, the boxes
      and the account balances before and after each call. `origin` is the number
      of the call that created the box; `waived` counts the resets of a forward
      counter that came without a payment. */
  datatype History =
    | ForwardHistory(origin: nat, accepts: nat, resets: nat, payments: nat, waived: nat, income: int)
    | HomeHistory(origin: nat, received: nat, consumed: nat, payments: nat, outgo: int)

  datatype Monitor = Monitor(world: World, history: map<BoxRef, History>, clock: nat)

  function Observe(m: Monitor, c: Call): Monitor {
    Recorded(m, c, Execute(m.world, c))
  }

  function Recorded(m: Monitor, c: Call, outcome: Outcome): Monitor {
    match outcome
    case Aborted => m
    case Committed(world, reply) => Monitor(world, Updated(m, c, world, reply), m.clock + 1)
  }

  function Updated(m: Monitor, c: Call, after: World, reply: Reply): map<BoxRef, History> {
    match c
    case SlaCheck(_, self, netIdHome, _, _, _, _) =>
      if ForwardBox(self, netIdHome) in m.world.boxes
      then Checked(m, c, after, reply)
      else Created(m, c)
    case ReceivePacket(_, self, netId) =>
      var k := HomeBox(self, netId);
      if k in m.history && m.history[k].HomeHistory?
      then m.history[k := m.history[k].(received := m.history[k].received + 1)]
      else m.history
    case DeleteSla(_, self, typeOp, netId) => m.history - {BoxRef(self, netId + typeOp)}
    case _ => m.history
  }

  function Created(m: Monitor, c: Call): map<BoxRef, History>
    requires c.SlaCheck?
  {
    if c.provider !in m.world.catalogue then m.history
    else
      m.history[HomeBox(c.endpointHome, m.world.catalogue[c.provider].netId) := HomeHistory(m.clock, 0, 0, 0, 0)]
               [ForwardBox(c.self, c.netIdHome) := ForwardHistory(m.clock, 0, 0, 0, 0, 0)]
  }

  /** What left the home contract's account during the call. */
  function Spent(before: World, after: World, c: Call): int
    requires c.SlaCheck?
  {
    Balance(before.balances, Application(c.endpointHome)) - Balance(after.balances, Application(c.endpointHome))
  }

  predicate Reset(before: SlaEntry, after: SlaEntry, reply: Reply) {
    reply.SlaOutput? && reply.state == Accept && before.counter == before.threshold && after.counter == 0
  }

  function CheckedForward(h: History, before: World, after: World, c: Call, reply: Reply): History
    requires c.SlaCheck? && h.ForwardHistory?
    requires ForwardBox(c.self, c.netIdHome) in before.boxes
  {
    var k := ForwardBox(c.self, c.netIdHome);
    var spent := Spent(before, after, c);
    var reset := k in after.boxes && Reset(before.boxes[k], after.boxes[k], reply);
    h.(accepts := h.accepts + if reply.SlaOutput? && reply.state == Accept then 1 else 0,
       resets := h.resets + if reset then 1 else 0,
       payments := h.payments + if spent > 0 then 1 else 0,
       waived := h.waived + if reset && spent <= 0 then 1 else 0,
       income := h.income + Balance(after.balances, c.sender) - Balance(before.balances, c.sender))
  }

  function Checked(m: Monitor, c: Call, after: World, reply: Reply): map<BoxRef, History>
    requires c.SlaCheck? && ForwardBox(c.self, c.netIdHome) in m.world.boxes
  {
    var kf := ForwardBox(c.self, c.netIdHome);
    var forwarded :=
      if kf in m.history && m.history[kf].ForwardHistory?
      then m.history[kf := CheckedForward(m.history[kf], m.world, after, c, reply)]
      else m.history;
    if c.provider !in m.world.catalogue || Spent(m.world, after, c) <= 0 then forwarded
    else
      var kh := HomeBox(c.endpointHome, m.world.catalogue[c.provider].netId);
      if kh in forwarded && forwarded[kh].HomeHistory? && kh in m.world.boxes
      then
        var h := forwarded[kh];
        forwarded[kh := h.(consumed := h.consumed + m.world.boxes[kh].counter,
                           payments := h.payments + 1,
                           outgo := h.outgo + Spent(m.world, after, c))]
      else forwarded
  }

  function Run(m: Monitor, calls: seq<Call>): Monitor
    decreases |calls|
  {
    if calls == [] then m else Run(Observe(m, calls[0]), calls[1..])
  }

  // ----- assumptions on the surroundings of the contracts

  /** An account that has only opted in lists no contract. */
  predicate Registered(catalogue: map<Account, EndpointItem>, a: Account) {
    a in catalogue && catalogue[a].endpoint > 0
  }

  /** One row per provider: no two registered accounts share an id or a contract. */
  ghost predicate CatalogueOk(catalogue: map<Account, EndpointItem>) {
    forall a, b :: Registered(catalogue, a) && Registered(catalogue, b) && a != b ==>
      catalogue[a].netId != catalogue[b].netId && catalogue[a].endpoint != catalogue[b].endpoint
  }

  ghost predicate IsRow(catalogue: map<Account, EndpointItem>, a: Account, netId: string, endpoint: AppId) {
    Registered(catalogue, a) && catalogue[a].netId == netId && catalogue[a].endpoint == endpoint
  }

  /** What every client of the contract does: it passes its own account as provider
      and takes the id and contract of the home provider from one registered row. Nobody
      calls the home side directly for an account that has only opted in. */
  ghost predicate WellFormed(catalogue: map<Account, EndpointItem>, c: Call) {
    && (c.SlaCheck? ==>
          && c.provider == c.sender
          && exists a :: IsRow(catalogue, a, c.netIdHome, c.endpointHome))
    && (c.TopLevelHandshake? || c.TopLevelPay? ==> c.provider in catalogue ==> Registered(catalogue, c.provider))
  }

  ghost predicate AllWellFormed(catalogue: map<Account, EndpointItem>, calls: seq<Call>) {
    forall i :: 0 <= i < |calls| ==> WellFormed(catalogue, calls[i])
  }

  // ----- the invariant

  ghost predicate SettingsOk(g: Globals) {
    && g.tolerance <= 100
    && g.paymentTolerance <= 100
    && (g.price == 0 <==> g.threshold == 0)
    && (g.catalogue > 0 ==> g.threshold > 0)
  }

  ghost predicate WorldOk(w: World) {
    && CatalogueOk(w.catalogue)
    && w.catalogueApp > 0
    && 0 !in w.creators
    && (forall app :: app in w.creators ==> w.creators[app].User?)
    && (forall app :: app in w.globals ==> SettingsOk(w.globals[app]))
  }

  ghost predicate ForwardOk(k: BoxRef, e: SlaEntry, h: History) {
    && h.ForwardHistory?
    && k == ForwardBox(k.app, e.netId)
    && e.state in {ActiveSla, SlaRejected, Banned}
    && e.counter <= e.threshold
    && (e.state == SlaRejected ==> e.counter == 0 && h.resets == 0)
    && (e.state != SlaRejected ==> e.threshold > 0 && e.price > 0)
    && (e.state == Banned ==> e.counter == e.threshold)
    && h.accepts == (e.threshold + 1) * h.resets + e.counter
    && h.resets == h.payments + h.waived
    && h.income == e.price * h.payments
  }

  ghost predicate HomeOk(k: BoxRef, e: SlaEntry, h: History) {
    && h.HomeHistory?
    && k == HomeBox(k.app, e.netId)
    && e.state in {ActiveSla, SlaRejected, Banned}
    && (e.state != SlaRejected ==> e.threshold > 0 && e.price > 0)
    && h.received == h.consumed + e.counter
    && h.outgo == e.price * h.payments
  }

  ghost predicate BoxOk(k: BoxRef, e: SlaEntry, h: History, clock: nat) {
    h.origin < clock && (ForwardOk(k, e, h) || HomeOk(k, e, h))
  }

  /** `kf` and `kh` are the forward box of one provider and the home box of the
      other for the SLA between the two. */
  ghost predicate Peer(catalogue: map<Account, EndpointItem>, kf: BoxRef, kh: BoxRef) {
    exists af, ah :: PeerVia(catalogue, af, ah, kf, kh)
  }

  ghost predicate PeerVia(catalogue: map<Account, EndpointItem>, af: Account, ah: Account, kf: BoxRef, kh: BoxRef) {
    && Registered(catalogue, af)
    && Registered(catalogue, ah)
    && kf == ForwardBox(catalogue[af].endpoint, catalogue[ah].netId)
    && kh == HomeBox(catalogue[ah].endpoint, catalogue[af].netId)
  }

  ghost predicate Agree(ef: SlaEntry, hf: History, eh: SlaEntry, hh: History) {
    && hf.ForwardHistory? && hh.HomeHistory?
    && hf.origin == hh.origin
    && ef.price == eh.price
    && ef.threshold == eh.threshold
    && ef.token == eh.token
    && ef.gwId == eh.gwId
    && (ef.state == SlaRejected <==> eh.state == SlaRejected)
    && hf.payments == hh.payments
    && hf.income == hh.outgo
  }

  ghost predicate Tracked(m: Monitor) {
    && m.history.Keys == m.world.boxes.Keys
    && forall k :: k in m.world.boxes ==> BoxOk(k, m.world.boxes[k], m.history[k], m.clock)
  }

  ghost predicate Agreed(m: Monitor)
    requires m.history.Keys == m.world.boxes.Keys
  {
    forall kf, kh :: Peer(m.world.catalogue, kf, kh) && kf in m.world.boxes && kh in m.world.boxes ==>
      Agree(m.world.boxes[kf], m.history[kf], m.world.boxes[kh], m.history[kh])
  }

  ghost predicate Inv(m: Monitor) {
    WorldOk(m.world) && Tracked(m) && Agreed(m)
  }

  // ----- boxes and peers

  lemma ForwardBoxIsForward(m: Monitor, app: AppId, netId: string)
    requires Tracked(m) && ForwardBox(app, netId) in m.world.boxes
    ensures var k := ForwardBox(app, netId);
            ForwardOk(k, m.world.boxes[k], m.history[k]) && m.world.boxes[k].netId == netId
  {
    BoxNamesAreInjective(netId, m.world.boxes[ForwardBox(app, netId)].netId);
  }

  lemma HomeBoxIsHome(m: Monitor, app: AppId, netId: string)
    requires Tracked(m) && HomeBox(app, netId) in m.world.boxes
    ensures var k := HomeBox(app, netId);
            HomeOk(k, m.world.boxes[k], m.history[k]) && m.world.boxes[k].netId == netId
  {
    BoxNamesAreInjective(m.world.boxes[HomeBox(app, netId)].netId, netId);
  }

  /** Every forward box has one peer and every home box has one peer. */
  lemma PeerIsUnique(catalogue: map<Account, EndpointItem>, kf: BoxRef, kh: BoxRef, kf': BoxRef, kh': BoxRef)
    requires CatalogueOk(catalogue)
    requires Peer(catalogue, kf, kh) && Peer(catalogue, kf', kh')
    ensures kf == kf' <==> kh == kh'
    ensures kf != kh'
  {
    var af, ah :| PeerVia(catalogue, af, ah, kf, kh);
    var af', ah' :| PeerVia(catalogue, af', ah', kf', kh');
    BoxNamesAreInjective(catalogue[ah].netId, catalogue[ah'].netId);
    BoxNamesAreInjective(catalogue[af].netId, catalogue[af'].netId);
    BoxNamesAreInjective(catalogue[ah].netId, catalogue[af'].netId);
    assert kf == kf' ==> af == af' && ah == ah';
    assert kh == kh' ==> af == af' && ah == ah';
  }

  // ----- one call at a time

  /** Changing a home box in place, with its terms kept, keeps both ledgers in agreement. */
  lemma HomeBoxChange(m: Monitor, k: BoxRef, e: SlaEntry, h: History)
    requires Inv(m) && k in m.world.boxes
    requires HomeOk(k, m.world.boxes[k], m.history[k]) && HomeOk(k, e, h)
    requires m.world.boxes[k].(netId := e.netId, counter := e.counter, state := e.state) == e
    requires m.world.boxes[k].state != SlaRejected && e.state != SlaRejected
    requires m.history[k].(received := h.received) == h
    ensures Inv(Monitor(m.world.(boxes := m.world.boxes[k := e]), m.history[k := h], m.clock + 1))
  {
  }

  /** The same for a forward box, when no money has moved. */
  lemma ForwardBoxChange(m: Monitor, k: BoxRef, e: SlaEntry, h: History)
    requires Inv(m) && k in m.world.boxes
    requires ForwardOk(k, m.world.boxes[k], m.history[k]) && ForwardOk(k, e, h)
    requires m.world.boxes[k].(counter := e.counter, state := e.state) == e
    requires m.world.boxes[k].state == SlaRejected <==> e.state == SlaRejected
    requires h.origin == m.history[k].origin
    requires h.payments == m.history[k].payments && h.income == m.history[k].income
    ensures Inv(Monitor(m.world.(boxes := m.world.boxes[k := e]), m.history[k := h], m.clock + 1))
  {
    var m' := Monitor(m.world.(boxes := m.world.boxes[k := e]), m.history[k := h], m.clock + 1);
    forall kf, kh | Peer(m'.world.catalogue, kf, kh) && kf in m'.world.boxes && kh in m'.world.boxes
      ensures Agree(m'.world.boxes[kf], m'.history[kf], m'.world.boxes[kh], m'.history[kh])
    {
      assert Agree(m.world.boxes[kf], m.history[kf], m.world.boxes[kh], m.history[kh]);
    }
  }

  lemma ReceiveStep(m: Monitor, c: Call)
    requires Inv(m) && c.ReceivePacket?
    ensures Inv(Observe(m, c))
  {
    if Execute(m.world, c).Committed? {
      var k := HomeBox(c.self, c.netId);
      HomeBoxIsHome(m, c.self, c.netId);
      var e, h := m.world.boxes[k], m.history[k];
      HomeBoxChange(m, k, e.(netId := c.netId, counter := e.counter + 1), h.(received := h.received + 1));
    }
  }

  lemma BanStep(m: Monitor, c: Call)
    requires Inv(m) && c.BanHome?
    ensures Inv(Observe(m, c))
  {
    if Execute(m.world, c).Committed? {
      var k := HomeBox(c.self, c.netId);
      HomeBoxIsHome(m, c.self, c.netId);
      HomeBoxChange(m, k, m.world.boxes[k].(netId := c.netId, state := Banned), m.history[k]);
      assert m.history[k := m.history[k]] == m.history;
    }
  }

  lemma DeleteStep(m: Monitor, c: Call)
    requires Inv(m) && c.DeleteSla?
    ensures Inv(Observe(m, c))
  {
  }

  /** A call that leaves boxes and history alone. */
  lemma QuietStep(m: Monitor, c: Call)
    requires Inv(m) && WellFormed(m.world.catalogue, c)
    requires c.Init? || c.Transfer? || c.TopLevelHandshake? || c.TopLevelPay?
    ensures Inv(Observe(m, c))
    ensures c.TopLevelHandshake? || c.TopLevelPay? ==> Observe(m, c) == m
  {
  }

  /** The two boxes a well-formed sla_check of a listed provider concerns. */
  lemma CheckedBoxesArePeers(w: World, c: Call)
    requires c.SlaCheck? && WellFormed(w.catalogue, c)
    requires c.provider in w.catalogue && w.catalogue[c.provider].endpoint == c.self > 0
    ensures Peer(w.catalogue, ForwardBox(c.self, c.netIdHome),
                 HomeBox(c.endpointHome, w.catalogue[c.provider].netId))
  {
    var ah :| IsRow(w.catalogue, ah, c.netIdHome, c.endpointHome);
    assert PeerVia(w.catalogue, c.provider, ah, ForwardBox(c.self, c.netIdHome),
                   HomeBox(c.endpointHome, w.catalogue[c.provider].netId));
  }

  lemma CreateStep(m: Monitor, c: Call)
    requires Inv(m) && c.SlaCheck? && WellFormed(m.world.catalogue, c)
    requires ForwardBox(c.self, c.netIdHome) !in m.world.boxes
    ensures Inv(Observe(m, c))
  {
    if Execute(m.world, c).Committed? {
      BoxesAreCreated(m, c);
      CheckedBoxesArePeers(m.world, c);
      CreatedBoxesAgree(m, Observe(m, c), ForwardBox(c.self, c.netIdHome),
                        HomeBox(c.endpointHome, m.world.catalogue[c.provider].netId));
    }
  }

  /** The entry that a first check writes on either side, with the forwarder's offer. */
  function OfferedEntry(w: World, c: Call, netId: string, name: string): SlaEntry
    requires c.SlaCheck?
  {
    var offer := SettingsOf(w, c.self);
    var out := Negotiate(SettingsOf(w, c.endpointHome), offer.price, offer.threshold);
    SlaEntry(netId, name, out.state, offer.price, offer.threshold, 0, out.token, out.gwId)
  }

  lemma CreatedOutcome(w: World, c: Call)
    requires c.SlaCheck? && ForwardBox(c.self, c.netIdHome) !in w.boxes && Execute(w, c).Committed?
    ensures CallerVerified(w, c.self, c.endpointHome, c.catRef, c.provider)
    ensures var kf, kh := ForwardBox(c.self, c.netIdHome), HomeBox(c.endpointHome, w.catalogue[c.provider].netId);
            && kh !in w.boxes
            && Execute(w, c).world ==
               w.(boxes := w.boxes[kh := OfferedEntry(w, c, w.catalogue[c.provider].netId, w.catalogue[c.provider].name)]
                                  [kf := OfferedEntry(w, c, c.netIdHome, c.nameHome)])
  {
  }

  lemma OfferIsOk(w: World, c: Call, netId: string, name: string)
    requires WorldOk(w) && c.SlaCheck? && CallerVerified(w, c.self, c.endpointHome, c.catRef, c.provider)
    ensures var e := OfferedEntry(w, c, netId, name);
            && e.state in {ActiveSla, SlaRejected}
            && (e.state == ActiveSla ==> e.threshold > 0 && e.price > 0)
  {
  }

  lemma BoxesAreCreated(m: Monitor, c: Call)
    requires Inv(m) && c.SlaCheck? && WellFormed(m.world.catalogue, c)
    requires ForwardBox(c.self, c.netIdHome) !in m.world.boxes && Execute(m.world, c).Committed?
    ensures c.provider in m.world.catalogue && m.world.catalogue[c.provider].endpoint == c.self
    ensures var m' := Observe(m, c);
            var kf, kh := ForwardBox(c.self, c.netIdHome), HomeBox(c.endpointHome, m.world.catalogue[c.provider].netId);
            && kh !in m.world.boxes && WorldOk(m'.world) && Tracked(m')
            && m'.world.catalogue == m.world.catalogue
            && m'.world.boxes.Keys == m.world.boxes.Keys + {kf, kh}
            && (forall k :: k in m.world.boxes ==> m'.world.boxes[k] == m.world.boxes[k] && m'.history[k] == m.history[k])
            && Agree(m'.world.boxes[kf], m'.history[kf], m'.world.boxes[kh], m'.history[kh])
  {
    CreatedOutcome(m.world, c);
    var row := m.world.catalogue[c.provider];
    var kf, kh := ForwardBox(c.self, c.netIdHome), HomeBox(c.endpointHome, row.netId);
    CheckedBoxesArePeers(m.world, c);
    PeerIsUnique(m.world.catalogue, kf, kh, kf, kh);
    OfferIsOk(m.world, c, c.netIdHome, c.nameHome);
    OfferIsOk(m.world, c, row.netId, row.name);
    TwoBoxesCreated(m, Observe(m, c), kf, kh, OfferedEntry(m.world, c, c.netIdHome, c.nameHome),
                    OfferedEntry(m.world, c, row.netId, row.name));
    CreatedIsTracked(m, Observe(m, c), kf, kh);
  }

  lemma TwoBoxesCreated(m: Monitor, m': Monitor, kf: BoxRef, kh: BoxRef, ef: SlaEntry, eh: SlaEntry)
    requires Inv(m) && kf !in m.world.boxes && kh !in m.world.boxes && kf != kh
    requires m' == Monitor(m.world.(boxes := m.world.boxes[kh := eh][kf := ef]),
                           m.history[kh := HomeHistory(m.clock, 0, 0, 0, 0)][kf := ForwardHistory(m.clock, 0, 0, 0, 0, 0)],
                           m.clock + 1)
    requires kf == ForwardBox(kf.app, ef.netId) && kh == HomeBox(kh.app, eh.netId)
    requires eh == ef.(netId := eh.netId, name := eh.name) && ef.counter == 0
    requires ef.state in {ActiveSla, SlaRejected} && (ef.state == ActiveSla ==> ef.threshold > 0 && ef.price > 0)
    ensures WorldOk(m'.world) && m'.clock == m.clock + 1
    ensures m'.world.boxes.Keys == m.world.boxes.Keys + {kf, kh} == m'.history.Keys
    ensures forall k :: k in m.world.boxes ==> m'.world.boxes[k] == m.world.boxes[k] && m'.history[k] == m.history[k]
    ensures BoxOk(kf, m'.world.boxes[kf], m'.history[kf], m'.clock)
    ensures BoxOk(kh, m'.world.boxes[kh], m'.history[kh], m'.clock)
    ensures Agree(m'.world.boxes[kf], m'.history[kf], m'.world.boxes[kh], m'.history[kh])
  {
    assert ForwardOk(kf, ef, m'.history[kf]);
    assert HomeOk(kh, eh, m'.history[kh]);
  }

  lemma CreatedIsTracked(m: Monitor, m': Monitor, kf: BoxRef, kh: BoxRef)
    requires Tracked(m) && m.clock <= m'.clock
    requires m'.world.boxes.Keys == m.world.boxes.Keys + {kf, kh} == m'.history.Keys
    requires forall k :: k in m.world.boxes ==> m'.world.boxes[k] == m.world.boxes[k] && m'.history[k] == m.history[k]
    requires BoxOk(kf, m'.world.boxes[kf], m'.history[kf], m'.clock)
    requires BoxOk(kh, m'.world.boxes[kh], m'.history[kh], m'.clock)
    ensures Tracked(m')
  {
    forall k | k in m'.world.boxes && k != kf && k != kh
      ensures BoxOk(k, m'.world.boxes[k], m'.history[k], m'.clock)
    {
      assert BoxOk(k, m.world.boxes[k], m.history[k], m.clock);
    }
  }

  lemma CreatedBoxesAgree(m: Monitor, m': Monitor, kf: BoxRef, kh: BoxRef)
    requires Inv(m) && Peer(m.world.catalogue, kf, kh) && kf !in m.world.boxes && kh !in m.world.boxes
    requires m'.world.catalogue == m.world.catalogue && m'.history.Keys == m'.world.boxes.Keys
    requires m'.world.boxes.Keys == m.world.boxes.Keys + {kf, kh}
    requires forall k :: k in m.world.boxes ==> m'.world.boxes[k] == m.world.boxes[k] && m'.history[k] == m.history[k]
    requires Agree(m'.world.boxes[kf], m'.history[kf], m'.world.boxes[kh], m'.history[kh])
    ensures Agreed(m')
  {
    forall kf', kh' | Peer(m.world.catalogue, kf', kh') && kf' in m'.world.boxes && kh' in m'.world.boxes
      ensures Agree(m'.world.boxes[kf'], m'.history[kf'], m'.world.boxes[kh'], m'.history[kh'])
    {
      PeerIsUnique(m.world.catalogue, kf, kh, kf', kh');
      PeerIsUnique(m.world.catalogue, kf', kh', kf, kh);
      if kf != kf' {
        assert Agree(m.world.boxes[kf'], m.history[kf'], m.world.boxes[kh'], m.history[kh']);
      }
    }
  }

  /** Whether the payment call inside a settling sla_check commits, and whether it pays. */
  function HomePay(w: World, c: Call): Outcome
    requires c.SlaCheck?
  {
    if c.endpointHome == c.self then Aborted
    else PayOutcome(w, c.self, c.endpointHome, c.catRef, c.provider)
  }

  ghost predicate Settling(w: World, c: Call) {
    && c.SlaCheck?
    && Authorized(w, c.sender, c.self)
    && var k := ForwardBox(c.self, c.netIdHome);
       k in w.boxes && w.boxes[k].state == ActiveSla && w.boxes[k].counter == w.boxes[k].threshold
  }

  /** A settling check during which the home contract did not pay. */
  lemma UnpaidOutcome(w: World, c: Call)
    requires Settling(w, c) && HomePay(w, c) == Committed(w, NoReply)
    requires w.boxes[ForwardBox(c.self, c.netIdHome)].netId == c.netIdHome
    requires Execute(w, c).Committed?
    ensures var k := ForwardBox(c.self, c.netIdHome);
            var e := w.boxes[k];
            Execute(w, c) ==
            if MinPayment(e.price, SettingsOf(w, c.self).paymentTolerance) == 0
            then Committed(w.(boxes := w.boxes[k := e.(counter := 0)]), SlaOutput(Accept, e.token, e.gwId))
            else Committed(w.(boxes := w.boxes[k := e.(state := Banned)]), SlaOutput(Reject, e.token, e.gwId))
  {
  }

  /** The record of an sla_check that changes its forward box and nothing else. */
  lemma ForwardOnly(m: Monitor, c: Call, e: SlaEntry, reply: Reply, h: History)
    requires c.SlaCheck?
    requires var k := ForwardBox(c.self, c.netIdHome);
             && k in m.world.boxes
             && k in m.history && m.history[k].ForwardHistory?
             && var before := m.history[k];
                var reset := Reset(m.world.boxes[k], e, reply);
                h == before.(accepts := before.accepts + if reply.SlaOutput? && reply.state == Accept then 1 else 0,
                             resets := before.resets + if reset then 1 else 0,
                             waived := before.waived + if reset then 1 else 0)
    ensures var k := ForwardBox(c.self, c.netIdHome);
            var w := m.world.(boxes := m.world.boxes[k := e]);
            Recorded(m, c, Committed(w, reply)) == Monitor(w, m.history[k := h], m.clock + 1)
  {
  }

  /** The entry and the record of a forward box after a settlement without payment:
      a waived reset, or a ban. */
  ghost function UnpaidEntry(w: World, c: Call, e: SlaEntry): SlaEntry
    requires c.SlaCheck?
  {
    if MinPayment(e.price, SettingsOf(w, c.self).paymentTolerance) == 0 then e.(counter := 0) else e.(state := Banned)
  }

  ghost function UnpaidForward(w: World, c: Call, e: SlaEntry, h: History): History
    requires c.SlaCheck? && h.ForwardHistory?
  {
    if MinPayment(e.price, SettingsOf(w, c.self).paymentTolerance) == 0
    then h.(accepts := h.accepts + 1, resets := h.resets + 1, waived := h.waived + 1)
    else h
  }

  /** A forward box with a record of its own. */
  ghost predicate Recordable(m: Monitor, k: BoxRef) {
    k in m.world.boxes && k in m.history && ForwardOk(k, m.world.boxes[k], m.history[k])
  }

  lemma UnpaidRecorded(m: Monitor, c: Call, k: BoxRef)
    requires Settling(m.world, c) && k == ForwardBox(c.self, c.netIdHome) && Recordable(m, k)
    ensures var e, h := m.world.boxes[k], m.history[k];
            var w := m.world.(boxes := m.world.boxes[k := UnpaidEntry(m.world, c, e)]);
            var answer := if UnpaidEntry(m.world, c, e).state == Banned then Reject else Accept;
            Recorded(m, c, Committed(w, SlaOutput(answer, e.token, e.gwId))) ==
            Monitor(w, m.history[k := UnpaidForward(m.world, c, e, h)], m.clock + 1)
  {
    var e, h := m.world.boxes[k], m.history[k];
    var e' := UnpaidEntry(m.world, c, e);
    ForwardOnly(m, c, e', SlaOutput(if e'.state == Banned then Reject else Accept, e.token, e.gwId),
                UnpaidForward(m.world, c, e, h));
  }

  lemma UnpaidRecord(m: Monitor, c: Call, k: BoxRef)
    requires Settling(m.world, c) && k == ForwardBox(c.self, c.netIdHome) && Recordable(m, k)
    requires m.world.boxes[k].netId == c.netIdHome
    requires HomePay(m.world, c) == Committed(m.world, NoReply) && Execute(m.world, c).Committed?
    ensures var e, h := m.world.boxes[k], m.history[k];
            Observe(m, c) ==
            Monitor(m.world.(boxes := m.world.boxes[k := UnpaidEntry(m.world, c, e)]),
                    m.history[k := UnpaidForward(m.world, c, e, h)], m.clock + 1)
  {
    UnpaidOutcome(m.world, c);
    UnpaidRecorded(m, c, k);
  }

  lemma UnpaidSettleStep(m: Monitor, c: Call)
    requires Inv(m) && Settling(m.world, c) && HomePay(m.world, c) == Committed(m.world, NoReply)
    ensures Inv(Observe(m, c))
  {
    if Execute(m.world, c).Committed? {
      var k := ForwardBox(c.self, c.netIdHome);
      ForwardBoxIsForward(m, c.self, c.netIdHome);
      UnpaidRecord(m, c, k);
      UnpaidKeepsOk(m.world, c, k, m.world.boxes[k], m.history[k]);
      ForwardBoxChange(m, k, UnpaidEntry(m.world, c, m.world.boxes[k]),
                       UnpaidForward(m.world, c, m.world.boxes[k], m.history[k]));
    }
  }

  lemma UnpaidKeepsOk(w: World, c: Call, k: BoxRef, e: SlaEntry, h: History)
    requires c.SlaCheck? && ForwardOk(k, e, h) && e.state == ActiveSla && e.counter == e.threshold
    ensures ForwardOk(k, UnpaidEntry(w, c, e), UnpaidForward(w, c, e, h))
  {
    if MinPayment(e.price, SettingsOf(w, c.self).paymentTolerance) == 0 {
      SettledForward(e, h, UnpaidForward(w, c, e, h));
    }
  }

  /** A settling check during which the home contract paid. */
  lemma PaidOutcome(w: World, c: Call)
    requires WorldOk(w) && WellFormed(w.catalogue, c)
    requires Settling(w, c) && HomePay(w, c).Committed? && HomePay(w, c) != Committed(w, NoReply)
    requires w.boxes[ForwardBox(c.self, c.netIdHome)].netId == c.netIdHome
    requires Execute(w, c).Committed?
    ensures c.provider in w.catalogue && w.catalogue[c.provider].endpoint == c.self
    ensures var netIdForwarder := w.catalogue[c.provider].netId;
            var kf, kh := ForwardBox(c.self, c.netIdHome), HomeBox(c.endpointHome, netIdForwarder);
            && kh in w.boxes
            && kf != kh
            && PaysFor(w.boxes[kh], SettingsOf(w, c.endpointHome).tolerance)
            && CanTransfer(w.balances, Application(c.endpointHome), c.sender, w.boxes[kh].price)
            && (w.boxes[kf].price == w.boxes[kh].price ==>
                  Execute(w, c) ==
                  Committed(w.(balances := Transferred(w.balances, Application(c.endpointHome), c.sender,
                                                       w.boxes[kh].price),
                               boxes := w.boxes[kh := w.boxes[kh].(netId := netIdForwarder, counter := 0)]
                                               [kf := w.boxes[kf].(counter := 0)]),
                            SlaOutput(Accept, w.boxes[kf].token, w.boxes[kf].gwId)))
  {
    var kf, kh := ForwardBox(c.self, c.netIdHome), HomeBox(c.endpointHome, w.catalogue[c.provider].netId);
    BoxNamesAreInjective(c.netIdHome, w.catalogue[c.provider].netId);
    PaymentIsEnough(w.boxes[kf].price, SettingsOf(w, c.self).paymentTolerance);
  }

  /** What a settlement that the home side pays makes of the world. */
  ghost function PaidWorld(w: World, c: Call, kf: BoxRef, kh: BoxRef): World
    requires c.SlaCheck? && kf in w.boxes && kh in w.boxes
    requires CanTransfer(w.balances, Application(c.endpointHome), c.sender, w.boxes[kh].price)
  {
    w.(balances := Transferred(w.balances, Application(c.endpointHome), c.sender, w.boxes[kh].price),
       boxes := w.boxes[kh := w.boxes[kh].(counter := 0)][kf := w.boxes[kf].(counter := 0)])
  }

  function PaidForward(h: History, price: uint64): History
    requires h.ForwardHistory?
  {
    h.(accepts := h.accepts + 1, resets := h.resets + 1, payments := h.payments + 1, income := h.income + price)
  }

  function PaidHome(h: History, counter: uint64, price: uint64): History
    requires h.HomeHistory?
  {
    h.(consumed := h.consumed + counter, payments := h.payments + 1, outgo := h.outgo + price)
  }

  /** The two boxes of a settlement, and that the home side can fund it. */
  ghost predicate Payable(m: Monitor, c: Call, kf: BoxRef, kh: BoxRef) {
    && Settling(m.world, c)
    && c.provider == c.sender
    && c.provider in m.world.catalogue && m.world.catalogue[c.provider].endpoint == c.self
    && kf == ForwardBox(c.self, c.netIdHome)
    && kh == HomeBox(c.endpointHome, m.world.catalogue[c.provider].netId)
    && kh in m.world.boxes
    && CanTransfer(m.world.balances, Application(c.endpointHome), c.sender, m.world.boxes[kh].price)
  }

  lemma PayableBoxes(m: Monitor, c: Call, kf: BoxRef, kh: BoxRef)
    requires Inv(m) && WellFormed(m.world.catalogue, c) && Payable(m, c, kf, kh)
    ensures kf != kh && Peer(m.world.catalogue, kf, kh)
    ensures m.world.boxes[kh].netId == m.world.catalogue[c.provider].netId && m.world.boxes[kf].netId == c.netIdHome
    ensures ForwardOk(kf, m.world.boxes[kf], m.history[kf]) && HomeOk(kh, m.world.boxes[kh], m.history[kh])
    ensures Agree(m.world.boxes[kf], m.history[kf], m.world.boxes[kh], m.history[kh])
  {
    ForwardBoxIsForward(m, c.self, c.netIdHome);
    HomeBoxIsHome(m, c.endpointHome, m.world.catalogue[c.provider].netId);
    CheckedBoxesArePeers(m.world, c);
    PeerIsUnique(m.world.catalogue, kf, kh, kf, kh);
  }

  lemma PaidKeepsInv(m: Monitor, c: Call, kf: BoxRef, kh: BoxRef)
    requires Inv(m) && WellFormed(m.world.catalogue, c) && Payable(m, c, kf, kh)
    ensures var e := m.world.boxes[kf];
            Inv(Recorded(m, c, Committed(PaidWorld(m.world, c, kf, kh), SlaOutput(Accept, e.token, e.gwId))))
  {
    PayableBoxes(m, c, kf, kh);
    PaidRecorded(m, c, kf, kh);
    PaidBoxesAgree(m, c, kf, kh);
  }

  lemma PaidBoxesAgree(m: Monitor, c: Call, kf: BoxRef, kh: BoxRef)
    requires Inv(m) && WellFormed(m.world.catalogue, c) && Payable(m, c, kf, kh)
    requires kf != kh && Peer(m.world.catalogue, kf, kh)
    requires ForwardOk(kf, m.world.boxes[kf], m.history[kf]) && HomeOk(kh, m.world.boxes[kh], m.history[kh])
    requires Agree(m.world.boxes[kf], m.history[kf], m.world.boxes[kh], m.history[kh])
    ensures Inv(Monitor(PaidWorld(m.world, c, kf, kh),
                        m.history[kf := PaidForward(m.history[kf], m.world.boxes[kf].price)]
                                 [kh := PaidHome(m.history[kh], m.world.boxes[kh].counter, m.world.boxes[kf].price)],
                        m.clock + 1))
  {
    var ef, eh, hf, hh := m.world.boxes[kf], m.world.boxes[kh], m.history[kf], m.history[kh];
    var hf', hh' := PaidForward(hf, ef.price), PaidHome(hh, eh.counter, ef.price);
    PaidForwardOk(kf, ef, hf);
    PaidHomeOk(kh, eh, hh, ef.price);
    var m' := Monitor(PaidWorld(m.world, c, kf, kh), m.history[kf := hf'][kh := hh'], m.clock + 1);
    BothBoxesChange(m, m', kf, kh, ef.(counter := 0), hf', eh.(counter := 0), hh');
  }

  lemma PaidRecorded(m: Monitor, c: Call, kf: BoxRef, kh: BoxRef)
    requires WorldOk(m.world) && Payable(m, c, kf, kh) && kf != kh
    requires kf in m.history && kh in m.history && m.history[kf].ForwardHistory? && m.history[kh].HomeHistory?
    requires m.world.boxes[kf].price == m.world.boxes[kh].price > 0
    ensures var e := m.world.boxes[kf];
            Recorded(m, c, Committed(PaidWorld(m.world, c, kf, kh), SlaOutput(Accept, e.token, e.gwId))) ==
            Monitor(PaidWorld(m.world, c, kf, kh),
                    m.history[kf := PaidForward(m.history[kf], e.price)]
                             [kh := PaidHome(m.history[kh], m.world.boxes[kh].counter, e.price)],
                    m.clock + 1)
  {
    assert c.sender.User?;
  }

  /** What a settlement that the home side pays adds to the record of both boxes. */
  lemma PaidRecord(m: Monitor, c: Call)
    requires Inv(m) && WellFormed(m.world.catalogue, c) && Settling(m.world, c)
    requires HomePay(m.world, c).Committed? && HomePay(m.world, c) != Committed(m.world, NoReply)
    requires Execute(m.world, c).Committed?
    ensures c.provider in m.world.catalogue && m.world.catalogue[c.provider].endpoint == c.self
    ensures var kf := ForwardBox(c.self, c.netIdHome);
            var kh := HomeBox(c.endpointHome, m.world.catalogue[c.provider].netId);
            && Payable(m, c, kf, kh) && kf != kh
            && PaysFor(m.world.boxes[kh], SettingsOf(m.world, c.endpointHome).tolerance)
            && kf in m.history && kh in m.history
            && ForwardOk(kf, m.world.boxes[kf], m.history[kf]) && HomeOk(kh, m.world.boxes[kh], m.history[kh])
            && Observe(m, c) ==
               Monitor(PaidWorld(m.world, c, kf, kh),
                       m.history[kf := PaidForward(m.history[kf], m.world.boxes[kf].price)]
                                [kh := PaidHome(m.history[kh], m.world.boxes[kh].counter, m.world.boxes[kf].price)],
                       m.clock + 1)
            && Inv(Observe(m, c))
  {
    ForwardBoxIsForward(m, c.self, c.netIdHome);
    PaidOutcome(m.world, c);
    var kf, kh := ForwardBox(c.self, c.netIdHome), HomeBox(c.endpointHome, m.world.catalogue[c.provider].netId);
    PayableBoxes(m, c, kf, kh);
    PaidRecorded(m, c, kf, kh);
    PaidKeepsInv(m, c, kf, kh);
  }

  lemma BothBoxesChange(m: Monitor, m': Monitor, kf: BoxRef, kh: BoxRef,
                        ef: SlaEntry, hf: History, eh: SlaEntry, hh: History)
    requires Inv(m) && Peer(m.world.catalogue, kf, kh) && kf != kh
    requires kf in m.world.boxes && kh in m.world.boxes
    requires ForwardOk(kf, ef, hf) && HomeOk(kh, eh, hh) && Agree(ef, hf, eh, hh)
    requires hf.origin == m.history[kf].origin
    requires m' == Monitor(m.world.(balances := m'.world.balances, boxes := m.world.boxes[kh := eh][kf := ef]),
                           m.history[kf := hf][kh := hh], m.clock + 1)
    ensures Inv(m')
  {
    assert Agree(m.world.boxes[kf], m.history[kf], m.world.boxes[kh], m.history[kh]);
    forall kf', kh' | Peer(m.world.catalogue, kf', kh') && kf' in m'.world.boxes && kh' in m'.world.boxes
      ensures Agree(m'.world.boxes[kf'], m'.history[kf'], m'.world.boxes[kh'], m'.history[kh'])
    {
      PeerIsUnique(m.world.catalogue, kf, kh, kf', kh');
      PeerIsUnique(m.world.catalogue, kf', kh', kf, kh);
      assert Agree(m.world.boxes[kf'], m.history[kf'], m.world.boxes[kh'], m.history[kh']);
    }
  }

  /** A payment of the full price always meets the minimum, since tolerances are at most 100%. */
  lemma PaymentIsEnough(price: nat, paymentTolerance: nat)
    requires paymentTolerance <= 100
    ensures MinPayment(price, paymentTolerance) <= price
  {
    assert price * paymentTolerance <= price * 100;
  }

  lemma PaidForwardOk(k: BoxRef, e: SlaEntry, h: History)
    requires ForwardOk(k, e, h) && e.state == ActiveSla && e.counter == e.threshold
    ensures ForwardOk(k, e.(counter := 0), PaidForward(h, e.price))
  {
    SettledForward(e, h, PaidForward(h, e.price));
  }

  lemma PaidHomeOk(k: BoxRef, e: SlaEntry, h: History, price: uint64)
    requires HomeOk(k, e, h) && price == e.price
    ensures HomeOk(k, e.(counter := 0), PaidHome(h, e.counter, price))
  {
    SettledHome(e, h, PaidHome(h, e.counter, price));
  }

  lemma SettledForward(e: SlaEntry, h: History, h': History)
    requires h.ForwardHistory? && e.counter == e.threshold
    requires h.accepts == (e.threshold + 1) * h.resets + e.counter
    requires h.income == e.price * h.payments
    requires h'.ForwardHistory? && h'.accepts == h.accepts + 1 && h'.resets == h.resets + 1
    requires || (h'.payments == h.payments && h'.income == h.income)
             || (h'.payments == h.payments + 1 && h'.income == h.income + e.price)
    ensures h'.accepts == (e.threshold + 1) * h'.resets
    ensures h'.income == e.price * h'.payments
  {
  }

  lemma SettledHome(e: SlaEntry, h: History, h': History)
    requires h.HomeHistory? && h.received == h.consumed + e.counter && h.outgo == e.price * h.payments
    requires h' == h.(consumed := h.consumed + e.counter, payments := h.payments + 1, outgo := h.outgo + e.price)
    ensures h'.received == h'.consumed && h'.outgo == e.price * h'.payments
  {
  }

  lemma CountOutcome(w: World, c: Call)
    requires c.SlaCheck? && ForwardBox(c.self, c.netIdHome) in w.boxes && !Settling(w, c)
    requires w.boxes[ForwardBox(c.self, c.netIdHome)].netId == c.netIdHome
    requires Execute(w, c).Committed?
    ensures var k := ForwardBox(c.self, c.netIdHome);
            var e := w.boxes[k];
            Execute(w, c) ==
            if e.state == ActiveSla && e.counter < MAX_UINT64
            then Committed(w.(boxes := w.boxes[k := e.(counter := e.counter + 1)]), SlaOutput(Accept, e.token, e.gwId))
            else Committed(w.(boxes := w.boxes[k := e]), SlaOutput(Reject, e.token, e.gwId))
  {
    var k := ForwardBox(c.self, c.netIdHome);
    assert w.boxes[k := w.boxes[k]] == w.boxes;
  }

  ghost function CountedEntry(e: SlaEntry): SlaEntry {
    if e.state == ActiveSla && e.counter < MAX_UINT64 then e.(counter := e.counter + 1) else e
  }

  ghost function CountedForward(e: SlaEntry, h: History): History
    requires h.ForwardHistory?
  {
    if e.state == ActiveSla && e.counter < MAX_UINT64 then h.(accepts := h.accepts + 1) else h
  }

  lemma CountRecorded(m: Monitor, c: Call, k: BoxRef)
    requires c.SlaCheck? && k == ForwardBox(c.self, c.netIdHome) && Recordable(m, k)
    requires m.world.boxes[k].state == ActiveSla ==> m.world.boxes[k].counter != m.world.boxes[k].threshold
    ensures var e, h := m.world.boxes[k], m.history[k];
            var w := m.world.(boxes := m.world.boxes[k := CountedEntry(e)]);
            var answer := if CountedEntry(e) == e then Reject else Accept;
            Recorded(m, c, Committed(w, SlaOutput(answer, e.token, e.gwId))) ==
            Monitor(w, m.history[k := CountedForward(e, h)], m.clock + 1)
  {
    var e, h := m.world.boxes[k], m.history[k];
    ForwardOnly(m, c, CountedEntry(e), SlaOutput(if CountedEntry(e) == e then Reject else Accept, e.token, e.gwId),
                CountedForward(e, h));
  }

  /** What a check that does not settle adds to the record. */
  lemma CountRecord(m: Monitor, c: Call, k: BoxRef)
    requires c.SlaCheck? && k == ForwardBox(c.self, c.netIdHome) && Recordable(m, k)
    requires m.world.boxes[k].netId == c.netIdHome && !Settling(m.world, c)
    requires Execute(m.world, c).Committed?
    ensures m.world.boxes[k].state == ActiveSla ==> m.world.boxes[k].counter != m.world.boxes[k].threshold
    ensures var e, h := m.world.boxes[k], m.history[k];
            Observe(m, c) ==
            Monitor(m.world.(boxes := m.world.boxes[k := CountedEntry(e)]),
                    m.history[k := CountedForward(e, h)], m.clock + 1)
  {
    CommittedIsAuthorized(m.world, c);
    CountOutcome(m.world, c);
    CountRecorded(m, c, k);
  }

  lemma CountStep(m: Monitor, c: Call)
    requires Inv(m) && c.SlaCheck?
    requires ForwardBox(c.self, c.netIdHome) in m.world.boxes && !Settling(m.world, c)
    ensures Inv(Observe(m, c))
  {
    if Execute(m.world, c).Committed? {
      var k := ForwardBox(c.self, c.netIdHome);
      ForwardBoxIsForward(m, c.self, c.netIdHome);
      CountRecord(m, c, k);
      CountedIsOk(k, m.world.boxes[k], m.history[k]);
      ForwardBoxChange(m, k, CountedEntry(m.world.boxes[k]), CountedForward(m.world.boxes[k], m.history[k]));
    }
  }

  lemma CountedIsOk(k: BoxRef, e: SlaEntry, h: History)
    requires ForwardOk(k, e, h) && (e.state == ActiveSla ==> e.counter != e.threshold)
    ensures ForwardOk(k, CountedEntry(e), CountedForward(e, h))
  {
  }

  lemma CommittedIsAuthorized(w: World, c: Call)
    requires c.SlaCheck? && Execute(w, c).Committed?
    ensures Authorized(w, c.sender, c.self)
  {
  }

  lemma SlaCheckStep(m: Monitor, c: Call)
    requires Inv(m) && c.SlaCheck? && WellFormed(m.world.catalogue, c)
    ensures Inv(Observe(m, c))
  {
    var k := ForwardBox(c.self, c.netIdHome);
    if k !in m.world.boxes {
      CreateStep(m, c);
    } else if Settling(m.world, c) {
      if HomePay(m.world, c).Committed? {
        if HomePay(m.world, c) == Committed(m.world, NoReply) {
          UnpaidSettleStep(m, c);
        } else {
          if Execute(m.world, c).Committed? {
            PaidRecord(m, c);
          }
        }
      }
    } else {
      CountStep(m, c);
    }
  }

  lemma InvStep(m: Monitor, c: Call)
    requires Inv(m) && WellFormed(m.world.catalogue, c)
    ensures Inv(Observe(m, c))
  {
    match c
    case SlaCheck(_, _, _, _, _, _, _) => SlaCheckStep(m, c);
    case ReceivePacket(_, _, _) => ReceiveStep(m, c);
    case BanHome(_, _, _) => BanStep(m, c);
    case DeleteSla(_, _, _, _) => DeleteStep(m, c);
    case _ => QuietStep(m, c);
  }

  lemma SurroundingsStay(m: Monitor, c: Call)
    ensures var w, w' := m.world, Observe(m, c).world;
            w'.catalogue == w.catalogue && w'.creators == w.creators && w'.catalogueApp == w.catalogueApp
  {
    if Execute(m.world, c).Committed? {
      ExecuteKeepsSurroundings(m.world, c);
    }
  }

  lemma ExecuteKeepsSurroundings(w: World, c: Call)
    requires Execute(w, c).Committed?
    ensures var w' := Execute(w, c).world;
            w'.catalogue == w.catalogue && w'.creators == w.creators && w'.catalogueApp == w.catalogueApp
  {
    if c.SlaCheck? {
      SlaCheckKeepsSurroundings(w, c);
    }
  }

  lemma SlaCheckKeepsSurroundings(w: World, c: Call)
    requires c.SlaCheck? && SlaCheckOutcome(w, c).Committed?
    ensures var w' := SlaCheckOutcome(w, c).world;
            w'.catalogue == w.catalogue && w'.creators == w.creators && w'.catalogueApp == w.catalogueApp
  {
    if ForwardBox(c.self, c.netIdHome) in w.boxes {
      if Settling(w, c) {
        assert SlaCheckOutcome(w, c) == SettleOutcome(w, c);
        PayKeepsSurroundings(w, c.self, c.endpointHome, c.catRef, c.provider);
      }
    }
  }

  lemma PayKeepsSurroundings(w: World, caller: AppId, self: AppId, catRef: AppId, provider: Account)
    ensures var out := PayOutcome(w, caller, self, catRef, provider);
            out.Committed? ==>
              && out.world.catalogue == w.catalogue && out.world.creators == w.creators
              && out.world.catalogueApp == w.catalogueApp
  {
  }

  lemma {:induction false} InvRun(m: Monitor, calls: seq<Call>)
    requires Inv(m) && AllWellFormed(m.world.catalogue, calls)
    ensures Inv(Run(m, calls))
    ensures Run(m, calls).world.catalogue == m.world.catalogue
    decreases |calls|
  {
    if calls != [] {
      InvStep(m, calls[0]);
      SurroundingsStay(m, calls[0]);
      assert forall i :: 0 <= i < |calls[1..]| ==> calls[1..][i] == calls[i + 1];
      InvRun(Observe(m, calls[0]), calls[1..]);
    }
  }
}
