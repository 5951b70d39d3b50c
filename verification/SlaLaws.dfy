/**
 What each call of the contract does, stated from outside: when it commits, and how
 settings, boxes and balances differ afterwards, down to the percentages.
 */
module SlaLaws {
  import opened SlaContract
  import opened SlaHistory

  // ----- settings

  /** `init` for `app` by its creator, with a catalogue, a price and a threshold that are
      not 0 and with percentages up to 100. */
  ghost predicate Sets(creators: map<AppId, Account>, c: Call, app: AppId) {
    && c.Init? && c.self == app && app in creators && creators[app] == c.sender
    && c.settings.catalogue != 0 && c.settings.price != 0 && c.settings.threshold != 0
    && c.settings.tolerance <= 100 && c.settings.paymentTolerance <= 100
  }

  lemma OneCallSets(m: Monitor, c: Call, app: AppId)
    ensures SettingsOf(Observe(m, c).world, app) ==
            if Sets(m.world.creators, c, app) then c.settings else SettingsOf(m.world, app)
    ensures c.Init? && Sets(m.world.creators, c, c.self) <==> c.Init? && Execute(m.world, c).Committed?
  {
    if c.SlaCheck? {
      assert Execute(m.world, c) == SlaCheckOutcome(m.world, c);
    }
  }

  /** In every run the settings are those of the last such `init`, in full. */
  lemma {:induction false} SettingsAreTheLastGiven(m: Monitor, calls: seq<Call>, app: AppId, last: int)
    requires -1 <= last < |calls| && (last >= 0 ==> Sets(m.world.creators, calls[last], app))
    requires forall i :: last < i < |calls| ==> !Sets(m.world.creators, calls[i], app)
    ensures SettingsOf(Run(m, calls).world, app) == if last >= 0 then calls[last].settings else SettingsOf(m.world, app)
    decreases |calls|
  {
    if calls != [] {
      var rest := calls[1..];
      OneCallSets(m, calls[0], app);
      SurroundingsStay(m, calls[0]);
      assert forall i :: 0 <= i < |rest| ==> rest[i] == calls[i + 1];
      SettingsAreTheLastGiven(Observe(m, calls[0]), rest, app, if last > 0 then last - 1 else -1);
    }
  }

  // ----- payments

  /** `amount` has moved, and no other balance has changed. */
  ghost predicate Moved(before: map<Account, uint64>, after: map<Account, uint64>,
                        from: Account, to: Account, amount: uint64) {
    forall a :: Balance(after, a) ==
                Balance(before, a) - (if a == from then amount else 0) + (if a == to then amount else 0)
  }

  /** Whether the account can pay and the receiver's balance stays within uint64. */
  predicate Fundable(w: World, from: Account, to: Account, amount: uint64) {
    amount <= Balance(w.balances, from) && (from != to ==> Balance(w.balances, to) + amount <= MAX_UINT64)
  }

  /** `pay` moves exactly the price and empties the counter if and only if the box is
      active and has counted `tolerance` percent of the threshold, rounded down; it aborts
      if it then cannot pay, and otherwise changes nothing. */
  lemma PaysIffCountedEnough(w: World, caller: AppId, self: AppId, catRef: AppId, provider: Account)
    requires CallerVerified(w, caller, self, catRef, provider)
    requires HomeBox(self, w.catalogue[provider].netId) in w.boxes
    requires w.boxes[HomeBox(self, w.catalogue[provider].netId)].threshold * SettingsOf(w, self).tolerance <= MAX_UINT64
    ensures var k := HomeBox(self, w.catalogue[provider].netId);
            var e, out := w.boxes[k], PayOutcome(w, caller, self, catRef, provider);
            var earned := e.state == ActiveSla && 100 * (e.counter + 1) > e.threshold * SettingsOf(w, self).tolerance;
            if !earned then out == Committed(w, NoReply)
            else if !Fundable(w, Application(self), provider, e.price) then out == Aborted
            else
              && out.Committed? && out.reply == NoReply
              && Moved(w.balances, out.world.balances, Application(self), provider, e.price)
              && out.world == w.(balances := out.world.balances, boxes := out.world.boxes)
              && out.world.boxes == w.boxes[k := e.(netId := w.catalogue[provider].netId, counter := 0)]
  {
  }

  /** Which calls of `pay` and `handshake` get that far: the catalogue is the one both
      sides know, and the calling contract is the one it lists for the provider. */
  lemma PayNeedsItsCaller(w: World, caller: AppId, self: AppId, catRef: AppId, provider: Account)
    ensures PayOutcome(w, caller, self, catRef, provider).Committed? ==>
              && self in w.creators && catRef == w.catalogueApp == SettingsOf(w, self).catalogue
              && provider in w.catalogue && w.catalogue[provider].endpoint == caller
              && HomeBox(self, w.catalogue[provider].netId) in w.boxes
  {
  }

  /** `handshake` commits exactly for such a caller without a home box, and answers with
      the state it has opened the box in, "None" standing for token and gateway of a
      rejected one. */
  lemma HandshakeOpensABox(w: World, caller: AppId, self: AppId, catRef: AppId, provider: Account,
                           price: uint64, threshold: uint64)
    ensures var out := HandshakeOutcome(w, caller, self, catRef, provider, price, threshold);
            var g := SettingsOf(w, self);
            var accepted := price <= g.price && g.threshold <= threshold;
            && (out.Committed? <==>
                  && self in w.creators && catRef == w.catalogueApp == g.catalogue
                  && provider in w.catalogue && w.catalogue[provider].endpoint == caller
                  && HomeBox(self, w.catalogue[provider].netId) !in w.boxes)
            && (out.Committed? ==>
                  var item := w.catalogue[provider];
                  && out.reply == (if accepted then SlaOutput(ActiveSla, g.token, g.gwId)
                                   else SlaOutput(SlaRejected, "None", "None"))
                  && out.world == w.(boxes := out.world.boxes)
                  && out.world.boxes ==
                     w.boxes[HomeBox(self, item.netId) :=
                       SlaEntry(item.netId, item.name, out.reply.state, price, threshold, 0,
                                out.reply.token, out.reply.gwId)])
  {
  }

  // ----- calls of the creator

  /** Only the creator's calls commit; `receive_packet_from_forwarder` and
      `ban_home_function` need an active home box, `deleteSLA` any box of either kind. */
  lemma CreatorCallsCommitIff(w: World, c: Call)
    requires c.ReceivePacket? || c.BanHome? || c.DeleteSla?
    ensures Execute(w, c).Committed? <==>
            && c.self in w.creators && w.creators[c.self] == c.sender
            && (c.DeleteSla? ==>
                  (c.typeOp == "_forward_box" || c.typeOp == "_home_box") && BoxRef(c.self, c.netId + c.typeOp) in w.boxes)
            && (!c.DeleteSla? ==>
                  var k := BoxRef(c.self, c.netId + "_home_box");
                  && k in w.boxes && w.boxes[k].state == ActiveSla
                  && (c.ReceivePacket? ==> w.boxes[k].counter < MAX_UINT64))
  {
  }

  // ----- checks

  /** Nobody but the creator of a contract can check. */
  lemma CheckNeedsItsCreator(w: World, c: Call)
    requires c.SlaCheck? && Execute(w, c).Committed?
    ensures c.self in w.creators && w.creators[c.self] == c.sender
  {
  }

  /** No contract negotiates or settles with itself. */
  lemma NoSlaWithItself(w: World, c: Call)
    requires c.SlaCheck? && c.endpointHome == c.self
    requires ForwardBox(c.self, c.netIdHome) !in w.boxes || Settling(w, c)
    ensures Execute(w, c) == Aborted
  {
  }

  /** Below the threshold an active box counts the packet and accepts it; any other box rejects. */
  lemma CheckBelowTheThreshold(w: World, c: Call)
    requires c.SlaCheck? && c.self in w.creators && w.creators[c.self] == c.sender
    requires var k := ForwardBox(c.self, c.netIdHome);
             && k in w.boxes && w.boxes[k].netId == c.netIdHome
             && (w.boxes[k].state == ActiveSla ==> w.boxes[k].counter < w.boxes[k].threshold)
    ensures var k := ForwardBox(c.self, c.netIdHome);
            var e := w.boxes[k];
            Execute(w, c) ==
            if e.state == ActiveSla
            then Committed(w.(boxes := w.boxes[k := e.(counter := e.counter + 1)]), SlaOutput(Accept, e.token, e.gwId))
            else Committed(w, SlaOutput(Reject, e.token, e.gwId))
  {
  }

  /** At the threshold the check asks the home contract to pay. It accepts and starts to
      count anew if at least `paymentTolerance` percent of the price have arrived, rounded
      down, and bans otherwise. */
  lemma CheckAtTheThreshold(w: World, c: Call)
    requires Settling(w, c) && HomePay(w, c).Committed? && Execute(w, c).Committed?
    requires ForwardBox(c.self, c.netIdHome) in HomePay(w, c).world.boxes
    ensures var k := ForwardBox(c.self, c.netIdHome);
            var e, paid := w.boxes[k], HomePay(w, c).world;
            var arrived := Balance(paid.balances, c.sender) - Balance(w.balances, c.sender);
            var enough := 100 * (arrived + 1) > e.price * SettingsOf(w, c.self).paymentTolerance;
            && Execute(w, c).reply == SlaOutput(if enough then Accept else Reject, e.token, e.gwId)
            && Execute(w, c).world == paid.(boxes := paid.boxes[k :=
                 if enough then e.(netId := c.netIdHome, counter := 0) else e.(netId := c.netIdHome, state := Banned)])
  {
  }
}
