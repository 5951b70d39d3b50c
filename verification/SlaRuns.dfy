/**
 Guarantees that span many calls: what a forwarder still answers after the home
 provider stopped paying, which boxes are frozen, how many accepted packets can
 remain unpaid, and that no run creates or destroys money.
 */
module SlaRuns {
  import opened SlaContract
  import opened SlaHistory
  import opened SlaGuarantees
  import MapSum

  // ----- a home side that has stopped paying

  ghost predicate Deletes(c: Call, k: BoxRef) {
    c.DeleteSla? && k == BoxRef(c.self, c.netId + c.typeOp)
  }

  /** Any new settings of `app` still make `price` worth verifying. */
  ghost predicate KeepsMinimum(c: Call, app: AppId, price: uint64) {
    c.Init? && c.self == app ==> MinPayment(price, c.settings.paymentTolerance) > 0
  }

  ghost predicate NoDeletion(calls: seq<Call>, k: BoxRef) {
    forall i :: 0 <= i < |calls| ==> !Deletes(calls[i], k)
  }

  ghost predicate AllKeepMinimum(calls: seq<Call>, app: AppId, price: uint64) {
    forall i :: 0 <= i < |calls| ==> KeepsMinimum(calls[i], app, price)
  }

  /** The home box is gone, banned or rejected while the forward box still exists. */
  ghost predicate Stalled(m: Monitor, kf: BoxRef, kh: BoxRef) {
    && kf in m.world.boxes && kf in m.history && m.history[kf].ForwardHistory?
    && Peer(m.world.catalogue, kf, kh)
    && (kh in m.world.boxes ==> m.world.boxes[kh].state != ActiveSla)
    && MinPayment(m.world.boxes[kf].price, SettingsOf(m.world, kf.app).paymentTolerance) > 0
  }

  /** How often the forwarder will still answer "Accept" before it has to settle. */
  function Room(e: SlaEntry): int {
    if e.state == ActiveSla then e.threshold - e.counter else 0
  }

  ghost predicate NoWorse(m: Monitor, m': Monitor, kf: BoxRef)
    requires kf in m.world.boxes && kf in m.history && m.history[kf].ForwardHistory?
  {
    && kf in m'.world.boxes && kf in m'.history && m'.history[kf].ForwardHistory?
    && m'.history[kf].accepts + Room(m'.world.boxes[kf]) == m.history[kf].accepts + Room(m.world.boxes[kf])
    && m.history[kf].accepts <= m'.history[kf].accepts
    && m'.history[kf].payments == m.history[kf].payments
    && m'.history[kf].income == m.history[kf].income
    && m'.world.boxes[kf].price == m.world.boxes[kf].price
    && m'.world.boxes[kf].threshold == m.world.boxes[kf].threshold
    && (m.world.boxes[kf].state != ActiveSla ==> m'.world.boxes[kf] == m.world.boxes[kf])
  }

  lemma OwnCheckWhenStalled(m: Monitor, c: Call, kf: BoxRef, kh: BoxRef)
    requires Inv(m) && Stalled(m, kf, kh)
    requires c.SlaCheck? && WellFormed(m.world.catalogue, c) && kf == ForwardBox(c.self, c.netIdHome)
    ensures Stalled(Observe(m, c), kf, kh) && NoWorse(m, Observe(m, c), kf)
    ensures Settling(m.world, c) && Execute(m.world, c).Committed? ==>
              Observe(m, c).world.boxes[kf].state == Banned
  {
    if Execute(m.world, c).Committed? {
      ForwardBoxIsForward(m, c.self, c.netIdHome);
      if Settling(m.world, c) {
        StalledHomeDoesNotPay(m, c, kf, kh);
        UnpaidRecord(m, c, kf);
      } else {
        CountRecord(m, c, kf);
      }
      PeerIsUnique(m.world.catalogue, kf, kh, kf, kh);
    }
  }

  lemma StalledHomeDoesNotPay(m: Monitor, c: Call, kf: BoxRef, kh: BoxRef)
    requires Inv(m) && Stalled(m, kf, kh)
    requires WellFormed(m.world.catalogue, c) && Settling(m.world, c) && kf == ForwardBox(c.self, c.netIdHome)
    ensures HomePay(m.world, c).Committed? ==> HomePay(m.world, c) == Committed(m.world, NoReply)
  {
    if HomePay(m.world, c).Committed? {
      CheckedBoxesArePeers(m.world, c);
      PeerIsUnique(m.world.catalogue, kf, kh, kf, HomeBox(c.endpointHome, m.world.catalogue[c.provider].netId));
    }
  }

  /** A call that leaves the forward box alone and does not revive the home box. */
  lemma StaysStalled(m: Monitor, m': Monitor, kf: BoxRef, kh: BoxRef)
    requires Stalled(m, kf, kh) && Untouched(m, m', kf) && m'.world.catalogue == m.world.catalogue
    requires kh in m'.world.boxes ==> kh in m.world.boxes && m'.world.boxes[kh].state == m.world.boxes[kh].state
    requires MinPayment(m.world.boxes[kf].price, SettingsOf(m'.world, kf.app).paymentTolerance) > 0
    ensures Stalled(m', kf, kh) && NoWorse(m, m', kf)
  {
  }

  lemma OtherCheckWhenStalled(m: Monitor, c: Call, kf: BoxRef, kh: BoxRef)
    requires Inv(m) && Stalled(m, kf, kh)
    requires c.SlaCheck? && WellFormed(m.world.catalogue, c) && kf != ForwardBox(c.self, c.netIdHome)
    ensures Stalled(Observe(m, c), kf, kh) && NoWorse(m, Observe(m, c), kf)
  {
    if Execute(m.world, c).Committed? {
      CommittedIsAuthorized(m.world, c);
      OtherCheckConcernsNeither(m.world, c, kf, kh);
      CheckLeavesOthers(m, c, kf);
      CheckLeavesOthers(m, c, kh);
      SurroundingsStay(m, c);
      CheckKeepsSettings(m.world, c);
      StaysStalled(m, Observe(m, c), kf, kh);
    }
  }

  lemma OtherCheckConcernsNeither(w: World, c: Call, kf: BoxRef, kh: BoxRef)
    requires WorldOk(w) && c.SlaCheck? && WellFormed(w.catalogue, c) && Authorized(w, c.sender, c.self)
    requires Peer(w.catalogue, kf, kh) && kf != ForwardBox(c.self, c.netIdHome)
    ensures !Concerns(w, c, kf) && !Concerns(w, c, kh)
  {
    var af, ah :| PeerVia(w.catalogue, af, ah, kf, kh);
    BoxNamesAreInjective(c.netIdHome, w.catalogue[af].netId);
    if c.provider in w.catalogue && w.catalogue[c.provider].endpoint == c.self {
      BoxNamesAreInjective(w.catalogue[ah].netId, w.catalogue[c.provider].netId);
      CheckedBoxesArePeers(w, c);
      PeerIsUnique(w.catalogue, kf, kh, ForwardBox(c.self, c.netIdHome),
                   HomeBox(c.endpointHome, w.catalogue[c.provider].netId));
    }
  }

  lemma CheckKeepsSettings(w: World, c: Call)
    requires c.SlaCheck?
    ensures Execute(w, c).Committed? ==> Execute(w, c).world.globals == w.globals
  {
  }

  lemma HomeCallWhenStalled(m: Monitor, c: Call, kf: BoxRef, kh: BoxRef)
    requires Inv(m) && Stalled(m, kf, kh) && WellFormed(m.world.catalogue, c) && !c.SlaCheck?
    requires !Deletes(c, kf) && KeepsMinimum(c, kf.app, m.world.boxes[kf].price)
    ensures Stalled(Observe(m, c), kf, kh) && NoWorse(m, Observe(m, c), kf)
  {
    if c.ReceivePacket? || c.BanHome? {
      var af, ah :| PeerVia(m.world.catalogue, af, ah, kf, kh);
      BoxNamesAreInjective(m.world.catalogue[ah].netId, c.netId);
      HomeCallLeavesOthers(m, c, kf);
      HomeCallLeavesOthers(m, c, kh);
    } else {
      QuietOrDelete(m, c);
    }
    SurroundingsStay(m, c);
    SettingsKeepMinimum(m, c, kf.app, m.world.boxes[kf].price);
    StaysStalled(m, Observe(m, c), kf, kh);
  }

  /** Receiving and banning touch one box at most, and only an active one. */
  lemma HomeCallLeavesOthers(m: Monitor, c: Call, k: BoxRef)
    requires c.ReceivePacket? || c.BanHome?
    requires k == HomeBox(c.self, c.netId) ==> k in m.world.boxes ==> m.world.boxes[k].state != ActiveSla
    ensures Untouched(m, Observe(m, c), k)
  {
  }

  lemma SettingsKeepMinimum(m: Monitor, c: Call, app: AppId, price: uint64)
    requires !c.SlaCheck? && KeepsMinimum(c, app, price)
    requires MinPayment(price, SettingsOf(m.world, app).paymentTolerance) > 0
    ensures MinPayment(price, SettingsOf(Observe(m, c).world, app).paymentTolerance) > 0
  {
  }

  lemma StalledStep(m: Monitor, c: Call, kf: BoxRef, kh: BoxRef)
    requires Inv(m) && Stalled(m, kf, kh) && WellFormed(m.world.catalogue, c)
    requires !Deletes(c, kf) && KeepsMinimum(c, kf.app, m.world.boxes[kf].price)
    ensures Stalled(Observe(m, c), kf, kh) && NoWorse(m, Observe(m, c), kf)
  {
    if c.SlaCheck? {
      if kf == ForwardBox(c.self, c.netIdHome) {
        OwnCheckWhenStalled(m, c, kf, kh);
      } else {
        OtherCheckWhenStalled(m, c, kf, kh);
      }
    } else {
      HomeCallWhenStalled(m, c, kf, kh);
    }
  }

  lemma QuietOrDelete(m: Monitor, c: Call)
    requires Inv(m) && WellFormed(m.world.catalogue, c) && !c.SlaCheck? && !c.ReceivePacket? && !c.BanHome?
    ensures var m' := Observe(m, c);
            && (!c.DeleteSla? ==> m'.world.boxes == m.world.boxes && m'.history == m.history)
            && (c.DeleteSla? ==> forall k :: !Deletes(c, k) ==> Untouched(m, m', k))
            && (c.DeleteSla? ==> forall k :: Deletes(c, k) && k !in m.world.boxes ==> k !in m'.world.boxes)
  {
  }

  /** A stalled check without room left commits and ends in a ban, if only the home
      contract answers it and the verification fits uint64. */
  lemma NoRoomEndsInBan(m: Monitor, c: Call, kf: BoxRef, kh: BoxRef)
    requires Inv(m) && Stalled(m, kf, kh) && WellFormed(m.world.catalogue, c)
    requires Settling(m.world, c) && kf == ForwardBox(c.self, c.netIdHome)
    requires PayIsDecided(m.world, c) && VerificationFits(m.world, c, m.world.boxes[kf].price)
    ensures BecomesBanned(m.world, c) && Execute(m.world, c).reply.state == Reject
  {
    CheckedBoxesArePeers(m.world, c);
    PeerIsUnique(m.world.catalogue, kf, kh, kf, HomeBox(c.endpointHome, m.world.catalogue[c.provider].netId));
    ForwardBoxIsForward(m, c.self, c.netIdHome);
    DecidedCheckCommits(m, c);
    UnpaidOutcome(m.world, c);
  }

  /** From a state in which the home side no longer pays, whatever calls follow, the
      forwarder answers "Accept" at most as often as its counter had room for and
      receives nothing more. */
  lemma {:induction false} StalledRun(m: Monitor, calls: seq<Call>, kf: BoxRef, kh: BoxRef)
    requires Inv(m) && Stalled(m, kf, kh) && AllWellFormed(m.world.catalogue, calls)
    requires NoDeletion(calls, kf) && AllKeepMinimum(calls, kf.app, m.world.boxes[kf].price)
    ensures var m' := Run(m, calls); Stalled(m', kf, kh) && NoWorse(m, m', kf)
    decreases |calls|
  {
    if calls != [] {
      var m1, rest := Observe(m, calls[0]), calls[1..];
      StalledStep(m, calls[0], kf, kh);
      InvStep(m, calls[0]);
      SurroundingsStay(m, calls[0]);
      assert forall i :: 0 <= i < |rest| ==> rest[i] == calls[i + 1];
      StalledRun(m1, rest, kf, kh);
    }
  }

  /** A check of the box `kf` at its threshold that the home contract answers. */
  ghost predicate IsLastCheck(w: World, c: Call, kf: BoxRef) {
    && WellFormed(w.catalogue, c) && Settling(w, c) && kf == ForwardBox(c.self, c.netIdHome)
    && PayIsDecided(w, c) && VerificationFits(w, c, w.boxes[kf].price)
  }

  /** The same, started by the home provider banning the forwarder; and once no room is
      left, the next check bans in return. */
  lemma AfterHomeBan(m: Monitor, ban: Call, calls: seq<Call>, kf: BoxRef, kh: BoxRef)
    requires Inv(m) && Peer(m.world.catalogue, kf, kh) && kf in m.world.boxes
    requires ban.BanHome? && kh == HomeBox(ban.self, ban.netId) && Execute(m.world, ban).Committed?
    requires MinPayment(m.world.boxes[kf].price, SettingsOf(m.world, kf.app).paymentTolerance) > 0
    requires AllWellFormed(m.world.catalogue, calls) && NoDeletion(calls, kf)
    requires AllKeepMinimum(calls, kf.app, m.world.boxes[kf].price)
    ensures var m' := Run(Observe(m, ban), calls);
            && kf in m'.world.boxes && kf in m'.history && kf in m.history
            && m'.history[kf].ForwardHistory? && m.history[kf].ForwardHistory?
            && m'.history[kf].accepts - m.history[kf].accepts
               == Room(m.world.boxes[kf]) - Room(m'.world.boxes[kf])
            && 0 <= Room(m'.world.boxes[kf]) <= Room(m.world.boxes[kf])
            && m'.history[kf].income == m.history[kf].income
    ensures var m' := Run(Observe(m, ban), calls);
            forall c: Call :: IsLastCheck(m'.world, c, kf) ==> BecomesBanned(m'.world, c)
  {
    var m1 := Observe(m, ban);
    var af, ah :| PeerVia(m.world.catalogue, af, ah, kf, kh);
    ForwardBoxIsForward(m, kf.app, m.world.catalogue[ah].netId);
    PeerIsUnique(m.world.catalogue, kf, kh, kf, kh);
    InvStep(m, ban);
    SurroundingsStay(m, ban);
    StalledRun(m1, calls, kf, kh);
    InvRun(m1, calls);
    var m' := Run(m1, calls);
    ForwardBoxIsForward(m', kf.app, m.world.catalogue[ah].netId);
    forall c: Call | IsLastCheck(m'.world, c, kf)
      ensures BecomesBanned(m'.world, c)
    {
      NoRoomEndsInBan(m', c, kf, kh);
    }
  }

  // ----- frozen boxes

  lemma FrozenStep(m: Monitor, c: Call, k: BoxRef)
    requires Inv(m) && WellFormed(m.world.catalogue, c)
    requires k in m.world.boxes && m.world.boxes[k].state != ActiveSla && !Deletes(c, k)
    ensures Untouched(m, Observe(m, c), k)
  {
    if c.SlaCheck? {
      if !Concerns(m.world, c, k) {
        CheckLeavesOthers(m, c, k);
      } else if Execute(m.world, c).Committed? {
        FrozenCheck(m, c, k);
      }
    } else if c.ReceivePacket? || c.BanHome? {
    } else {
      QuietOrDelete(m, c);
    }
  }

  lemma FrozenCheck(m: Monitor, c: Call, k: BoxRef)
    requires Inv(m) && c.SlaCheck? && WellFormed(m.world.catalogue, c) && Concerns(m.world, c, k)
    requires k in m.world.boxes && m.world.boxes[k].state != ActiveSla && Execute(m.world, c).Committed?
    ensures Untouched(m, Observe(m, c), k)
  {
    var kf := ForwardBox(c.self, c.netIdHome);
    if kf in m.world.boxes {
      ForwardBoxIsForward(m, c.self, c.netIdHome);
      if !Settling(m.world, c) {
        CountRecord(m, c, kf);
      } else {
        assert HomePay(m.world, c) == Committed(m.world, NoReply);
        UnpaidRecord(m, c, kf);
      }
    }
  }

  /** A banned or rejected box, on either side, keeps its contents and its history
      until somebody deletes it. */
  lemma {:induction false} FrozenUntilDeleted(m: Monitor, calls: seq<Call>, k: BoxRef)
    requires Inv(m) && AllWellFormed(m.world.catalogue, calls)
    requires k in m.world.boxes && m.world.boxes[k].state != ActiveSla && NoDeletion(calls, k)
    ensures Untouched(m, Run(m, calls), k)
    decreases |calls|
  {
    if calls != [] {
      var rest := calls[1..];
      FrozenStep(m, calls[0], k);
      InvStep(m, calls[0]);
      SurroundingsStay(m, calls[0]);
      assert forall i :: 0 <= i < |rest| ==> rest[i] == calls[i + 1];
      FrozenUntilDeleted(Observe(m, calls[0]), rest, k);
    }
  }

  // ----- no reset without payment

  /** `app` is only ever initialised with at least this price and payment tolerance. */
  ghost predicate PricedAtLeast(calls: seq<Call>, app: AppId, price: nat, paymentTolerance: nat) {
    forall i :: 0 <= i < |calls| && calls[i].Init? && calls[i].self == app ==>
      price <= calls[i].settings.price && paymentTolerance <= calls[i].settings.paymentTolerance
  }

  ghost predicate NothingWaivedAt(m: Monitor, k: BoxRef, price: nat) {
    k in m.world.boxes && k in m.history && m.history[k].ForwardHistory? ==>
      && m.history[k].waived == 0
      && (m.world.boxes[k].state != SlaRejected ==> price <= m.world.boxes[k].price && k.app in m.world.globals)
  }

  ghost predicate NothingWaived(m: Monitor, app: AppId, price: nat, paymentTolerance: nat) {
    && (app in m.world.globals ==>
          price <= m.world.globals[app].price && paymentTolerance <= m.world.globals[app].paymentTolerance)
    && forall k: BoxRef :: k.app == app ==> NothingWaivedAt(m, k, price)
  }

  lemma MinPaymentIsMonotone(p: nat, t: nat, p': nat, t': nat)
    requires p <= p' && t <= t' && p * t >= 100
    ensures MinPayment(p', t') > 0
  {
    assert p * t <= p' * t <= p' * t';
  }

  lemma SettledWithPayment(m: Monitor, c: Call, price: nat, paymentTolerance: nat)
    requires Inv(m) && WellFormed(m.world.catalogue, c) && Settling(m.world, c) && Execute(m.world, c).Committed?
    requires NothingWaived(m, c.self, price, paymentTolerance) && price * paymentTolerance >= 100
    ensures NothingWaivedAt(Observe(m, c), ForwardBox(c.self, c.netIdHome), price)
  {
    var k := ForwardBox(c.self, c.netIdHome);
    ForwardBoxIsForward(m, c.self, c.netIdHome);
    assert NothingWaivedAt(m, k, price);
    if HomePay(m.world, c) == Committed(m.world, NoReply) {
      UnpaidRecord(m, c, k);
      MinPaymentIsMonotone(price, paymentTolerance, m.world.boxes[k].price,
                           SettingsOf(m.world, c.self).paymentTolerance);
    } else {
      PaidRecord(m, c);
    }
  }

  lemma CheckedWithoutWaiver(m: Monitor, c: Call, price: nat, paymentTolerance: nat)
    requires Inv(m) && c.SlaCheck? && WellFormed(m.world.catalogue, c) && Execute(m.world, c).Committed?
    requires NothingWaived(m, c.self, price, paymentTolerance) && price * paymentTolerance >= 100
    ensures NothingWaivedAt(Observe(m, c), ForwardBox(c.self, c.netIdHome), price)
  {
    var k := ForwardBox(c.self, c.netIdHome);
    if k in m.world.boxes {
      ForwardBoxIsForward(m, c.self, c.netIdHome);
      assert NothingWaivedAt(m, k, price);
      if Settling(m.world, c) {
        SettledWithPayment(m, c, price, paymentTolerance);
      } else {
        CountRecord(m, c, k);
      }
    } else {
      InvStep(m, c);
      ForwardBoxIsForward(Observe(m, c), c.self, c.netIdHome);
    }
  }

  lemma WaiverStep(m: Monitor, c: Call, app: AppId, price: nat, paymentTolerance: nat)
    requires Inv(m) && WellFormed(m.world.catalogue, c)
    requires NothingWaived(m, app, price, paymentTolerance) && price * paymentTolerance >= 100
    requires PricedAtLeast([c], app, price, paymentTolerance)
    ensures NothingWaived(Observe(m, c), app, price, paymentTolerance)
  {
    var m' := Observe(m, c);
    assert c == [c][0];
    forall k: BoxRef | k.app == app
      ensures NothingWaivedAt(m', k, price)
    {
      assert NothingWaivedAt(m, k, price);
      if c.SlaCheck? {
        CheckKeepsSettings(m.world, c);
        if !Concerns(m.world, c, k) {
          CheckLeavesOthers(m, c, k);
        } else if Execute(m.world, c).Committed? {
          if k == ForwardBox(c.self, c.netIdHome) {
            CheckedWithoutWaiver(m, c, price, paymentTolerance);
          } else {
            InvStep(m, c);
            HomeKeyHasNoForwardHistory(m', c.endpointHome, m.world.catalogue[c.provider].netId);
          }
        }
      } else if c.ReceivePacket? || c.BanHome? {
        InvStep(m, c);
        HomeKeyHasNoForwardHistory(m', c.self, c.netId);
      } else {
        QuietOrDelete(m, c);
      }
    }
    if c.SlaCheck? {
      CheckKeepsSettings(m.world, c);
    }
  }

  lemma HomeKeyHasNoForwardHistory(m: Monitor, app: AppId, netId: string)
    requires Inv(m)
    ensures HomeBox(app, netId) in m.world.boxes ==> m.history[HomeBox(app, netId)].HomeHistory?
  {
    if HomeBox(app, netId) in m.world.boxes {
      HomeBoxIsHome(m, app, netId);
    }
  }

  lemma {:induction false} NothingWaivedRun(m: Monitor, calls: seq<Call>, app: AppId, price: nat, paymentTolerance: nat)
    requires Inv(m) && AllWellFormed(m.world.catalogue, calls)
    requires NothingWaived(m, app, price, paymentTolerance) && price * paymentTolerance >= 100
    requires PricedAtLeast(calls, app, price, paymentTolerance)
    ensures NothingWaived(Run(m, calls), app, price, paymentTolerance)
    decreases |calls|
  {
    if calls != [] {
      var rest := calls[1..];
      WaiverStep(m, calls[0], app, price, paymentTolerance);
      InvStep(m, calls[0]);
      SurroundingsStay(m, calls[0]);
      assert forall i :: 0 <= i < |rest| ==> rest[i] == calls[i + 1];
      NothingWaivedRun(Observe(m, calls[0]), rest, app, price, paymentTolerance);
    }
  }

  ghost predicate Initialises(calls: seq<Call>, i: int, app: AppId) {
    0 <= i < |calls| && calls[i].Init? && calls[i].self == app
  }

  /** Every price ever given to `init` for `app` times every payment tolerance ever given is at least 100. */
  ghost predicate AlwaysWorthPaying(calls: seq<Call>, app: AppId) {
    forall i, j :: Initialises(calls, i, app) && Initialises(calls, j, app) ==>
      calls[i].settings.price * calls[j].settings.paymentTolerance >= 100
  }

  /** One setting has the least value of all, by any measure. */
  lemma {:induction false} LeastSetting(calls: seq<Call>, app: AppId, measure: Globals -> nat, n: nat) returns (least: int)
    requires n <= |calls| && exists i :: i < n && Initialises(calls, i, app)
    ensures Initialises(calls, least, app)
    ensures forall i :: i < n && Initialises(calls, i, app) ==> measure(calls[least].settings) <= measure(calls[i].settings)
  {
    var last := n - 1;
    if exists i :: i < last && Initialises(calls, i, app) {
      least := LeastSetting(calls, app, measure, last);
      if Initialises(calls, last, app) && measure(calls[last].settings) < measure(calls[least].settings) {
        least := last;
      }
    } else {
      least := last;
    }
  }

  lemma CommonBounds(calls: seq<Call>, app: AppId) returns (price: nat, paymentTolerance: nat)
    requires AlwaysWorthPaying(calls, app)
    ensures price * paymentTolerance >= 100 && PricedAtLeast(calls, app, price, paymentTolerance)
  {
    if exists i :: Initialises(calls, i, app) {
      var priceOf, toleranceOf := (g: Globals) => g.price, (g: Globals) => g.paymentTolerance;
      var i := LeastSetting(calls, app, priceOf, |calls|);
      var j := LeastSetting(calls, app, toleranceOf, |calls|);
      price, paymentTolerance := calls[i].settings.price, calls[j].settings.paymentTolerance;
      forall n | Initialises(calls, n, app)
        ensures price <= calls[n].settings.price && paymentTolerance <= calls[n].settings.paymentTolerance
      {
        assert priceOf(calls[i].settings) <= priceOf(calls[n].settings);
        assert toleranceOf(calls[j].settings) <= toleranceOf(calls[n].settings);
      }
    } else {
      price, paymentTolerance := 10, 10;
    }
    assert forall n :: 0 <= n < |calls| && calls[n].Init? && calls[n].self == app ==> Initialises(calls, n, app);
  }

  /** As long as every price of a forwarder times every payment tolerance is at least
      100, every reset of its counters came with a payment of exactly the price, and
      the accepted packets not yet paid for never exceed the threshold. */
  lemma UnpaidAcceptsAreBounded(w: World, calls: seq<Call>, app: AppId, netId: string)
    requires Fresh(w) && AllWellFormed(w.catalogue, calls) && AlwaysWorthPaying(calls, app)
    requires ForwardBox(app, netId) in Run(Start(w), calls).world.boxes
    ensures var m := Run(Start(w), calls);
            var k := ForwardBox(app, netId);
            && k in m.history && m.history[k].ForwardHistory?
            && m.history[k].resets == m.history[k].payments
            && m.history[k].income == m.world.boxes[k].price * m.history[k].payments
            && 0 <= m.history[k].accepts - (m.world.boxes[k].threshold + 1) * m.history[k].payments
                 <= m.world.boxes[k].threshold
  {
    var price, paymentTolerance := CommonBounds(calls, app);
    AcceptsAreAccountedFor(w, calls, app, netId);
    NothingWaivedRun(Start(w), calls, app, price, paymentTolerance);
    assert NothingWaivedAt(Run(Start(w), calls), ForwardBox(app, netId), price);
  }

  ghost predicate TolerantAtLeast(calls: seq<Call>, app: AppId, tolerance: nat) {
    forall i :: 0 <= i < |calls| && calls[i].Init? && calls[i].self == app ==> tolerance <= calls[i].settings.tolerance
  }

  ghost predicate EarnedAt(m: Monitor, k: BoxRef, tolerance: nat) {
    k in m.world.boxes && k in m.history && m.history[k].HomeHistory? ==>
      UsedUp(m.world.boxes[k].threshold, tolerance, m.history[k].payments, m.history[k].consumed)
  }

  /** Each payment stands for at least `tolerance` percent of the threshold, rounded down. */
  ghost predicate UsedUp(threshold: nat, tolerance: nat, payments: nat, packets: int) {
    forall share: nat {:trigger payments * share} :: 100 * share <= threshold * tolerance ==> payments * share <= packets
  }

  ghost predicate Earned(m: Monitor, app: AppId, tolerance: nat) {
    && (app in m.world.globals ==> tolerance <= m.world.globals[app].tolerance)
    && forall k: BoxRef :: k.app == app ==> EarnedAt(m, k, tolerance)
  }

  lemma PaidPacketsWereCounted(m: Monitor, c: Call, tolerance: nat)
    requires Inv(m) && WellFormed(m.world.catalogue, c) && Settling(m.world, c) && Execute(m.world, c).Committed?
    requires c.provider in m.world.catalogue && Earned(m, c.endpointHome, tolerance)
    ensures EarnedAt(Observe(m, c), HomeBox(c.endpointHome, m.world.catalogue[c.provider].netId), tolerance)
  {
    var kh := HomeBox(c.endpointHome, m.world.catalogue[c.provider].netId);
    assert EarnedAt(m, kh, tolerance);
    ForwardBoxIsForward(m, c.self, c.netIdHome);
    BoxNamesAreInjective(c.netIdHome, m.world.catalogue[c.provider].netId);
    if HomePay(m.world, c) == Committed(m.world, NoReply) {
      UnpaidOutcome(m.world, c);
    } else {
      PaymentWasEarned(m, c, kh, tolerance);
    }
  }

  lemma PaymentWasEarned(m: Monitor, c: Call, kh: BoxRef, tolerance: nat)
    requires Inv(m) && WellFormed(m.world.catalogue, c) && Settling(m.world, c) && Execute(m.world, c).Committed?
    requires HomePay(m.world, c).Committed? && HomePay(m.world, c) != Committed(m.world, NoReply)
    requires c.provider in m.world.catalogue && kh == HomeBox(c.endpointHome, m.world.catalogue[c.provider].netId)
    requires EarnedAt(m, kh, tolerance)
    requires c.endpointHome in m.world.globals ==> tolerance <= m.world.globals[c.endpointHome].tolerance
    ensures EarnedAt(Observe(m, c), kh, tolerance)
  {
    PaidHistory(m, c, kh);
    OneMoreEarned(m, Observe(m, c), kh, tolerance, m.world.globals[c.endpointHome].tolerance);
  }

  lemma OneMoreEarned(m: Monitor, m': Monitor, kh: BoxRef, tolerance: nat, required: uint64)
    requires kh in m.world.boxes && kh in m.history && m.history[kh].HomeHistory?
    requires EarnedAt(m, kh, tolerance) && tolerance <= required && PaysFor(m.world.boxes[kh], required)
    requires kh in m'.world.boxes && kh in m'.history && m'.history[kh].HomeHistory?
    requires m'.world.boxes[kh].threshold == m.world.boxes[kh].threshold
    requires m'.history[kh].payments == m.history[kh].payments + 1
    requires m'.history[kh].consumed == m.history[kh].consumed + m.world.boxes[kh].counter
    ensures EarnedAt(m', kh, tolerance)
  {
    var e, h := m.world.boxes[kh], m.history[kh];
    OneMorePayment(h.payments, e.threshold, tolerance, required, h.consumed, e.counter);
  }

  lemma PaidHistory(m: Monitor, c: Call, kh: BoxRef)
    requires Inv(m) && WellFormed(m.world.catalogue, c) && Settling(m.world, c) && Execute(m.world, c).Committed?
    requires HomePay(m.world, c).Committed? && HomePay(m.world, c) != Committed(m.world, NoReply)
    requires c.provider in m.world.catalogue && kh == HomeBox(c.endpointHome, m.world.catalogue[c.provider].netId)
    ensures var m' := Observe(m, c);
            && kh in m.world.boxes && kh in m.history && m.history[kh].HomeHistory?
            && c.endpointHome in m.world.globals
            && PaysFor(m.world.boxes[kh], m.world.globals[c.endpointHome].tolerance)
            && kh in m'.world.boxes && kh in m'.history && m'.history[kh].HomeHistory?
            && m'.world.boxes[kh].threshold == m.world.boxes[kh].threshold
            && m'.history[kh].payments == m.history[kh].payments + 1
            && m'.history[kh].consumed == m.history[kh].consumed + m.world.boxes[kh].counter
  {
    PaidRecord(m, c);
  }

  lemma OneMorePayment(payments: nat, threshold: nat, tolerance: nat, required: nat, packets: nat, counter: nat)
    requires UsedUp(threshold, tolerance, payments, packets)
    requires tolerance <= required && MinPackets(threshold, required) <= counter
    ensures UsedUp(threshold, tolerance, payments + 1, packets + counter)
  {
    forall share: nat | 100 * share <= threshold * tolerance
      ensures (payments + 1) * share <= packets + counter
    {
      ShareIsCounted(threshold, tolerance, required, share);
      assert payments * share <= packets;
      OneMoreShare(payments, share);
    }
  }

  lemma ShareIsCounted(threshold: nat, tolerance: nat, required: nat, share: nat)
    requires 100 * share <= threshold * tolerance && tolerance <= required
    ensures share <= MinPackets(threshold, required)
  {
    assert threshold * tolerance <= threshold * required;
  }

  lemma OneMoreShare(payments: nat, share: nat)
    ensures (payments + 1) * share == payments * share + share
  {
  }

  lemma EarnedStep(m: Monitor, c: Call, app: AppId, tolerance: nat)
    requires Inv(m) && WellFormed(m.world.catalogue, c)
    requires Earned(m, app, tolerance) && TolerantAtLeast([c], app, tolerance)
    ensures Earned(Observe(m, c), app, tolerance)
  {
    var m' := Observe(m, c);
    assert c == [c][0];
    forall k: BoxRef | k.app == app
      ensures EarnedAt(m', k, tolerance)
    {
      assert EarnedAt(m, k, tolerance);
      if c.SlaCheck? {
        EarnedCheck(m, c, k, tolerance);
      } else if c.ReceivePacket? || c.BanHome? {
      } else {
        QuietOrDelete(m, c);
      }
    }
    if c.SlaCheck? {
      CheckKeepsSettings(m.world, c);
    }
  }

  lemma EarnedCheck(m: Monitor, c: Call, k: BoxRef, tolerance: nat)
    requires Inv(m) && c.SlaCheck? && WellFormed(m.world.catalogue, c)
    requires Earned(m, k.app, tolerance)
    ensures EarnedAt(Observe(m, c), k, tolerance)
  {
    assert EarnedAt(m, k, tolerance);
    if !Concerns(m.world, c, k) {
      CheckLeavesOthers(m, c, k);
    } else if Execute(m.world, c).Committed? {
      var kf := ForwardBox(c.self, c.netIdHome);
      InvStep(m, c);
      if k == kf {
        if kf in Observe(m, c).world.boxes {
          ForwardBoxIsForward(Observe(m, c), c.self, c.netIdHome);
        }
      } else if kf !in m.world.boxes {
      } else if Settling(m.world, c) {
        PaidPacketsWereCounted(m, c, tolerance);
      } else {
        ForwardBoxIsForward(m, c.self, c.netIdHome);
        CountOutcome(m.world, c);
      }
    }
  }

  lemma {:induction false} EarnedRun(m: Monitor, calls: seq<Call>, app: AppId, tolerance: nat)
    requires Inv(m) && AllWellFormed(m.world.catalogue, calls)
    requires Earned(m, app, tolerance) && TolerantAtLeast(calls, app, tolerance)
    ensures Earned(Run(m, calls), app, tolerance)
    decreases |calls|
  {
    if calls != [] {
      var rest := calls[1..];
      EarnedStep(m, calls[0], app, tolerance);
      InvStep(m, calls[0]);
      SurroundingsStay(m, calls[0]);
      assert forall i :: 0 <= i < |rest| ==> rest[i] == calls[i + 1];
      EarnedRun(Observe(m, calls[0]), rest, app, tolerance);
    }
  }

  /** On the home side, packets received are packets paid for plus the counter, each
      payment used up at least the agreed share of the threshold, and the money that
      left is the price times the payments. */
  lemma HomeLedgerIsConserved(w: World, calls: seq<Call>, app: AppId, netId: string, tolerance: nat)
    requires Fresh(w) && AllWellFormed(w.catalogue, calls) && TolerantAtLeast(calls, app, tolerance)
    requires HomeBox(app, netId) in Run(Start(w), calls).world.boxes
    ensures var m := Run(Start(w), calls);
            var k := HomeBox(app, netId);
            && k in m.history && m.history[k].HomeHistory?
            && m.history[k].received == m.history[k].consumed + m.world.boxes[k].counter
            && (forall share: nat {:trigger m.history[k].payments * share} ::
                  100 * share <= m.world.boxes[k].threshold * tolerance ==>
                    m.history[k].payments * share + m.world.boxes[k].counter <= m.history[k].received)
            && m.history[k].outgo == m.world.boxes[k].price * m.history[k].payments
  {
    ReachableInv(w, calls);
    HomeBoxIsHome(Run(Start(w), calls), app, netId);
    EarnedRun(Start(w), calls, app, tolerance);
    assert EarnedAt(Run(Start(w), calls), HomeBox(app, netId), tolerance);
  }

  // ----- a minimum payment of 0

  /** A check by `c` whose home side does not pay, and whose minimum payment is 0. */
  ghost predicate Waiving(m: Monitor, c: Call) {
    && Inv(m) && c.SlaCheck? && WellFormed(m.world.catalogue, c) && Authorized(m.world, c.sender, c.self)
    && var kf := ForwardBox(c.self, c.netIdHome);
    && kf in m.world.boxes && m.world.boxes[kf].state == ActiveSla
    && MinPayment(m.world.boxes[kf].price, SettingsOf(m.world, c.self).paymentTolerance) == 0
    && VerificationFits(m.world, c, m.world.boxes[kf].price)
    && HomeDeclines(m.world, c)
  }

  /** `n` packets more have been accepted and nothing has been paid for them. */
  ghost predicate Accepted(before: map<BoxRef, History>, after: map<BoxRef, History>, k: BoxRef, n: nat) {
    && k in before && before[k].ForwardHistory? && k in after && after[k].ForwardHistory?
    && after[k].accepts == before[k].accepts + n
    && after[k].payments == before[k].payments && after[k].income == before[k].income
  }

  /** The check is accepted, nothing is paid, and the next one is in the same situation. */
  lemma WaivedCheck(m: Monitor, c: Call)
    requires Waiving(m, c)
    ensures var k := ForwardBox(c.self, c.netIdHome);
            var m' := Observe(m, c);
            Waiving(m', c) && Accepted(m.history, m'.history, k, 1)
  {
    var k := ForwardBox(c.self, c.netIdHome);
    ForwardBoxIsForward(m, c.self, c.netIdHome);
    if Settling(m.world, c) {
      DecidedCheckCommits(m, c);
      UnpaidRecord(m, c, k);
    } else {
      CountingCommits(m.world, c);
      CountRecord(m, c, k);
    }
    InvStep(m, c);
    StaysWaiving(m, Observe(m, c), c);
  }

  lemma CountingCommits(w: World, c: Call)
    requires c.SlaCheck? && Authorized(w, c.sender, c.self) && ForwardBox(c.self, c.netIdHome) in w.boxes
    requires var e := w.boxes[ForwardBox(c.self, c.netIdHome)];
             e.state == ActiveSla && e.counter < e.threshold
    ensures Execute(w, c).Committed?
  {
  }

  lemma StaysWaiving(m: Monitor, m': Monitor, c: Call)
    requires Waiving(m, c) && Inv(m')
    requires var k := ForwardBox(c.self, c.netIdHome);
             exists counter: uint64 ::
               m'.world == m.world.(boxes := m.world.boxes[k := m.world.boxes[k].(counter := counter)])
    ensures Waiving(m', c)
  {
    BoxNamesAreInjective(c.netIdHome, m.world.catalogue[c.provider].netId);
  }

  function Repeated(c: Call, n: nat): seq<Call> {
    seq(n, _ => c)
  }

  /** What one check adds, `n` checks add `n` times. */
  lemma {:induction false} ChecksAddUp(holds: Monitor -> bool, m: Monitor, c: Call, k: BoxRef, n: nat)
    requires forall x {:trigger Observe(x, c)} ::
               holds(x) ==> holds(Observe(x, c)) && Accepted(x.history, Observe(x, c).history, k, 1)
    requires holds(m) && k in m.history && m.history[k].ForwardHistory?
    ensures var m' := Run(m, Repeated(c, n));
            holds(m') && Accepted(m.history, m'.history, k, n)
    decreases n
  {
    if n > 0 {
      assert Repeated(c, n)[1..] == Repeated(c, n - 1);
      ChecksAddUp(holds, Observe(m, c), c, k, n - 1);
    }
  }

  /** As long as nothing but such checks happens, all of them are accepted without a
      payment: there is no bound at all. */
  lemma WaivedForever(m: Monitor, c: Call, n: nat)
    requires Waiving(m, c)
    ensures var m' := Run(m, Repeated(c, n));
            Waiving(m', c) && Accepted(m.history, m'.history, ForwardBox(c.self, c.netIdHome), n)
  {
    ForwardBoxIsForward(m, c.self, c.netIdHome);
    var holds := x => Waiving(x, c);
    forall x | holds(x)
      ensures holds(Observe(x, c)) && Accepted(x.history, Observe(x, c).history, ForwardBox(c.self, c.netIdHome), 1)
    {
      WaivedCheck(x, c);
    }
    ChecksAddUp(holds, m, c, ForwardBox(c.self, c.netIdHome), n);
    assert holds(Run(m, Repeated(c, n)));
  }

  // ----- money

  lemma TransferKeepsTotal(balances: map<Account, uint64>, from: Account, to: Account, amount: uint64)
    requires CanTransfer(balances, from, to, amount)
    ensures MapSum.Sum(Transferred(balances, from, to, amount)) == MapSum.Sum(balances)
  {
    if from != to {
      MapSum.SumUpdate(balances, from, Balance(balances, from) - amount);
      MapSum.SumUpdate(balances[from := Balance(balances, from) - amount], to, Balance(balances, to) + amount);
    }
  }

  lemma CallKeepsTotal(w: World, c: Call)
    ensures Execute(w, c).Committed? ==> MapSum.Sum(Execute(w, c).world.balances) == MapSum.Sum(w.balances)
  {
    if Execute(w, c).Committed? {
      if c.Transfer? {
        TransferKeepsTotal(w.balances, c.sender, c.receiver, c.amount);
      } else if c.SlaCheck? && Settling(w, c) {
        PayKeepsTotal(w, c.self, c.endpointHome, c.catRef, c.provider);
      } else if c.TopLevelPay? {
        PayKeepsTotal(w, 0, c.self, c.catRef, c.provider);
      }
    }
  }

  lemma PayKeepsTotal(w: World, caller: AppId, self: AppId, catRef: AppId, provider: Account)
    ensures var out := PayOutcome(w, caller, self, catRef, provider);
            out.Committed? ==> MapSum.Sum(out.world.balances) == MapSum.Sum(w.balances)
  {
    var out := PayOutcome(w, caller, self, catRef, provider);
    if out.Committed? && out.world.balances != w.balances {
      var price := w.boxes[HomeBox(self, w.catalogue[provider].netId)].price;
      TransferKeepsTotal(w.balances, Application(self), provider, price);
    }
  }

  /** No run creates or destroys money. */
  lemma {:induction false} MoneyIsConserved(m: Monitor, calls: seq<Call>)
    ensures MapSum.Sum(Run(m, calls).world.balances) == MapSum.Sum(m.world.balances)
    decreases |calls|
  {
    if calls != [] {
      CallKeepsTotal(m.world, calls[0]);
      MoneyIsConserved(Observe(m, calls[0]), calls[1..]);
    }
  }
}
