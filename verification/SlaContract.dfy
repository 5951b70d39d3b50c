/**
 The SLA contract every provider deploys (smart_contracts/_SC.py), as functions
 on the state of the chain. A transaction either commits a new state or aborts
 and changes nothing: `Aborted` stands for every failed assert, uint64 overflow
 or underflow, failed inner transaction and missing authorisation.
 */
module SlaContract {

  const MAX_UINT64: nat := 0xFFFF_FFFF_FFFF_FFFF

  type uint64 = n: nat | n <= 0xFFFF_FFFF_FFFF_FFFF

  /** Application 0 is the "caller" of a transaction that no application issued. */
  type AppId = nat

  datatype Account = User(address: string) | Application(app: AppId)

  /** The values the contract writes into its State_SLA strings. */
  datatype Status = ActiveSla | SlaRejected | Banned | Accept | Reject

  datatype EndpointItem = EndpointItem(netId: string, name: string, endpoint: AppId)

  datatype Globals = Globals(
    catalogue: AppId, price: uint64, threshold: uint64,
    tolerance: uint64, paymentTolerance: uint64,
    token: string, gwId: string)

  /** Reading a global value before `init` has set it yields 0. */
  const UNSET := Globals(0, 0, 0, 0, 0, "", "")

  datatype SlaEntry = SlaEntry(
    netId: string, name: string, state: Status,
    price: uint64, threshold: uint64, counter: uint64,
    token: string, gwId: string)

  /** Boxes belong to one application each and are named by a string. */
  datatype BoxRef = BoxRef(app: AppId, name: string)

  const FORWARD_SUFFIX := "_forward_box"
  const HOME_SUFFIX := "_home_box"

  function ForwardBox(app: AppId, netId: string): BoxRef {
    BoxRef(app, netId + FORWARD_SUFFIX)
  }

  function HomeBox(app: AppId, netId: string): BoxRef {
    BoxRef(app, netId + HOME_SUFFIX)
  }

  datatype World = World(
    catalogueApp: AppId,
    catalogue: map<Account, EndpointItem>,
    creators: map<AppId, Account>,
    globals: map<AppId, Globals>,
    boxes: map<BoxRef, SlaEntry>,
    balances: map<Account, uint64>)

  datatype Reply = NoReply | SlaOutput(state: Status, token: string, gwId: string)

  datatype Outcome = Aborted | Committed(world: World, reply: Reply)

  datatype Call =
    | Init(sender: Account, self: AppId, settings: Globals)
    | SlaCheck(sender: Account, self: AppId, netIdHome: string, provider: Account,
               catRef: AppId, nameHome: string, endpointHome: AppId)
    | ReceivePacket(sender: Account, self: AppId, netId: string)
    | BanHome(sender: Account, self: AppId, netId: string)
    | DeleteSla(sender: Account, self: AppId, typeOp: string, netId: string)
    | TopLevelHandshake(self: AppId, catRef: AppId, provider: Account, price: uint64, threshold: uint64)
    | TopLevelPay(self: AppId, catRef: AppId, provider: Account)
    | Transfer(sender: Account, receiver: Account, amount: uint64)

  function Balance(balances: map<Account, uint64>, a: Account): uint64 {
    if a in balances then balances[a] else 0
  }

  function SettingsOf(w: World, app: AppId): Globals {
    if app in w.globals then w.globals[app] else UNSET
  }

  predicate Authorized(w: World, sender: Account, app: AppId) {
    app in w.creators && w.creators[app] == sender
  }

  /** A transfer that would overdraw the payer or overflow the payee fails. */
  predicate CanTransfer(balances: map<Account, uint64>, from: Account, to: Account, amount: uint64) {
    && amount <= Balance(balances, from)
    && (from != to ==> Balance(balances, to) + amount <= MAX_UINT64)
  }

  function Transferred(balances: map<Account, uint64>, from: Account, to: Account, amount: uint64)
      : map<Account, uint64>
    requires CanTransfer(balances, from, to, amount)
  {
    if from == to then balances
    else balances[from := Balance(balances, from) - amount][to := Balance(balances, to) + amount]
  }

  predicate ValidSettings(g: Globals) {
    && g.catalogue > 0
    && g.price > 0
    && g.threshold > 0
    && g.tolerance <= 100
    && g.paymentTolerance <= 100
  }

  function InitOutcome(w: World, sender: Account, self: AppId, settings: Globals): Outcome {
    if Authorized(w, sender, self) && ValidSettings(settings) then
      Committed(w.(globals := w.globals[self := settings]), NoReply)
    else Aborted
  }

  /** What the two calls that other contracts make check first: the catalogue
      reference, the presence of the provider and the identity of the caller. */
  predicate CallerVerified(w: World, caller: AppId, self: AppId, catRef: AppId, provider: Account) {
    && self in w.creators
    && catRef == SettingsOf(w, self).catalogue
    && catRef == w.catalogueApp
    && provider in w.catalogue
    && w.catalogue[provider].endpoint == caller
  }

  function Negotiate(g: Globals, price: uint64, threshold: uint64): Reply {
    if g.price >= price && threshold >= g.threshold
    then SlaOutput(ActiveSla, g.token, g.gwId)
    else SlaOutput(SlaRejected, "None", "None")
  }

  function HandshakeOutcome(w: World, caller: AppId, self: AppId, catRef: AppId,
                            provider: Account, price: uint64, threshold: uint64): Outcome {
    if !CallerVerified(w, caller, self, catRef, provider) then Aborted
    else
      var item := w.catalogue[provider];
      var box := HomeBox(self, item.netId);
      if box in w.boxes then Aborted
      else
        var out := Negotiate(SettingsOf(w, self), price, threshold);
        var entry := SlaEntry(item.netId, item.name, out.state, price, threshold, 0, out.token, out.gwId);
        Committed(w.(boxes := w.boxes[box := entry]), out)
  }

  /** The packets the home side must have counted before it pays. */
  function MinPackets(threshold: nat, tolerance: nat): (n: nat)
    ensures 100 * n <= threshold * tolerance < 100 * (n + 1)
  {
    threshold * tolerance / 100
  }

  predicate PaysFor(entry: SlaEntry, tolerance: uint64) {
    entry.state == ActiveSla && entry.counter >= MinPackets(entry.threshold, tolerance)
  }

  function PayOutcome(w: World, caller: AppId, self: AppId, catRef: AppId, provider: Account): Outcome {
    if !CallerVerified(w, caller, self, catRef, provider) then Aborted
    else
      var box := HomeBox(self, w.catalogue[provider].netId);
      if box !in w.boxes then Aborted
      else
        var entry := w.boxes[box];
        var tolerance := SettingsOf(w, self).tolerance;
        if entry.threshold * tolerance > MAX_UINT64 then Aborted
        else if !PaysFor(entry, tolerance) then Committed(w, NoReply)
        else if !CanTransfer(w.balances, Application(self), provider, entry.price) then Aborted
        else
          Committed(
            w.(balances := Transferred(w.balances, Application(self), provider, entry.price),
               boxes := w.boxes[box := entry.(netId := w.catalogue[provider].netId, counter := 0)]),
            NoReply)
  }

  /** The least amount the forwarder accepts for `price`. */
  function MinPayment(price: nat, paymentTolerance: nat): (n: nat)
    ensures 100 * n <= price * paymentTolerance < 100 * (n + 1)
  {
    price * paymentTolerance / 100
  }

  /** The uint64 arithmetic of the payment verification, and the subtraction in
      the log line that both branches write. */
  predicate VerificationComputes(price: uint64, paymentTolerance: uint64, before: uint64, after: uint64) {
    && price * paymentTolerance <= MAX_UINT64
    && before + MinPayment(price, paymentTolerance) <= MAX_UINT64
    && before <= after
  }

  function SettleOutcome(w: World, c: Call): Outcome
    requires c.SlaCheck? && ForwardBox(c.self, c.netIdHome) in w.boxes
  {
    var box := ForwardBox(c.self, c.netIdHome);
    var entry := w.boxes[box].(netId := c.netIdHome);
    // an application cannot call itself through an inner transaction
    var pay := if c.endpointHome == c.self then Aborted
               else PayOutcome(w, c.self, c.endpointHome, c.catRef, c.provider);
    if pay.Aborted? then Aborted
    else
      var paymentTolerance := SettingsOf(w, c.self).paymentTolerance;
      var before, after := Balance(w.balances, c.sender), Balance(pay.world.balances, c.sender);
      if !VerificationComputes(entry.price, paymentTolerance, before, after) then Aborted
      else if after >= before + MinPayment(entry.price, paymentTolerance) then
        Committed(pay.world.(boxes := pay.world.boxes[box := entry.(counter := 0)]),
                  SlaOutput(Accept, entry.token, entry.gwId))
      else
        Committed(pay.world.(boxes := pay.world.boxes[box := entry.(state := Banned)]),
                  SlaOutput(Reject, entry.token, entry.gwId))
  }

  function SlaCheckOutcome(w: World, c: Call): Outcome
    requires c.SlaCheck?
  {
    var box := ForwardBox(c.self, c.netIdHome);
    if !Authorized(w, c.sender, c.self) then Aborted
    else if box in w.boxes then
      var entry := w.boxes[box];
      if entry.state != ActiveSla then Committed(w, SlaOutput(Reject, entry.token, entry.gwId))
      else if entry.counter == entry.threshold then SettleOutcome(w, c)
      else if entry.counter == MAX_UINT64 then Aborted
      else
        Committed(w.(boxes := w.boxes[box := entry.(netId := c.netIdHome, counter := entry.counter + 1)]),
                  SlaOutput(Accept, entry.token, entry.gwId))
    else
      var g := SettingsOf(w, c.self);
      var handshake := if c.endpointHome == c.self then Aborted
                       else HandshakeOutcome(w, c.self, c.endpointHome, c.catRef, c.provider, g.price, g.threshold);
      match handshake
      case Aborted => Aborted
      case Committed(w1, out) =>
        if !out.SlaOutput? then Aborted
        else
          var entry := SlaEntry(c.netIdHome, c.nameHome, out.state, g.price, g.threshold, 0, out.token, out.gwId);
          Committed(w1.(boxes := w1.boxes[box := entry]), out)
  }

  function ReceiveOutcome(w: World, sender: Account, self: AppId, netId: string): Outcome {
    var box := HomeBox(self, netId);
    if !Authorized(w, sender, self) || box !in w.boxes then Aborted
    else
      var entry := w.boxes[box];
      if entry.state != ActiveSla || entry.counter == MAX_UINT64 then Aborted
      else
        Committed(w.(boxes := w.boxes[box := entry.(netId := netId, counter := entry.counter + 1)]), NoReply)
  }

  function BanOutcome(w: World, sender: Account, self: AppId, netId: string): Outcome {
    var box := HomeBox(self, netId);
    if !Authorized(w, sender, self) || box !in w.boxes || w.boxes[box].state != ActiveSla then Aborted
    else Committed(w.(boxes := w.boxes[box := w.boxes[box].(netId := netId, state := Banned)]), NoReply)
  }

  function DeleteOutcome(w: World, sender: Account, self: AppId, typeOp: string, netId: string): Outcome {
    var box := BoxRef(self, netId + typeOp);
    if !Authorized(w, sender, self) then Aborted
    else if typeOp != FORWARD_SUFFIX && typeOp != HOME_SUFFIX then Aborted
    else if box !in w.boxes then Aborted
    else Committed(w.(boxes := w.boxes - {box}), NoReply)
  }

  function Execute(w: World, c: Call): Outcome {
    match c
    case Init(sender, self, settings) => InitOutcome(w, sender, self, settings)
    case SlaCheck(_, _, _, _, _, _, _) => SlaCheckOutcome(w, c)
    case ReceivePacket(sender, self, netId) => ReceiveOutcome(w, sender, self, netId)
    case BanHome(sender, self, netId) => BanOutcome(w, sender, self, netId)
    case DeleteSla(sender, self, typeOp, netId) => DeleteOutcome(w, sender, self, typeOp, netId)
    case TopLevelHandshake(self, catRef, provider, price, threshold) =>
      HandshakeOutcome(w, 0, self, catRef, provider, price, threshold)
    case TopLevelPay(self, catRef, provider) => PayOutcome(w, 0, self, catRef, provider)
    case Transfer(sender, receiver, amount) =>
      if CanTransfer(w.balances, sender, receiver, amount) && sender.User?
      then Committed(w.(balances := Transferred(w.balances, sender, receiver, amount)), NoReply)
      else Aborted
  }

  /** Distinct provider ids name distinct boxes, and a forward box is never a home box. */
  lemma BoxNamesAreInjective(a: string, b: string)
    ensures a + FORWARD_SUFFIX == b + FORWARD_SUFFIX ==> a == b
    ensures a + HOME_SUFFIX == b + HOME_SUFFIX ==> a == b
    ensures a + FORWARD_SUFFIX != b + HOME_SUFFIX
  {
    var f, h := a + FORWARD_SUFFIX, b + HOME_SUFFIX;
    assert f[|f| - 5] == 'd' && h[|h| - 5] == 'e';
    if a + FORWARD_SUFFIX == b + FORWARD_SUFFIX {
      assert a == (a + FORWARD_SUFFIX)[..|a|] == (b + FORWARD_SUFFIX)[..|b|] == b;
    }
    if a + HOME_SUFFIX == b + HOME_SUFFIX {
      assert a == (a + HOME_SUFFIX)[..|a|] == (b + HOME_SUFFIX)[..|b|] == b;
    }
  }
}
