/**
 The contract's methods on mutable chain state: global values, boxes and account
 balances that the calls overwrite step by step. Each method is proved to do what
 the corresponding outcome function of SlaContract says, including that an aborted
 transaction leaves no trace of the inner calls it made.
 */
module SlaChain {
  import opened Prelude
  import opened SlaContract

  class Chain {
    const catalogueApp: AppId
    const catalogue: map<Account, EndpointItem>
    const creators: map<AppId, Account>
    var globals: map<AppId, Globals>
    var boxes: map<BoxRef, SlaEntry>
    var balances: map<Account, uint64>

    constructor (catalogueApp: AppId, catalogue: map<Account, EndpointItem>, creators: map<AppId, Account>,
                 balances: map<Account, uint64>)
      ensures State() == World(catalogueApp, catalogue, creators, map[], map[], balances)
    {
      this.catalogueApp := catalogueApp;
      this.catalogue := catalogue;
      this.creators := creators;
      this.globals := map[];
      this.boxes := map[];
      this.balances := balances;
    }

    function State(): World
      reads this
    {
      World(catalogueApp, catalogue, creators, globals, boxes, balances)
    }

    /** The state and answer after a call are those of `outcome`; `before` is the state to keep on an abort. */
    ghost predicate Realizes(outcome: Outcome, before: World, reply: Option<Reply>)
      reads this
    {
      match outcome
      case Aborted => reply == None && State() == before
      case Committed(world, r) => reply == Some(r) && State() == world
    }

    method Init(sender: Account, self: AppId, settings: Globals) returns (reply: Option<Reply>)
      modifies this`globals
      ensures Realizes(Execute(old(State()), Call.Init(sender, self, settings)), old(State()), reply)
    {
      if self !in creators || creators[self] != sender {
        return None;
      }
      if settings.catalogue == 0 || settings.price == 0 || settings.threshold == 0 {
        return None;
      }
      if settings.tolerance > 100 || settings.paymentTolerance > 100 {
        return None;
      }
      globals := globals[self := settings];
      return Some(NoReply);
    }

    method DeleteSla(sender: Account, self: AppId, typeOp: string, netId: string) returns (reply: Option<Reply>)
      modifies this`boxes
      ensures Realizes(Execute(old(State()), Call.DeleteSla(sender, self, typeOp, netId)), old(State()), reply)
    {
      if self !in creators || creators[self] != sender {
        return None;
      }
      if typeOp != FORWARD_SUFFIX && typeOp != HOME_SUFFIX {
        return None;
      }
      var box := BoxRef(self, netId + typeOp);
      if box !in boxes {
        return None;
      }
      boxes := boxes - {box};
      return Some(NoReply);
    }

    method Handshake(caller: AppId, self: AppId, catRef: AppId, provider: Account, price: uint64, threshold: uint64)
        returns (reply: Option<Reply>)
      modifies this`boxes
      ensures Realizes(HandshakeOutcome(old(State()), caller, self, catRef, provider, price, threshold),
                       old(State()), reply)
    {
      if self !in creators || catRef != SettingsOf(State(), self).catalogue || catRef != catalogueApp {
        return None;
      }
      if provider !in catalogue {
        return None;
      }
      var item := catalogue[provider];
      if caller != item.endpoint {
        return None;
      }
      var box := HomeBox(self, item.netId);
      if box in boxes {
        return None;
      }
      var token, gwId, state := "None", "None", SlaRejected;
      var g := SettingsOf(State(), self);
      if g.price >= price && threshold >= g.threshold {
        token, gwId, state := g.token, g.gwId, ActiveSla;
      }
      boxes := boxes[box := SlaEntry(item.netId, item.name, state, price, threshold, 0, token, gwId)];
      return Some(SlaOutput(state, token, gwId));
    }

    method Pay(caller: AppId, self: AppId, catRef: AppId, provider: Account) returns (reply: Option<Reply>)
      modifies this`boxes, this`balances
      ensures Realizes(PayOutcome(old(State()), caller, self, catRef, provider), old(State()), reply)
    {
      if self !in creators || catRef != SettingsOf(State(), self).catalogue || catRef != catalogueApp {
        return None;
      }
      if provider !in catalogue || caller != catalogue[provider].endpoint {
        return None;
      }
      var netId := catalogue[provider].netId;
      var box := HomeBox(self, netId);
      if box !in boxes {
        return None;
      }
      var entry := boxes[box];
      var product := entry.threshold * SettingsOf(State(), self).tolerance;
      if product > MAX_UINT64 {
        return None;
      }
      var minPackets := product / 100;
      if entry.counter >= minPackets && entry.state == ActiveSla {
        if !CanTransfer(balances, Application(self), provider, entry.price) {
          return None;
        }
        balances := Transferred(balances, Application(self), provider, entry.price);
        boxes := boxes[box := SlaEntry(netId, entry.name, entry.state, entry.price, entry.threshold, 0,
                                       entry.token, entry.gwId)];
      }
      return Some(NoReply);
    }

    method SlaCheck(sender: Account, self: AppId, netIdHome: string, provider: Account,
                    catRef: AppId, nameHome: string, endpointHome: AppId) returns (reply: Option<Reply>)
      modifies this`boxes, this`balances
      ensures Realizes(
                Execute(old(State()),
                        Call.SlaCheck(sender, self, netIdHome, provider, catRef, nameHome, endpointHome)),
                old(State()), reply)
    {
      if self !in creators || creators[self] != sender {
        return None;
      }
      var box := ForwardBox(self, netIdHome);
      if box in boxes {
        var entry := boxes[box];
        var state, count := entry.state, entry.counter;
        if state != ActiveSla {
          return Some(SlaOutput(Reject, entry.token, entry.gwId));
        }
        if count == entry.threshold {
          var savedBoxes, savedBalances := boxes, balances;
          if endpointHome == self {
            return None;
          }
          var before := Balance(balances, sender);
          var paid := Pay(self, endpointHome, catRef, provider);
          if paid == None {
            return None;
          }
          var after := Balance(balances, sender);
          var product := entry.price * SettingsOf(State(), self).paymentTolerance;
          if product > MAX_UINT64 || before + product / 100 > MAX_UINT64 || after < before {
            boxes, balances := savedBoxes, savedBalances;
            return None;
          }
          var minExpected := before + product / 100;
          if after >= minExpected {
            count := 0;
          } else {
            state := Banned;
          }
        } else {
          if count == MAX_UINT64 {
            return None;
          }
          count := count + 1;
        }
        boxes := boxes[box := SlaEntry(netIdHome, entry.name, state, entry.price, entry.threshold, count,
                                       entry.token, entry.gwId)];
        return Some(SlaOutput(if state == ActiveSla then Accept else Reject, entry.token, entry.gwId));
      }
      if endpointHome == self {
        return None;
      }
      var g := SettingsOf(State(), self);
      var out := Handshake(self, endpointHome, catRef, provider, g.price, g.threshold);
      if out == None {
        return None;
      }
      boxes := boxes[box := SlaEntry(netIdHome, nameHome, out.value.state, g.price, g.threshold, 0,
                                     out.value.token, out.value.gwId)];
      return out;
    }

    method ReceivePacket(sender: Account, self: AppId, netId: string) returns (reply: Option<Reply>)
      modifies this`boxes
      ensures Realizes(Execute(old(State()), Call.ReceivePacket(sender, self, netId)), old(State()), reply)
    {
      var box := HomeBox(self, netId);
      if self !in creators || creators[self] != sender || box !in boxes {
        return None;
      }
      var entry := boxes[box];
      if entry.state != ActiveSla || entry.counter == MAX_UINT64 {
        return None;
      }
      boxes := boxes[box := SlaEntry(netId, entry.name, entry.state, entry.price, entry.threshold,
                                     entry.counter + 1, entry.token, entry.gwId)];
      return Some(NoReply);
    }

    method BanHome(sender: Account, self: AppId, netId: string) returns (reply: Option<Reply>)
      modifies this`boxes
      ensures Realizes(Execute(old(State()), Call.BanHome(sender, self, netId)), old(State()), reply)
    {
      var box := HomeBox(self, netId);
      if self !in creators || creators[self] != sender || box !in boxes {
        return None;
      }
      var entry := boxes[box];
      if entry.state != ActiveSla {
        return None;
      }
      boxes := boxes[box := SlaEntry(netId, entry.name, Banned, entry.price, entry.threshold, entry.counter,
                                     entry.token, entry.gwId)];
      return Some(NoReply);
    }
  }
}
