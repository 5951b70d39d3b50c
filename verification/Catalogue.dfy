/**
 The catalogue contract (smart_contracts/_catalogo.py): one entry in the local state of
 every account that has opted in. The SLA contracts take their callers' identity from it.
 */
module Catalogue {
  import opened Prelude
  import opened SlaContract
  import opened SlaHistory

  /** The payment that goes with an opt-in, in microAlgos. */
  const PARTICIPATION: nat := 1_000_000

  /** What an opt-in writes. */
  const INITIAL_ENTRY := EndpointItem("", "", 0)

  /** The entries, without the accounts that have deleted theirs. */
  ghost function EntriesOf(local: map<Account, Option<EndpointItem>>): map<Account, EndpointItem> {
    map a | a in local && local[a].Some? :: local[a].value
  }

  predicate Acceptable(item: EndpointItem) {
    item.netId != "" && item.name != "" && item.endpoint > 0
  }

  class Endpoints {
    const creator: Account
    var local: map<Account, Option<EndpointItem>>

    ghost function Entries(): map<Account, EndpointItem>
      reads this
    {
      EntriesOf(local)
    }

    constructor (creator: Account)
      ensures this.creator == creator && Entries() == map[] && local == map[]
    {
      this.creator := creator;
      local := map[];
    }

    method OptIn(sender: Account, receiver: Account, amount: nat) returns (ok: bool)
      modifies this
      ensures ok <==> sender !in old(local) && receiver == creator && amount >= 1_000_000
      ensures Entries() == if ok then old(Entries())[sender := EndpointItem("", "", 0)] else old(Entries())
      ensures local.Keys == old(local).Keys + if ok then {sender} else {}
      ensures CatalogueOk(old(Entries())) ==> CatalogueOk(Entries())
    {
      if sender in local || receiver != creator || amount < PARTICIPATION {
        return false;
      }
      if CatalogueOk(Entries()) {
        OptInKeepsCatalogueOk(Entries(), sender);
      }
      local := local[sender := Some(INITIAL_ENTRY)];
      return true;
    }

    method CloseOut(sender: Account) returns (ok: bool)
      modifies this
      ensures ok <==> sender in old(local)
      ensures local == old(local) - {sender} && Entries() == old(Entries()) - {sender}
      ensures CatalogueOk(old(Entries())) ==> CatalogueOk(Entries())
    {
      if CatalogueOk(Entries()) {
        DeletionKeepsCatalogueOk(Entries(), sender);
      }
      ok := sender in local;
      local := local - {sender};
    }

    /** Sets the sender's own entry and no other. */
    method SetEntryProvider(sender: Account, item: EndpointItem) returns (ok: bool)
      modifies this
      ensures ok <==> sender in old(local) && item.netId != "" && item.name != "" && item.endpoint > 0
      ensures Entries() == if ok then old(Entries())[sender := item] else old(Entries())
      ensures local.Keys == old(local).Keys
      ensures ok && CatalogueOk(old(Entries())) ==> (CatalogueOk(Entries()) <==> Unused(old(Entries()), sender, item))
    {
      if sender !in local || |item.netId| == 0 || |item.name| == 0 || item.endpoint == 0 {
        return false;
      }
      if CatalogueOk(Entries()) {
        EntryKeepsCatalogueOkIff(Entries(), sender, item);
      }
      local := local[sender := Some(item)];
      return true;
    }

    method GetEntryProvider(provider: Account) returns (item: Option<EndpointItem>)
      ensures item == if provider in Entries() then Some(Entries()[provider]) else None
    {
      if provider in local {
        item := local[provider];
      } else {
        item := None;
      }
    }

    method DeleteEndpoint(sender: Account) returns (ok: bool)
      modifies this
      ensures ok <==> sender in old(Entries())
      ensures Entries() == old(Entries()) - {sender} && local.Keys == old(local).Keys
      ensures CatalogueOk(old(Entries())) ==> CatalogueOk(Entries())
    {
      if CatalogueOk(Entries()) {
        DeletionKeepsCatalogueOk(Entries(), sender);
      }
      if sender !in local || local[sender] == None {
        return false;
      }
      local := local[sender := None];
      return true;
    }
  }

  // ----- the catalogue that the SLA protocol relies on

  /** No other registered account uses this id or this contract. */
  ghost predicate Unused(entries: map<Account, EndpointItem>, sender: Account, item: EndpointItem) {
    forall a :: Registered(entries, a) && a != sender ==>
      entries[a].netId != item.netId && entries[a].endpoint != item.endpoint
  }

  /** The catalogue checks no duplicates: an accepted entry keeps ids and contracts
      distinct exactly when no other account uses them. */
  lemma EntryKeepsCatalogueOkIff(entries: map<Account, EndpointItem>, sender: Account, item: EndpointItem)
    requires CatalogueOk(entries) && Acceptable(item)
    ensures CatalogueOk(entries[sender := item]) <==> Unused(entries, sender, item)
  {
    var changed := entries[sender := item];
    assert Registered(changed, sender);
    assert forall a :: a != sender ==> (Registered(changed, a) <==> Registered(entries, a));
  }

  /** An opt-in writes an entry that names no contract and disturbs no SLA. */
  lemma OptInKeepsCatalogueOk(entries: map<Account, EndpointItem>, sender: Account)
    requires CatalogueOk(entries)
    ensures CatalogueOk(entries[sender := INITIAL_ENTRY])
    ensures !Registered(entries[sender := INITIAL_ENTRY], sender)
  {
    var changed := entries[sender := INITIAL_ENTRY];
    assert forall a :: Registered(changed, a) ==> a != sender && Registered(entries, a);
  }

  lemma DeletionKeepsCatalogueOk(entries: map<Account, EndpointItem>, sender: Account)
    requires CatalogueOk(entries)
    ensures CatalogueOk(entries - {sender})
  {
    assert forall a :: Registered(entries - {sender}, a) ==> Registered(entries, a);
  }
}
