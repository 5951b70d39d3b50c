/** The gateway registry of the packet-forwarder backend (registry.go). */
module Registry {
  import opened Prelude
  import opened Stats

  type Mac = string

  /** Inactive for longer than this, in seconds, a gateway is cleaned up. */
  const CLEANUP_DURATION := 60

  datatype Gateway = Gateway(stats: Collector, address: string, lastSeen: int, protocolVersion: nat)

  datatype Subscription = Subscription(subscribe: bool, gateway: Mac)

  /** The gateways that remain subscribed after the events, in order. */
  function Subscribed(events: seq<Subscription>): set<Mac> {
    if events == [] then {}
    else
      var before, last := Subscribed(events[..|events| - 1]), events[|events| - 1];
      if last.subscribe then before + {last.gateway} else before - {last.gateway}
  }

  lemma SubscribedAppend(events: seq<Subscription>, e: Subscription)
    ensures Subscribed(events + [e]) ==
            if e.subscribe then Subscribed(events) + {e.gateway} else Subscribed(events) - {e.gateway}
  {
    assert (events + [e])[..|events|] == events;
  }

  class Gateways {
    var gateways: map<Mac, Gateway>
    /** The subscribe events emitted so far. */
    ghost var events: seq<Subscription>

    /** Every gateway has a collector of its own, and whoever follows the events knows
        exactly the registered gateways. */
    ghost predicate Valid()
      reads this
    {
      && (forall m, n :: m in gateways && n in gateways && m != n ==> gateways[m].stats != gateways[n].stats)
      && Subscribed(events) == gateways.Keys
    }

    /** The statistics that reports of the gateway go to: none if it is not registered. */
    ghost function StatsOf(mac: Mac): (r: set<Collector>)
      reads this`gateways
    {
      if mac in gateways then {gateways[mac].stats} else {}
    }

    ghost predicate Counts(mac: Mac)
      reads this`gateways, StatsOf(mac)
    {
      mac in gateways ==> gateways[mac].stats.Valid()
    }

    /** What the statistics of the gateway have counted and not yet exported. */
    ghost function PendingOf(mac: Mac): Log
      reads this`gateways, StatsOf(mac)
    {
      if mac in gateways then gateways[mac].stats.pending else NOTHING
    }

    ghost function ExportedOf(mac: Mac): Log
      reads this`gateways, StatsOf(mac)
    {
      if mac in gateways then gateways[mac].stats.exported else NOTHING
    }

    constructor ()
      ensures Valid() && gateways == map[] && events == []
    {
      gateways := map[];
      events := [];
    }

    method Get(mac: Mac) returns (gw: Option<Gateway>)
      ensures gw == if mac in gateways then Some(gateways[mac]) else None
    {
      if mac !in gateways {
        return None;
      }
      return Some(gateways[mac]);
    }

    /** Registering again keeps the collector with everything it has counted. */
    method Set(mac: Mac, address: string, lastSeen: int, protocolVersion: nat)
      requires Valid()
      modifies this`gateways, this`events
      ensures Valid()
      ensures mac in gateways && gateways == old(gateways)[mac := gateways[mac]]
      ensures gateways[mac] == Gateway(gateways[mac].stats, address, lastSeen, protocolVersion)
      ensures mac in old(gateways) ==> gateways[mac].stats == old(gateways)[mac].stats
      ensures mac !in old(gateways) ==>
                fresh(gateways[mac].stats) && gateways[mac].stats.Valid() && gateways[mac].stats.pending == NOTHING
      ensures events == old(events) + [Subscription(true, mac)]
    {
      var stats;
      if mac !in gateways {
        stats := new Collector();
      } else {
        stats := gateways[mac].stats;
      }
      SubscribedAppend(events, Subscription(true, mac));
      events := events + [Subscription(true, mac)];
      gateways := gateways[mac := Gateway(stats, address, lastSeen, protocolVersion)];
    }

    /** Removes the gateways not seen for too long, in whatever order the map yields them. */
    method Cleanup(now: int)
      requires Valid()
      modifies this`gateways, this`events
      ensures Valid()
      ensures forall m :: m in gateways <==> m in old(gateways) && old(gateways)[m].lastSeen >= now - 60
      ensures forall m :: m in gateways ==> gateways[m] == old(gateways)[m]
      ensures old(events) <= events
    {
      var todo := gateways.Keys;
      while todo != {}
        invariant todo <= gateways.Keys
        invariant forall m :: m in gateways ==> m in old(gateways) && gateways[m] == old(gateways)[m]
        invariant forall m :: m in old(gateways) && m !in todo ==>
                    (m in gateways <==> old(gateways)[m].lastSeen >= now - CLEANUP_DURATION)
        invariant old(events) <= events && Subscribed(events) == gateways.Keys
        decreases todo
      {
        var m :| m in todo;
        todo := todo - {m};
        if gateways[m].lastSeen < now - CLEANUP_DURATION {
          SubscribedAppend(events, Subscription(false, m));
          events := events + [Subscription(false, m)];
          gateways := gateways - {m};
        }
      }
    }
  }
}
