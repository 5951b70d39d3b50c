/**
 The statistics collector of stats.go. Its counters are proved to summarise, modulo
 2^32, the exact log of what was counted since the last export.
 */
module Stats {
  import opened MapSum
  import opened Prelude

  /** Modulation parameters; their encoding as a map key is taken to be injective. */
  datatype Modulation = NoModulation | LoraInfo(lora: string) | FskInfo(fsk: string) | LrFhssInfo(lrFhss: string)

  datatype TxInfo = TxInfo(frequency: uint32, modulation: Modulation)

  /** Downlink statuses; all but the first two report a failure. */
  datatype Status = Ignored | Ok | Failure(name: string)

  /** One counted frame: its frequency and the modulation under which it was counted. */
  datatype Event = Event(frequency: uint32, modulation: Modulation)

  function Frequencies(events: seq<Event>): seq<uint32> {
    seq(|events|, i requires 0 <= i < |events| => events[i].frequency)
  }

  function Modulations(events: seq<Event>): seq<Modulation> {
    seq(|events|, i requires 0 <= i < |events| => events[i].modulation)
  }

  // ----- tallies

  function Get<K>(m: map<K, uint32>, k: K): uint32 {
    if k in m then m[k] else 0
  }

  /** Adding one in uint32. */
  function Next(n: uint32): uint32 {
    if n == TWO_32 - 1 then 0 else n + 1
  }

  /** `m[k] = m[k] + 1`. */
  function Bump<K>(m: map<K, uint32>, k: K): map<K, uint32> {
    m[k := Next(Get(m, k))]
  }

  /** What a uint32 counter shows after `n` events. */
  ghost function Counted(n: nat): uint32 {
    if n == 0 then 0 else Next(Counted(n - 1))
  }

  lemma {:induction false} CountedIsModulo(n: nat)
    ensures Counted(n) == n % TWO_32
  {
    if n > 0 {
      CountedIsModulo(n - 1);
    }
  }

  lemma {:induction false} CountedIsExact(n: nat)
    requires n < TWO_32
    ensures Counted(n) == n
  {
    if n > 0 {
      CountedIsExact(n - 1);
    }
  }

  /** The counts that counting the elements of `s` one by one leaves behind. */
  ghost function Tally<K>(s: seq<K>): map<K, uint32> {
    if s == [] then map[] else Bump(Tally(s[..|s| - 1]), s[|s| - 1])
  }

  lemma TallyOfAppend<K>(s: seq<K>, k: K)
    ensures Tally(s + [k]) == Bump(Tally(s), k)
  {
    assert (s + [k])[..|s|] == s;
  }

  /** A tally holds, for every key, how often it occurs. */
  lemma {:induction false} TallyCounts<K>(s: seq<K>, k: K)
    ensures k in Tally(s) <==> k in s
    ensures Get(Tally(s), k) == Counted(multiset(s)[k])
  {
    if s != [] {
      var before, last := s[..|s| - 1], s[|s| - 1];
      TallyCounts(before, k);
      assert s == before + [last];
    }
  }

  /** A tally's counts add up to the number of elements, up to multiples of 2^32. */
  lemma {:induction false} TallyAddsUp<K>(s: seq<K>) returns (laps: nat)
    ensures Sum(Tally(s)) + laps * TWO_32 == |s|
  {
    laps := 0;
    if s != [] {
      var before, last := s[..|s| - 1], s[|s| - 1];
      laps := TallyAddsUp(before);
      var count := Get(Tally(before), last);
      SumUpdate(Tally(before), last, Next(count));
      if count == TWO_32 - 1 {
        laps := laps + 1;
      }
    }
  }

  lemma TallyIsExact<K>(s: seq<K>)
    requires |s| < TWO_32
    ensures Sum(Tally(s)) == |s|
  {
    var laps := TallyAddsUp(s);
  }

  // ----- what is counted

  /** Downlinks know no LR-FHSS: its parameters are not looked up. */
  function DownlinkEvent(info: TxInfo): Event {
    Event(info.frequency, if info.modulation.LrFhssInfo? then NoModulation else info.modulation)
  }

  function CountedStatuses(ack: seq<Status>): seq<Status> {
    if ack == [] then []
    else if ack[|ack| - 1] == Ignored then CountedStatuses(ack[..|ack| - 1])
    else CountedStatuses(ack[..|ack| - 1]) + [ack[|ack| - 1]]
  }

  function TransmittedEvents(items: seq<TxInfo>, ack: seq<Status>): seq<Event> {
    if ack == [] then []
    else if ack[|ack| - 1] == Ok && |ack| <= |items|
      then TransmittedEvents(items, ack[..|ack| - 1]) + [DownlinkEvent(items[|ack| - 1])]
    else TransmittedEvents(items, ack[..|ack| - 1])
  }

  datatype GatewayStats = GatewayStats(
    rxPacketsReceived: uint32, rxPacketsReceivedOk: uint32,
    txPacketsReceived: uint32, txPacketsEmitted: uint32,
    rxPacketsPerFrequency: map<uint32, uint32>, txPacketsPerFrequency: map<uint32, uint32>,
    rxPacketsPerModulation: map<Modulation, uint32>, txPacketsPerModulation: map<Modulation, uint32>,
    txPacketsPerStatus: map<Status, uint32>)

  /** What has happened: uplinks, transmitted downlinks and downlink statuses. */
  datatype Log = Log(rx: seq<Event>, tx: seq<Event>, statuses: seq<Status>) {
    function Append(other: Log): Log {
      Log(rx + other.rx, tx + other.tx, statuses + other.statuses)
    }
  }

  const NOTHING := Log([], [], [])

  /** The log of one reported downlink acknowledgement. */
  function DownlinkLog(items: seq<TxInfo>, ack: seq<Status>): Log {
    Log([], TransmittedEvents(items, ack), CountedStatuses(ack))
  }

  /** The statistics of exactly these events. */
  ghost function StatsOf(log: Log): GatewayStats {
    GatewayStats(Counted(|log.rx|), Counted(|log.rx|), Counted(|log.tx|), Counted(|log.tx|),
                 Tally(Frequencies(log.rx)), Tally(Frequencies(log.tx)),
                 Tally(Modulations(log.rx)), Tally(Modulations(log.tx)), Tally(log.statuses))
  }

  lemma NothingCounted()
    ensures StatsOf(NOTHING) == GatewayStats(0, 0, 0, 0, map[], map[], map[], map[], map[])
  {
    assert Frequencies([]) == [];
    assert Modulations([]) == [];
  }

  class Collector {
    var rxCount: uint32
    var txCount: uint32
    var rxPerFreqCount: map<uint32, uint32>
    var txPerFreqCount: map<uint32, uint32>
    var rxPerModulationCount: map<Modulation, uint32>
    var txPerModulationCount: map<Modulation, uint32>
    var txStatusCount: map<Status, uint32>

    /** What has been counted since the last export, and everything exported before. */
    ghost var pending: Log
    ghost var exported: Log

    ghost function Current(): GatewayStats
      reads this
    {
      GatewayStats(rxCount, rxCount, txCount, txCount, rxPerFreqCount, txPerFreqCount,
                   rxPerModulationCount, txPerModulationCount, txStatusCount)
    }

    ghost predicate Valid()
      reads this
    {
      Current() == StatsOf(pending)
    }

    constructor ()
      ensures Valid() && pending == NOTHING && exported == NOTHING
    {
      rxCount, txCount := 0, 0;
      rxPerFreqCount, txPerFreqCount := map[], map[];
      rxPerModulationCount, txPerModulationCount := map[], map[];
      txStatusCount := map[];
      pending, exported := NOTHING, NOTHING;
      NothingCounted();
    }

    method CountUplink(info: TxInfo)
      requires Valid()
      modifies this`rxCount, this`rxPerFreqCount, this`rxPerModulationCount, this`pending
      ensures Valid() && pending == old(pending).(rx := old(pending).rx + [Event(info.frequency, info.modulation)])
    {
      rxCount := Next(rxCount);
      rxPerFreqCount := Bump(rxPerFreqCount, info.frequency);
      rxPerModulationCount := Bump(rxPerModulationCount, info.modulation);
      AppendEvent(pending.rx, Event(info.frequency, info.modulation));
      pending := pending.(rx := pending.rx + [Event(info.frequency, info.modulation)]);
    }

    method CountDownlink(items: seq<TxInfo>, ack: array<Status>)
      requires Valid()
      modifies this
      ensures Valid() && exported == old(exported)
      ensures pending == old(pending).Append(DownlinkLog(items, ack[..]))
    {
      for i := 0 to ack.Length
        invariant Valid() && exported == old(exported)
        invariant pending == old(pending).Append(DownlinkLog(items, ack[..i]))
      {
        assert ack[..i + 1][..i] == ack[..i];
        CountItem(items, i, ack[i]);
        ItemLogged(items, ack[..i + 1], old(pending));
      }
      assert ack[..ack.Length] == ack[..];
    }

    /** The loop body of CountDownlink. */
    method CountItem(items: seq<TxInfo>, i: nat, status: Status)
      requires Valid()
      modifies this
      ensures Valid() && exported == old(exported)
      ensures pending == AfterItem(old(pending), items, i, status)
    {
      if status == Ignored {
        return;
      }
      CountStatus(status);
      if status == Ok && i < |items| {
        CountTransmission(items[i]);
      }
    }

    method CountStatus(status: Status)
      requires Valid()
      modifies this`txStatusCount, this`pending
      ensures Valid() && pending == old(pending).(statuses := old(pending).statuses + [status])
    {
      txStatusCount := Bump(txStatusCount, status);
      TallyOfAppend(pending.statuses, status);
      pending := pending.(statuses := pending.statuses + [status]);
    }

    method CountTransmission(info: TxInfo)
      requires Valid()
      modifies this`txCount, this`txPerFreqCount, this`txPerModulationCount, this`pending
      ensures Valid() && pending == old(pending).(tx := old(pending).tx + [DownlinkEvent(info)])
    {
      var modulation := if info.modulation.LrFhssInfo? then NoModulation else info.modulation;
      txCount := Next(txCount);
      txPerFreqCount := Bump(txPerFreqCount, info.frequency);
      txPerModulationCount := Bump(txPerModulationCount, modulation);
      AppendEvent(pending.tx, DownlinkEvent(info));
      pending := pending.(tx := pending.tx + [DownlinkEvent(info)]);
    }

    method ExportStats() returns (stats: GatewayStats)
      requires Valid()
      modifies this
      ensures stats == StatsOf(old(pending))
      ensures Valid() && pending == NOTHING && exported == old(exported).Append(old(pending))
    {
      stats := GatewayStats(rxCount, rxCount, txCount, txCount, rxPerFreqCount, txPerFreqCount,
                            rxPerModulationCount, txPerModulationCount, txStatusCount);
      Reset();
    }

    method Reset()
      modifies this
      ensures Valid() && pending == NOTHING && exported == old(exported).Append(old(pending))
    {
      exported := exported.Append(pending);
      rxCount, txCount := 0, 0;
      rxPerFreqCount, txPerFreqCount := map[], map[];
      rxPerModulationCount, txPerModulationCount := map[], map[];
      txStatusCount := map[];
      pending := NOTHING;
      NothingCounted();
    }
  }

  function AfterItem(log: Log, items: seq<TxInfo>, i: nat, status: Status): Log {
    if status == Ignored then log
    else if status == Ok && i < |items|
      then Log(log.rx, log.tx + [DownlinkEvent(items[i])], log.statuses + [status])
    else Log(log.rx, log.tx, log.statuses + [status])
  }

  lemma ItemLogged(items: seq<TxInfo>, ack: seq<Status>, before: Log)
    requires ack != []
    ensures AfterItem(before.Append(DownlinkLog(items, ack[..|ack| - 1])), items, |ack| - 1, ack[|ack| - 1])
         == before.Append(DownlinkLog(items, ack))
  {
  }

  lemma AppendEvent(events: seq<Event>, e: Event)
    ensures Tally(Frequencies(events + [e])) == Bump(Tally(Frequencies(events)), e.frequency)
    ensures Tally(Modulations(events + [e])) == Bump(Tally(Modulations(events)), e.modulation)
  {
    assert Frequencies(events + [e]) == Frequencies(events) + [e.frequency];
    assert Modulations(events + [e]) == Modulations(events) + [e.modulation];
    TallyOfAppend(Frequencies(events), e.frequency);
    TallyOfAppend(Modulations(events), e.modulation);
  }

  // ----- what the statistics say

  lemma {:induction false} FrequenciesAreCounted(events: seq<Event>, f: uint32)
    ensures multiset(Frequencies(events))[f] == Count(events, (e: Event) => e.frequency == f)
  {
    if events != [] {
      var before, last := events[..|events| - 1], events[|events| - 1];
      FrequenciesAreCounted(before, f);
      assert Frequencies(events) == Frequencies(before) + [last.frequency];
    }
  }

  lemma {:induction false} ModulationsAreCounted(events: seq<Event>, m: Modulation)
    ensures multiset(Modulations(events))[m] == Count(events, (e: Event) => e.modulation == m)
  {
    if events != [] {
      var before, last := events[..|events| - 1], events[|events| - 1];
      ModulationsAreCounted(before, m);
      assert Modulations(events) == Modulations(before) + [last.modulation];
    }
  }

  lemma TallyIsModulo<K>(s: seq<K>, k: K)
    ensures Get(Tally(s), k) == multiset(s)[k] % TWO_32
  {
    TallyCounts(s, k);
    CountedIsModulo(multiset(s)[k]);
  }

  /** Every number exported is the number of logged events that it stands for, modulo 2^32. */
  lemma StatsAreCounts(log: Log, f: uint32, m: Modulation, status: Status)
    ensures var s := StatsOf(log);
            && s.rxPacketsReceived == s.rxPacketsReceivedOk == |log.rx| % TWO_32
            && s.txPacketsReceived == s.txPacketsEmitted == |log.tx| % TWO_32
            && Get(s.rxPacketsPerFrequency, f) == Count(log.rx, (e: Event) => e.frequency == f) % TWO_32
            && Get(s.txPacketsPerFrequency, f) == Count(log.tx, (e: Event) => e.frequency == f) % TWO_32
            && Get(s.rxPacketsPerModulation, m) == Count(log.rx, (e: Event) => e.modulation == m) % TWO_32
            && Get(s.txPacketsPerModulation, m) == Count(log.tx, (e: Event) => e.modulation == m) % TWO_32
            && Get(s.txPacketsPerStatus, status) == multiset(log.statuses)[status] % TWO_32
  {
    CountedIsModulo(|log.rx|);
    CountedIsModulo(|log.tx|);
    EventsAreCounted(log.rx, f, m);
    EventsAreCounted(log.tx, f, m);
    TallyIsModulo(log.statuses, status);
  }

  lemma EventsAreCounted(events: seq<Event>, f: uint32, m: Modulation)
    ensures Get(Tally(Frequencies(events)), f) == Count(events, (e: Event) => e.frequency == f) % TWO_32
    ensures Get(Tally(Modulations(events)), m) == Count(events, (e: Event) => e.modulation == m) % TWO_32
  {
    FrequenciesAreCounted(events, f);
    ModulationsAreCounted(events, m);
    TallyIsModulo(Frequencies(events), f);
    TallyIsModulo(Modulations(events), m);
  }

  /** The items of a frame that its acknowledgement says were transmitted as event `e`. */
  ghost function TransmittedAs(items: seq<TxInfo>, ack: seq<Status>, e: Event): set<int> {
    set i | 0 <= i < |ack| && i < |items| && ack[i] == Ok && items[i].frequency == e.frequency &&
            (if items[i].modulation.LrFhssInfo? then NoModulation else items[i].modulation) == e.modulation
  }

  /** An acknowledgement counts every status but IGNORED as often as it occurs, and for
      every OK the transmission of the frame's item at its place. */
  lemma AcknowledgementIsCounted(items: seq<TxInfo>, ack: seq<Status>, status: Status, e: Event)
    ensures var log := DownlinkLog(items, ack);
            && log.rx == []
            && multiset(log.statuses)[status] == (if status == Ignored then 0 else multiset(ack)[status])
            && multiset(log.tx)[e] == |TransmittedAs(items, ack, e)|
  {
    StatusesAreCounted(ack, status);
    TransmissionsAreCounted(items, ack, e);
  }

  lemma {:induction false} StatusesAreCounted(ack: seq<Status>, status: Status)
    ensures multiset(CountedStatuses(ack))[status] == if status == Ignored then 0 else multiset(ack)[status]
  {
    if ack != [] {
      StatusesAreCounted(ack[..|ack| - 1], status);
      assert ack == ack[..|ack| - 1] + [ack[|ack| - 1]];
    }
  }

  lemma {:induction false} TransmissionsAreCounted(items: seq<TxInfo>, ack: seq<Status>, e: Event)
    ensures multiset(TransmittedEvents(items, ack))[e] == |TransmittedAs(items, ack, e)|
  {
    if ack != [] {
      var before, n := ack[..|ack| - 1], |ack| - 1;
      TransmissionsAreCounted(items, before, e);
      OneMoreTransmission(items, ack, e);
    }
  }

  lemma OneMoreTransmission(items: seq<TxInfo>, ack: seq<Status>, e: Event)
    requires ack != []
    ensures var n, earlier := |ack| - 1, TransmittedAs(items, ack[..|ack| - 1], e);
            && n !in earlier
            && TransmittedAs(items, ack, e) ==
               if ack[n] == Ok && n < |items| && DownlinkEvent(items[n]) == e then earlier + {n} else earlier
  {
  }

  /** In any statistics of fewer than 2^32 events, the packet counts equal the sums
      of their per-frequency and of their per-modulation counts. */
  lemma CountsAddUp(log: Log)
    requires |log.rx| < TWO_32 && |log.tx| < TWO_32 && |log.statuses| < TWO_32
    ensures var s := StatsOf(log);
            && s.rxPacketsReceived == Sum(s.rxPacketsPerFrequency) == Sum(s.rxPacketsPerModulation) == |log.rx|
            && s.txPacketsEmitted == Sum(s.txPacketsPerFrequency) == Sum(s.txPacketsPerModulation) == |log.tx|
            && Sum(s.txPacketsPerStatus) == |log.statuses|
  {
    EventsAddUp(log.rx);
    EventsAddUp(log.tx);
    TallyIsExact(log.statuses);
  }

  lemma EventsAddUp(events: seq<Event>)
    requires |events| < TWO_32
    ensures Sum(Tally(Frequencies(events))) == Sum(Tally(Modulations(events))) == Counted(|events|) == |events|
  {
    TallyIsExact(Frequencies(events));
    TallyIsExact(Modulations(events));
    CountedIsExact(|events|);
  }

  /** Without that bound the sums still agree with the counts modulo 2^32. */
  lemma CountsAddUpModulo<K>(s: seq<K>)
    ensures Sum(Tally(s)) % TWO_32 == Counted(|s|)
  {
    var laps := TallyAddsUp(s);
    CountedIsModulo(|s|);
    assert (Sum(Tally(s)) + laps * TWO_32) % TWO_32 == Sum(Tally(s)) % TWO_32;
  }
}
