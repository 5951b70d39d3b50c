/**
 The concentrator loop of router_config.go: radios and channel slots of each
 SX1301 concentrator, and how exactly they reproduce the configured frequencies.
 */
module RouterConfig {
  import opened Channels
  import opened ChannelSort
  import opened Prelude
  import opened Sx1301v1

  datatype RadioConf = RadioConf(enable: bool, freq: uint32)

  datatype ChanMultiSF = ChanMultiSF(enable: bool, radio: nat, intermediate: int)

  datatype ChanLoraStd =
    ChanLoraStd(enable: bool, radio: nat, intermediate: int, bandwidth: uint32, spreadingFactor: uint32)

  const SLOTS: nat := 8

  const OFF := ChanMultiSF(false, 0, 0)

  type Slots = s: seq<ChanMultiSF> | |s| == 8 witness [OFF, OFF, OFF, OFF, OFF, OFF, OFF, OFF]

  datatype Sx1301Conf = Sx1301Conf(
    radio0: RadioConf, radio1: RadioConf, chanFsk: bool, chanLoraStd: ChanLoraStd, multiSF: Slots)

  const NO_SLOTS: Slots := [OFF, OFF, OFF, OFF, OFF, OFF, OFF, OFF]

  const EMPTY_CONF := Sx1301Conf(RadioConf(false, 0), RadioConf(false, 0), false, ChanLoraStd(false, 0, 0, 0, 0), NO_SLOTS)

  datatype Concentrator = Concentrator(
    multiSF: seq<uint32>, fsk: uint32, loraStd: uint32, loraStdBandwidth: uint32, loraStdSpreadingFactor: uint32)

  datatype ConfigError =
    | NoFit(concentrator: nat)    // GetRadioFrequencies failed
    | NoRadio(concentrator: nat)  // GetRadioForChannel failed

  // ----- channels of a concentrator

  function MultiSFChannel(frequency: uint32): Channel {
    Channel(frequency, Lora, LoraConfig(125, [7, 8, 9, 10, 11, 12]))
  }

  function FskChannel(frequency: uint32): Channel {
    Channel(frequency, Fsk, FskConfig(125, 50000))
  }

  function LoraStdChannel(k: Concentrator): Channel {
    Channel(k.loraStd, Lora, LoraConfig(k.loraStdBandwidth / 1000, [k.loraStdSpreadingFactor]))
  }

  function ChannelConfigs(k: Concentrator): seq<Channel> {
    seq(|k.multiSF|, i requires 0 <= i < |k.multiSF| => MultiSFChannel(k.multiSF[i]))
    + (if k.fsk != 0 then [FskChannel(k.fsk)] else [])
    + (if k.loraStd != 0 then [LoraStdChannel(k)] else [])
  }

  // ----- slots

  function RadioOf(radios: Radios, c: Channel): nat
    ensures RadioOf(radios, c) < 2
  {
    if InRadio(radios[0], c) then 0 else 1
  }

  function Intermediate(radios: Radios, c: Channel): int {
    c.frequency - radios[RadioOf(radios, c)]
  }

  function SlotFor(radios: Radios, c: Channel): ChanMultiSF {
    ChanMultiSF(true, RadioOf(radios, c), Intermediate(radios, c))
  }

  function LoraStdFor(radios: Radios, c: Channel): ChanLoraStd
    requires IsLoraStd(c)
  {
    ChanLoraStd(true, RadioOf(radios, c), Intermediate(radios, c),
                Mul32(c.config.loraBandwidth, 1000), c.config.spreadingFactors[0])
  }

  /** `channelI` is the next multi-SF slot; slots from 8 on are dropped. */
  datatype Assigned = Assigned(conf: Sx1301Conf, channelI: nat)

  function Assign(a: Assigned, radios: Radios, c: Channel): Assigned {
    if IsLoraStd(c) then a.(conf := a.conf.(chanLoraStd := LoraStdFor(radios, c)))
    else if IsMultiSF(c) then
      Assigned(
        if a.channelI < SLOTS then a.conf.(multiSF := a.conf.multiSF[a.channelI := SlotFor(radios, c)]) else a.conf,
        a.channelI + 1)
    else if c.modulation.Fsk? then a.(conf := a.conf.(chanFsk := true))
    else a
  }

  function AssignAll(base: Sx1301Conf, radios: Radios, s: seq<Channel>): Assigned {
    if s == [] then Assigned(base, 0) else Assign(AssignAll(base, radios, s[..|s| - 1]), radios, s[|s| - 1])
  }

  function WithRadios(base: Sx1301Conf, radios: Radios): Sx1301Conf {
    base.(radio0 := RadioConf(radios[0] != 0, radios[0]), radio1 := RadioConf(radios[1] != 0, radios[1]))
  }

  /** A conf slot that was filled from some sorted arrangement of the channels. */
  ghost predicate ConfiguredFrom(conf: Sx1301Conf, base: Sx1301Conf, given: seq<Channel>, s: seq<Channel>) {
    && Sorted(s)
    && multiset(s) == multiset(given)
    && Greedy(s).error == None
    && (forall c :: c in s ==> InRadio(Greedy(s).radios[0], c) || InRadio(Greedy(s).radios[1], c))
    && conf == AssignAll(WithRadios(base, Greedy(s).radios), Greedy(s).radios, s).conf
  }

  ghost predicate Configured(conf: Sx1301Conf, base: Sx1301Conf, given: seq<Channel>) {
    exists s :: ConfiguredFrom(conf, base, given, s)
  }

  // ----- the loops

  method CollectChannels(k: Concentrator) returns (channels: array<Channel>)
    ensures fresh(channels) && channels[..] == ChannelConfigs(k)
    ensures channels.Length == |k.multiSF| + (if k.fsk != 0 then 1 else 0) + (if k.loraStd != 0 then 1 else 0)
    ensures forall i :: 0 <= i < |k.multiSF| ==>
              channels[i] == Channel(k.multiSF[i], Lora, LoraConfig(125, [7, 8, 9, 10, 11, 12]))
    ensures k.fsk != 0 ==> channels[|k.multiSF|] == Channel(k.fsk, Fsk, FskConfig(125, 50000))
    ensures k.loraStd != 0 ==>
              channels[channels.Length - 1] ==
              Channel(k.loraStd, Lora, LoraConfig(k.loraStdBandwidth / 1000, [k.loraStdSpreadingFactor]))
  {
    var configs: seq<Channel> := [];
    for i := 0 to |k.multiSF|
      invariant configs == seq(i, j requires 0 <= j < i => MultiSFChannel(k.multiSF[j]))
    {
      configs := configs + [MultiSFChannel(k.multiSF[i])];
    }
    if k.fsk != 0 {
      configs := configs + [FskChannel(k.fsk)];
    }
    if k.loraStd != 0 {
      configs := configs + [LoraStdChannel(k)];
    }
    channels := new Channel[|configs|](i requires 0 <= i < |configs| => configs[i]);
  }

  /** One channel with its radio `r`. */
  method AssignChannel(confs: array<Sx1301Conf>, n: nat, given: nat, radios: Radios, r: nat, c: Channel)
      returns (channelI: nat)
    requires n < confs.Length && r == RadioOf(radios, c)
    modifies confs
    ensures Assigned(confs[n], channelI) == Assign(Assigned(old(confs[n]), given), radios, c)
    ensures forall m :: 0 <= m < confs.Length && m != n ==> confs[m] == old(confs[m])
  {
    channelI := given;
    if c.modulation.Lora? {
      if c.config.LoraConfig? {
        if |c.config.spreadingFactors| == 1 {
          confs[n] := confs[n].(chanLoraStd :=
            ChanLoraStd(true, r, c.frequency - radios[r], Mul32(c.config.loraBandwidth, 1000),
                        c.config.spreadingFactors[0]));
        } else {
          if channelI < SLOTS {
            confs[n] := confs[n].(multiSF :=
              confs[n].multiSF[channelI := ChanMultiSF(true, r, c.frequency - radios[r])]);
          }
          channelI := channelI + 1;
        }
      }
    } else if c.modulation.Fsk? {
      confs[n] := confs[n].(chanFsk := true);
    }
  }

  method AssignChannels(confs: array<Sx1301Conf>, n: nat, radios: Radios, channels: array<Channel>)
      returns (error: Option<ConfigError>)
    requires n < confs.Length
    modifies confs
    ensures error in {None, Some(NoRadio(n))}
    ensures error == None <==>
              forall c :: c in channels[..] ==> InRadio(radios[0], c) || InRadio(radios[1], c)
    ensures error == None ==> confs[n] == AssignAll(old(confs[n]), radios, channels[..]).conf
    ensures forall m :: 0 <= m < confs.Length && m != n ==> confs[m] == old(confs[m])
  {
    var channelI := 0;
    ghost var s := channels[..];
    for i := 0 to channels.Length
      invariant AssignAll(old(confs[n]), radios, s[..i]) == Assigned(confs[n], channelI)
      invariant forall j :: 0 <= j < i ==> InRadio(radios[0], s[j]) || InRadio(radios[1], s[j])
      invariant forall m :: 0 <= m < confs.Length && m != n ==> confs[m] == old(confs[m])
    {
      var c := channels[i];
      assert s[..i + 1][..i] == s[..i];
      var radio := GetRadioForChannel(radios, c);
      if radio == None {
        assert c in s;
        return Some(NoRadio(n));
      }
      channelI := AssignChannel(confs, n, channelI, radios, radio.value, c);
    }
    assert s[..channels.Length] == s;
    return None;
  }

  method ConfigureConcentrator(confs: array<Sx1301Conf>, n: nat, k: Concentrator) returns (error: Option<ConfigError>)
    requires n < confs.Length
    modifies confs
    ensures error in {None, Some(NoFit(n)), Some(NoRadio(n))}
    ensures error == None ==> Configured(confs[n], old(confs[n]), ChannelConfigs(k))
    ensures AllOrdinary(ChannelConfigs(k)) ==> error == if Coverable(ChannelConfigs(k)) then None else Some(NoFit(n))
    ensures (exists c :: c in ChannelConfigs(k) && InBand(c) && !Narrow(c)) ==> error != None
    ensures forall m :: 0 <= m < confs.Length && m != n ==> confs[m] == old(confs[m])
  {
    var channels := CollectChannels(k);
    ghost var given := channels[..];
    var radios, failed := GetRadioFrequencies(channels);
    ghost var s := channels[..];
    MultisetMembers(s, given);
    if failed != None {
      return Some(NoFit(n));
    }
    confs[n] := WithRadios(confs[n], radios);
    error := AssignChannels(confs, n, radios, channels);
    if error == None {
      assert ConfiguredFrom(confs[n], old(confs[n]), given, s);
      if exists c :: c in given && InBand(c) && !Narrow(c) {
        var c :| c in given && InBand(c) && !Narrow(c);
        WideChannelHasNoRadio(radios[0], c);
        WideChannelHasNoRadio(radios[1], c);
      }
    }
    if AllOrdinary(given) {
      RadiosForOrdinary(s);
    }
  }

  lemma RadiosForOrdinary(s: seq<Channel>)
    requires Sorted(s) && AllOrdinary(s) && Greedy(s).error == None
    ensures forall c :: c in s ==> InRadio(Greedy(s).radios[0], c) || InRadio(Greedy(s).radios[1], c)
  {
    forall c | c in s
      ensures InRadio(Greedy(s).radios[0], c) || InRadio(Greedy(s).radios[1], c)
    {
      EveryChannelHasARadio(s, c);
    }
  }

  /** No centre frequency at all passes the test for a channel wider than its radio. */
  lemma WideChannelHasNoRadio(f: uint32, c: Channel)
    requires InBand(c) && !Narrow(c)
    ensures !InRadio(f, c)
  {
    NoWrapAround(c);
    BandWiderThanRadio(Lowest(c), Highest(c), RadioBandwidth(Bandwidth(c)) / 2, f);
  }

  lemma BandWiderThanRadio(lowest: uint32, highest: uint32, half: uint32, f: uint32)
    requires highest - lowest > 2 * half + 1 && half <= 550000 && 400000 <= lowest && highest <= 4290500000
    ensures !(lowest >= Sub32(f, half) && highest <= Add32(f, half))
  {
    if f < half {
      assert Sub32(f, half) == f + TWO_32 - half;
    } else {
      assert Sub32(f, half) == f - half;
      assert Add32(f, half) == if f + half < TWO_32 then f + half else f + half - TWO_32;
    }
  }

  ghost predicate OrdinaryConcentrators(ks: seq<Concentrator>) {
    forall n :: 0 <= n < |ks| ==> AllOrdinary(ChannelConfigs(ks[n]))
  }

  /** The verdict on all concentrators: the first that two radios cannot serve is reported. */
  ghost predicate VerdictIsRight(ks: seq<Concentrator>, error: Option<ConfigError>) {
    if error == None then CoverableUpTo(ks, |ks|)
    else
      && error.value.NoFit?
      && error.value.concentrator < |ks|
      && CoverableUpTo(ks, error.value.concentrator)
      && !Coverable(ChannelConfigs(ks[error.value.concentrator]))
  }

  ghost predicate CoverableUpTo(ks: seq<Concentrator>, n: nat)
    requires n <= |ks|
  {
    forall m :: 0 <= m < n ==> Coverable(ChannelConfigs(ks[m]))
  }

  ghost predicate ConfiguredUpTo(confs: seq<Sx1301Conf>, ks: seq<Concentrator>, n: nat)
    requires n <= |confs| == |ks|
  {
    && (forall m :: 0 <= m < n ==> Configured(confs[m], EMPTY_CONF, ChannelConfigs(ks[m])))
    && (forall m :: n <= m < |ks| ==> confs[m] == EMPTY_CONF)
  }

  lemma ConfiguredOneMore(before: seq<Sx1301Conf>, after: seq<Sx1301Conf>, ks: seq<Concentrator>, n: nat)
    requires n < |before| == |after| == |ks| && ConfiguredUpTo(before, ks, n)
    requires forall m :: 0 <= m < |after| && m != n ==> after[m] == before[m]
    requires Configured(after[n], EMPTY_CONF, ChannelConfigs(ks[n]))
    ensures ConfiguredUpTo(after, ks, n + 1)
  {
  }

  method GetRouterConfig(concentrators: seq<Concentrator>) returns (confs: array<Sx1301Conf>, error: Option<ConfigError>)
    ensures fresh(confs) && confs.Length == |concentrators|
    ensures error == None ==> ConfiguredUpTo(confs[..], concentrators, |concentrators|)
    ensures OrdinaryConcentrators(concentrators) ==> VerdictIsRight(concentrators, error)
  {
    confs := new Sx1301Conf[|concentrators|](_ => EMPTY_CONF);
    for n := 0 to |concentrators|
      invariant ConfiguredUpTo(confs[..], concentrators, n)
      invariant OrdinaryConcentrators(concentrators) ==> CoverableUpTo(concentrators, n)
    {
      ghost var before := confs[..];
      assert before[n] == EMPTY_CONF;
      error := ConfigureConcentrator(confs, n, concentrators[n]);
      if error != None {
        return;
      }
      ConfiguredOneMore(before, confs[..], concentrators, n);
    }
    return confs, None;
  }

  // ----- what a configured concentrator contains

  lemma {:induction false} MultiSFOf(s: seq<Channel>)
    requires Sorted(s)
    ensures Sorted(MultiSF(s))
    ensures forall c :: c in MultiSF(s) <==> c in s && IsMultiSF(c)
    ensures forall c :: c in MultiSF(s) ==> MinRadioCenterFreq(c) <= MinRadioCenterFreq(s[|s| - 1])
  {
    if s != [] {
      var before, last := s[..|s| - 1], s[|s| - 1];
      MultiSFOf(before);
      assert s == before + [last];
      if before != [] {
        assert MinRadioCenterFreq(before[|before| - 1]) <= MinRadioCenterFreq(last);
      }
    }
  }

  /** Slot k holds the k-th multi-SF channel in sorted order; later slots stay as they were. */
  lemma {:induction false} SlotsInOrder(base: Sx1301Conf, radios: Radios, s: seq<Channel>)
    ensures var a := AssignAll(base, radios, s);
            && a.channelI == |MultiSF(s)|
            && a.conf.radio0 == base.radio0 && a.conf.radio1 == base.radio1
            && (forall k :: 0 <= k < SLOTS && k < |MultiSF(s)| ==> a.conf.multiSF[k] == SlotFor(radios, MultiSF(s)[k]))
            && (forall k :: |MultiSF(s)| <= k < SLOTS ==> a.conf.multiSF[k] == base.multiSF[k])
  {
    if s != [] {
      SlotsInOrder(base, radios, s[..|s| - 1]);
    }
  }

  lemma {:induction false} OneLoraStd(base: Sx1301Conf, radios: Radios, s: seq<Channel>, c: Channel)
    requires c in s && IsLoraStd(c) && forall d :: d in s && IsLoraStd(d) ==> d == c
    ensures AssignAll(base, radios, s).conf.chanLoraStd == LoraStdFor(radios, c)
  {
    var before, last := s[..|s| - 1], s[|s| - 1];
    assert s == before + [last];
    if last != c {
      OneLoraStd(base, radios, before, c);
    }
  }

  /** Radio frequency plus intermediate frequency is the channel's frequency, on an
      enabled radio, and the whole channel lies within that radio's bandwidth. */
  lemma SlotIsExact(s: seq<Channel>, c: Channel)
    requires Sorted(s) && AllOrdinary(s) && Greedy(s).error == None && c in s
    ensures var radios := Greedy(s).radios;
            && radios[RadioOf(radios, c)] != 0
            && radios[RadioOf(radios, c)] + Intermediate(radios, c) == c.frequency
            && -(RadioBandwidth(Bandwidth(c)) / 2 - Bandwidth(c) / 2)
               <= Intermediate(radios, c)
               <= RadioBandwidth(Bandwidth(c)) / 2 - Bandwidth(c) / 2
  {
    var radios := Greedy(s).radios;
    EveryChannelHasARadio(s, c);
    GreedyPlaces(s);
    var f := radios[RadioOf(radios, c)];
    InRadioIsCovers(f, c);
    NoWrapAround(c);
  }

  /** How often each channel occurs among the multi-SF ones. */
  lemma {:induction false} MultiSFCount(s: seq<Channel>, c: Channel)
    ensures multiset(MultiSF(s))[c] == if IsMultiSF(c) then multiset(s)[c] else 0
  {
    if s != [] {
      MultiSFCount(s[..|s| - 1], c);
      assert s == s[..|s| - 1] + [s[|s| - 1]];
    }
  }

  lemma MultiSFOfArrangement(s: seq<Channel>, t: seq<Channel>)
    requires multiset(s) == multiset(t)
    ensures multiset(MultiSF(s)) == multiset(MultiSF(t))
  {
    forall c
      ensures multiset(MultiSF(s))[c] == multiset(MultiSF(t))[c]
    {
      MultiSFCount(s, c);
      MultiSFCount(t, c);
    }
  }

  /** The statement for a whole concentrator: every slot up to the eighth, of a sorted
      arrangement of all its multi-SF channels. */
  lemma ConfiguredSlots(conf: Sx1301Conf, k: Concentrator, s: seq<Channel>)
    requires AllOrdinary(ChannelConfigs(k)) && ConfiguredFrom(conf, EMPTY_CONF, ChannelConfigs(k), s)
    ensures SlotsHold(conf, MultiSF(s)) && Sorted(MultiSF(s))
    ensures multiset(MultiSF(s)) == multiset(MultiSF(ChannelConfigs(k)))
  {
    MultiSFOf(s);
    MultiSFOfArrangement(s, ChannelConfigs(k));
    forall i | 0 <= i < SLOTS
      ensures SlotHolds(conf, MultiSF(s), i)
    {
      ConfiguredSlot(conf, k, s, i);
    }
  }

  lemma ConfiguredSlot(conf: Sx1301Conf, k: Concentrator, s: seq<Channel>, i: nat)
    requires AllOrdinary(ChannelConfigs(k)) && ConfiguredFrom(conf, EMPTY_CONF, ChannelConfigs(k), s) && i < SLOTS
    ensures SlotHolds(conf, MultiSF(s), i)
  {
    var radios := Greedy(s).radios;
    SlotsInOrder(WithRadios(EMPTY_CONF, radios), radios, s);
    if i < |MultiSF(s)| {
      MultisetMembers(s, ChannelConfigs(k));
      MultiSFOf(s);
      assert MultiSF(s)[i] in MultiSF(s);
      OnlyMultiSFAt125(k, MultiSF(s)[i]);
      ExactSlotHolds(conf, s, MultiSF(s), i);
    }
  }

  /** These are the configured multi-SF channels and nothing else. */
  lemma MultiSFOfConcentrator(k: Concentrator)
    ensures MultiSF(ChannelConfigs(k)) == seq(|k.multiSF|, i requires 0 <= i < |k.multiSF| => MultiSFChannel(k.multiSF[i]))
  {
    var channels := seq(|k.multiSF|, i requires 0 <= i < |k.multiSF| => MultiSFChannel(k.multiSF[i]));
    var fsk := if k.fsk != 0 then [FskChannel(k.fsk)] else [];
    var std := if k.loraStd != 0 then [LoraStdChannel(k)] else [];
    AllMultiSF(channels);
    OtherChannels(channels, fsk);
    OtherChannels(channels + fsk, std);
  }

  lemma {:induction false} AllMultiSF(s: seq<Channel>)
    requires forall i :: 0 <= i < |s| ==> IsMultiSF(s[i])
    ensures MultiSF(s) == s
  {
    if s != [] {
      AllMultiSF(s[..|s| - 1]);
    }
  }

  lemma OtherChannels(s: seq<Channel>, more: seq<Channel>)
    requires |more| <= 1 && (more != [] ==> !IsMultiSF(more[0]))
    ensures MultiSF(s + more) == MultiSF(s)
  {
    if more == [] {
      assert s + more == s;
    } else {
      assert (s + more)[..|s|] == s;
    }
  }

  lemma ExactSlotHolds(conf: Sx1301Conf, s: seq<Channel>, channels: seq<Channel>, i: nat)
    requires Sorted(s) && AllOrdinary(s) && Greedy(s).error == None
    requires i < SLOTS && i < |channels| && channels[i] in s && Bandwidth(channels[i]) == 125000
    requires conf.multiSF[i] == SlotFor(Greedy(s).radios, channels[i])
    requires conf.radio0 == RadioConf(Greedy(s).radios[0] != 0, Greedy(s).radios[0])
    requires conf.radio1 == RadioConf(Greedy(s).radios[1] != 0, Greedy(s).radios[1])
    ensures SlotHolds(conf, channels, i)
  {
    SlotIsExact(s, channels[i]);
  }

  /** The LoRa-STD slot, which is off when no such channel is configured. */
  lemma ConfiguredStd(conf: Sx1301Conf, k: Concentrator, s: seq<Channel>)
    requires AllOrdinary(ChannelConfigs(k)) && ConfiguredFrom(conf, EMPTY_CONF, ChannelConfigs(k), s)
    ensures if k.loraStd != 0 then StdHolds(conf, k) else !conf.chanLoraStd.enable
  {
    MultisetMembers(s, ChannelConfigs(k));
    var radios := Greedy(s).radios;
    OnlyOneLoraStd(k);
    if k.loraStd != 0 {
      var c := LoraStdChannel(k);
      assert c in ChannelConfigs(k);
      SlotsInOrder(WithRadios(EMPTY_CONF, radios), radios, s);
      OneLoraStd(WithRadios(EMPTY_CONF, radios), radios, s, c);
      ExactStdHolds(conf, k, s);
    } else {
      NoLoraStd(WithRadios(EMPTY_CONF, radios), radios, s);
    }
  }

  lemma ExactStdHolds(conf: Sx1301Conf, k: Concentrator, s: seq<Channel>)
    requires Sorted(s) && AllOrdinary(s) && Greedy(s).error == None && LoraStdChannel(k) in s
    requires conf.chanLoraStd == LoraStdFor(Greedy(s).radios, LoraStdChannel(k))
    requires conf.radio0 == RadioConf(Greedy(s).radios[0] != 0, Greedy(s).radios[0])
    requires conf.radio1 == RadioConf(Greedy(s).radios[1] != 0, Greedy(s).radios[1])
    ensures StdHolds(conf, k)
  {
    SlotIsExact(s, LoraStdChannel(k));
    StdBandwidth(k.loraStdBandwidth);
  }

  lemma StdBandwidth(hz: uint32)
    ensures Mul32(hz / 1000, 1000) == hz / 1000 * 1000 && hz - 1000 < hz / 1000 * 1000 <= hz
  {
  }

  lemma {:induction false} NoLoraStd(base: Sx1301Conf, radios: Radios, s: seq<Channel>)
    requires forall c :: c in s ==> !IsLoraStd(c)
    ensures AssignAll(base, radios, s).conf.chanLoraStd == base.chanLoraStd
  {
    if s != [] {
      var before := s[..|s| - 1];
      assert forall c :: c in before ==> c in s;
      NoLoraStd(base, radios, before);
    }
  }

  /** The FSK channel is on exactly if one is configured, and then some radio that is on
      has it within reach. */
  lemma ConfiguredFsk(conf: Sx1301Conf, k: Concentrator, s: seq<Channel>)
    requires AllOrdinary(ChannelConfigs(k)) && ConfiguredFrom(conf, EMPTY_CONF, ChannelConfigs(k), s)
    ensures conf.chanFsk <==> k.fsk != 0
    ensures k.fsk != 0 ==> Reaches(conf.radio0, k.fsk) || Reaches(conf.radio1, k.fsk)
  {
    MultisetMembers(s, ChannelConfigs(k));
    var radios := Greedy(s).radios;
    FskIsOnIff(WithRadios(EMPTY_CONF, radios), radios, s);
    OnlyOneFsk(k);
    if k.fsk != 0 {
      var c := FskChannel(k.fsk);
      assert c in ChannelConfigs(k);
      SlotIsExact(s, c);
      SlotsInOrder(WithRadios(EMPTY_CONF, radios), radios, s);
    }
  }

  predicate Reaches(radio: RadioConf, frequency: uint32) {
    radio.enable && -400000 <= frequency - radio.freq <= 400000
  }

  lemma {:induction false} FskIsOnIff(base: Sx1301Conf, radios: Radios, s: seq<Channel>)
    ensures AssignAll(base, radios, s).conf.chanFsk <==> base.chanFsk || exists c :: c in s && c.modulation.Fsk?
  {
    if s != [] {
      var before, last := s[..|s| - 1], s[|s| - 1];
      FskIsOnIff(base, radios, before);
      assert s == before + [last];
    }
  }

  lemma OnlyOneFsk(k: Concentrator)
    ensures forall c :: c in ChannelConfigs(k) && c.modulation.Fsk? ==> k.fsk != 0
  {
  }

  function RadioFreq(conf: Sx1301Conf, radio: nat): RadioConf {
    if radio == 0 then conf.radio0 else conf.radio1
  }

  ghost predicate SlotHolds(conf: Sx1301Conf, channels: seq<Channel>, i: nat)
    requires i < SLOTS
  {
    var slot := conf.multiSF[i];
    if i < |channels| then
      && slot.enable
      && RadioFreq(conf, slot.radio).enable
      && RadioFreq(conf, slot.radio).freq + slot.intermediate == channels[i].frequency
      && -400000 <= slot.intermediate <= 400000
    else
      slot == OFF
  }

  ghost predicate SlotsHold(conf: Sx1301Conf, channels: seq<Channel>) {
    forall i :: 0 <= i < SLOTS ==> SlotHolds(conf, channels, i)
  }

  ghost predicate StdHolds(conf: Sx1301Conf, k: Concentrator) {
    var std := conf.chanLoraStd;
    && std.enable
    && RadioFreq(conf, std.radio).enable
    && RadioFreq(conf, std.radio).freq + std.intermediate == k.loraStd
    && k.loraStdBandwidth - 1000 < std.bandwidth <= k.loraStdBandwidth && std.bandwidth % 1000 == 0
    && std.spreadingFactor == k.loraStdSpreadingFactor
    && (std.bandwidth == 125000 ==> -400000 <= std.intermediate <= 400000)
    && (std.bandwidth == 250000 ==> -375000 <= std.intermediate <= 375000)
    && (std.bandwidth == 500000 ==> -300000 <= std.intermediate <= 300000)
  }

  lemma OnlyMultiSFAt125(k: Concentrator, c: Channel)
    requires c in ChannelConfigs(k) && IsMultiSF(c)
    ensures Bandwidth(c) == 125000 && exists i :: 0 <= i < |k.multiSF| && c == MultiSFChannel(k.multiSF[i])
  {
    var i :| 0 <= i < |ChannelConfigs(k)| && ChannelConfigs(k)[i] == c;
    assert i < |k.multiSF|;
  }

  lemma OnlyOneLoraStd(k: Concentrator)
    ensures forall c :: c in ChannelConfigs(k) && IsLoraStd(c) ==> c == LoraStdChannel(k) && k.loraStd != 0
  {
  }
}
