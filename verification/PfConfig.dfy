/**
 The second allocator (pf_config.go), in plain integers and without an error for
 channels that fit no radio. It places the same radios as Sx1301v1, and its
 assignments are sound exactly when that allocator reports no error.
 */
module PfConfig {
  import opened Channels
  import opened ChannelSort
  import opened Prelude
  import Sx1301v1

  datatype RadioConfig = RadioConfig(enable: bool, freq: int)

  datatype MultiSFConfig = MultiSFConfig(enable: bool, radio: nat, intermediate: int, freq: int)

  datatype LoraStdConfig =
    LoraStdConfig(enable: bool, radio: nat, intermediate: int, bandwidth: int, spreadFactor: int, freq: int)

  datatype FskChannelConfig =
    FskChannelConfig(enable: bool, radio: nat, intermediate: int, bandwidth: int, dataRate: int, freq: int)

  type RadioPair = s: seq<RadioConfig> | |s| == 2 witness [RadioConfig(false, 0), RadioConfig(false, 0)]

  const CHANNEL_COUNT: nat := 8

  datatype GatewayConf = GatewayConf(
    radios: RadioPair, multiSF: seq<MultiSFConfig>, loraStd: LoraStdConfig, fsk: FskChannelConfig)

  const OFF := MultiSFConfig(false, 0, 0, 0)
  const NO_LORA_STD := LoraStdConfig(false, 0, 0, 0, 0, 0)
  const NO_FSK := FskChannelConfig(false, 0, 0, 0, 0, 0)
  const NO_RADIOS: RadioPair := [RadioConfig(false, 0), RadioConfig(false, 0)]
  const NO_CONF := GatewayConf(NO_RADIOS, [OFF, OFF, OFF, OFF, OFF, OFF, OFF, OFF], NO_LORA_STD, NO_FSK)

  datatype PfError =
    | FskConfigMissing
    | FskAlreadyConfigured
    | LoraConfigMissing
    | LoraStdAlreadyConfigured
    | TooManyMultiSF
    | InvalidModulation

  // ----- radios

  function Place(radios: RadioPair, c: Channel): RadioPair {
    if !radios[0].enable then radios[0 := RadioConfig(true, Right(c))]
    else if Left(c) <= radios[0].freq then radios
    else if !radios[1].enable then radios[1 := RadioConfig(true, Right(c))]
    else radios
  }

  function Radios(s: seq<Channel>): RadioPair {
    if s == [] then NO_RADIOS else Place(Radios(s[..|s| - 1]), s[|s| - 1])
  }

  /** Radio 0 when no radio serves the channel. */
  function RadioFor(radios: RadioPair, c: Channel): nat
    ensures RadioFor(radios, c) < 2
  {
    if Covers(radios[0].freq, c) then 0 else if Covers(radios[1].freq, c) then 1 else 0
  }

  // ----- channels

  datatype State = State(conf: GatewayConf, multiSFCounter: nat, error: Option<PfError>)

  function SlotFor(radios: RadioPair, c: Channel): MultiSFConfig {
    var radio := RadioFor(radios, c);
    MultiSFConfig(true, radio, c.frequency - radios[radio].freq, c.frequency)
  }

  function Assign(st: State, c: Channel): State
    requires |st.conf.multiSF| == CHANNEL_COUNT
  {
    var radio := RadioFor(st.conf.radios, c);
    var intermediate := c.frequency - st.conf.radios[radio].freq;
    if st.error.Some? then st
    else if c.modulation.Fsk? then
      if !c.config.FskConfig? then st.(error := Some(FskConfigMissing))
      else if st.conf.fsk.enable then st.(error := Some(FskAlreadyConfigured))
      else
        st.(conf := st.conf.(fsk :=
          FskChannelConfig(true, radio, intermediate, c.config.fskBandwidth, c.config.bitrate, c.frequency)))
    else if c.modulation.Lora? then
      if !c.config.LoraConfig? then st.(error := Some(LoraConfigMissing))
      else if |c.config.spreadingFactors| == 1 then
        if st.conf.loraStd.enable then st.(error := Some(LoraStdAlreadyConfigured))
        else
          st.(conf := st.conf.(loraStd :=
            LoraStdConfig(true, radio, intermediate, Bandwidth(c), c.config.spreadingFactors[0], c.frequency)))
      else if st.multiSFCounter >= CHANNEL_COUNT then st.(error := Some(TooManyMultiSF))
      else
        State(st.conf.(multiSF := st.conf.multiSF[st.multiSFCounter := SlotFor(st.conf.radios, c)]),
              st.multiSFCounter + 1, None)
    else st.(error := Some(InvalidModulation))
  }

  function AssignAll(radios: RadioPair, s: seq<Channel>): (st: State)
    ensures |st.conf.multiSF| == CHANNEL_COUNT && st.conf.radios == radios
  {
    if s == [] then State(NO_CONF.(radios := radios), 0, None)
    else Assign(AssignAll(radios, s[..|s| - 1]), s[|s| - 1])
  }

  predicate Sorted(s: seq<Channel>) {
    forall i, j :: 0 <= i < j < |s| ==> Right(s[i]) <= Right(s[j])
  }

  method GetGatewayConfig(channels: array<Channel>) returns (conf: GatewayConf, error: Option<PfError>)
    modifies channels
    ensures Sorted(channels[..])
    ensures multiset(channels[..]) == multiset(old(channels[..]))
    ensures var st := AssignAll(Radios(channels[..]), channels[..]); conf == st.conf && error == st.error
    ensures error == None ==> Holds(conf, channels[..])
    ensures error == None && Sx1301v1.AllOrdinary(channels[..]) && Sx1301v1.Coverable(channels[..]) ==>
              |conf.multiSF| == 8 && Within(conf, channels[..])
  {
    Sort(channels, c => Right(c));
    var radios := DefineRadios(channels);
    conf, error := AssignChannels(radios, channels);
    if error == None {
      SlotsAreExact(channels[..]);
      if Sx1301v1.AllOrdinary(channels[..]) && Sx1301v1.Coverable(channels[..]) {
        SlotsAreWithin(channels[..]);
      }
    }
  }

  method DefineRadios(channels: array<Channel>) returns (radios: RadioPair)
    ensures radios == Radios(channels[..])
  {
    radios := NO_RADIOS;
    for n := 0 to channels.Length
      invariant radios == Radios(channels[..n])
    {
      assert channels[..n + 1][..n] == channels[..n];
      radios := PlaceRadio(radios, channels[n]);
    }
    assert channels[..channels.Length] == channels[..];
  }

  method AssignChannels(radios: RadioPair, channels: array<Channel>) returns (conf: GatewayConf, error: Option<PfError>)
    ensures var st := AssignAll(radios, channels[..]); conf == st.conf && error == st.error
  {
    conf, error := NO_CONF.(radios := radios), None;
    var multiSFCounter := 0;
    for n := 0 to channels.Length
      invariant AssignAll(radios, channels[..n]) == State(conf, multiSFCounter, None)
    {
      assert channels[..n + 1][..n] == channels[..n];
      var radio := FindRadio(conf.radios, channels[n]);
      conf, multiSFCounter, error := AssignChannel(conf, multiSFCounter, radio, channels[n]);
      if error != None {
        assert channels[..][..n + 1] == channels[..n + 1];
        ErrorStays(radios, channels[..], n + 1);
        return;
      }
    }
    assert channels[..channels.Length] == channels[..];
    error := None;
  }

  /** The loop over the radios for one channel. */
  method PlaceRadio(given: RadioPair, c: Channel) returns (radios: RadioPair)
    ensures radios == Place(given, c)
  {
    radios := given;
    for i := 0 to 2
      invariant radios == given
      invariant i > 0 ==> given[0].enable && Left(c) > given[0].freq
      invariant i == 2 ==> given[1].enable
    {
      var r := given[i];
      if !r.enable {
        radios := radios[i := RadioConfig(true, Lowest(c) + RadioBandwidth(Bandwidth(c)) / 2)];
        break;
      }
      if Highest(c) <= r.freq + RadioBandwidth(Bandwidth(c)) / 2 {
        break;
      }
    }
  }

  method FindRadio(radios: RadioPair, c: Channel) returns (radio: nat)
    ensures radio == RadioFor(radios, c)
  {
    radio := 0;
    for i := 0 to 2
      invariant radio == 0
      invariant forall j :: 0 <= j < i ==> !Covers(radios[j].freq, c)
    {
      var r := radios[i];
      if Lowest(c) >= r.freq - RadioBandwidth(Bandwidth(c)) / 2 && Highest(c) <= r.freq + RadioBandwidth(Bandwidth(c)) / 2 {
        radio := i;
        break;
      }
    }
  }

  method AssignChannel(given: GatewayConf, counter: nat, radio: nat, c: Channel)
      returns (conf: GatewayConf, multiSFCounter: nat, error: Option<PfError>)
    requires |given.multiSF| == CHANNEL_COUNT && radio == RadioFor(given.radios, c)
    ensures State(conf, multiSFCounter, error) == Assign(State(given, counter, None), c)
  {
    conf, multiSFCounter, error := given, counter, None;
    var intermediate := c.frequency - conf.radios[radio].freq;
    match c.modulation {
      case Fsk =>
        if !c.config.FskConfig? {
          error := Some(FskConfigMissing);
        } else if conf.fsk.enable {
          error := Some(FskAlreadyConfigured);
        } else {
          conf := conf.(fsk :=
            FskChannelConfig(true, radio, intermediate, c.config.fskBandwidth, c.config.bitrate, c.frequency));
        }
      case Lora =>
        if !c.config.LoraConfig? {
          error := Some(LoraConfigMissing);
        } else if |c.config.spreadingFactors| == 1 {
          if conf.loraStd.enable {
            error := Some(LoraStdAlreadyConfigured);
          } else {
            conf := conf.(loraStd :=
              LoraStdConfig(true, radio, intermediate, Bandwidth(c), c.config.spreadingFactors[0], c.frequency));
          }
        } else if multiSFCounter >= CHANNEL_COUNT {
          error := Some(TooManyMultiSF);
        } else {
          conf := conf.(multiSF :=
            conf.multiSF[multiSFCounter := MultiSFConfig(true, radio, intermediate, c.frequency)]);
          multiSFCounter := multiSFCounter + 1;
        }
      case OtherModulation =>
        error := Some(InvalidModulation);
    }
  }

  lemma {:induction false} ErrorStays(radios: RadioPair, s: seq<Channel>, n: nat)
    requires n <= |s| && AssignAll(radios, s[..n]).error.Some?
    ensures AssignAll(radios, s) == AssignAll(radios, s[..n])
    decreases |s| - n
  {
    if n < |s| {
      assert s[..n + 1][..n] == s[..n];
      ErrorStays(radios, s, n + 1);
    } else {
      assert s[..n] == s;
    }
  }

  // ----- agreement with the other allocator

  /** The same radio, whose centre is 0 in the other allocator when it is not in use. */
  predicate SameRadio(r: RadioConfig, f: int) {
    r.freq == f && (r.enable <==> f != 0)
  }

  /** Both allocators place the same radios, whether or not every channel fits. */
  lemma {:induction false} SameRadios(s: seq<Channel>)
    requires Sx1301v1.Sorted(s) && Sx1301v1.AllOrdinary(s)
    ensures SameRadio(Radios(s)[0], Sx1301v1.Greedy(s).radios[0])
    ensures SameRadio(Radios(s)[1], Sx1301v1.Greedy(s).radios[1])
    ensures Sx1301v1.Greedy(s).error.Some? ==> Sx1301v1.Greedy(s).radios[1] != 0
  {
    if s != [] {
      var before, c := s[..|s| - 1], s[|s| - 1];
      SameRadios(before);
      Sx1301v1.GreedyPlaces(before);
      assert c in s;
      var p := Sx1301v1.Greedy(before);
      if p.error == None {
        Sx1301v1.PlaceByInterval(p, c);
      }
    }
  }

  lemma SameOrder(s: seq<Channel>)
    requires Sx1301v1.AllOrdinary(s)
    ensures Sorted(s) <==> Sx1301v1.Sorted(s)
  {
    forall i | 0 <= i < |s|
      ensures Sx1301v1.MinRadioCenterFreq(s[i]) == Right(s[i])
    {
      assert s[i] in s;
      Sx1301v1.OrdinaryInterval(s[i]);
    }
  }

  /** Where both allocators work on arrangements of the same channels, their radios
      are the same and so is the radio of every channel. */
  lemma AllocatorsAgree(given: seq<Channel>, s: seq<Channel>, t: seq<Channel>, c: Channel)
    requires Sx1301v1.AllOrdinary(given) && multiset(s) == multiset(given) && multiset(t) == multiset(given)
    requires Sx1301v1.Sorted(s) && Sorted(t) && Sx1301v1.Greedy(s).error == None && c in given
    ensures SameRadio(Radios(t)[0], Sx1301v1.Greedy(s).radios[0]) && SameRadio(Radios(t)[1], Sx1301v1.Greedy(s).radios[1])
    ensures RadioFor(Radios(t), c) == if Sx1301v1.InRadio(Sx1301v1.Greedy(s).radios[0], c) then 0 else 1
  {
    MultisetMembers(s, given);
    MultisetMembers(t, given);
    SameOrder(t);
    SameRadios(t);
    Sx1301v1.OrderDoesNotMatter(s, t);
    Sx1301v1.GreedyPlaces(s);
    Sx1301v1.EveryChannelHasARadio(s, c);
    Sx1301v1.InRadioIsCovers(Sx1301v1.Greedy(s).radios[0], c);
    Sx1301v1.InRadioIsCovers(Sx1301v1.Greedy(s).radios[1], c);
  }

  /** There is no error for channels that fit nowhere: every channel lies within the
      radio it is assigned to exactly when two centre frequencies suffice. */
  lemma AssignmentsAreSoundIff(s: seq<Channel>)
    requires Sorted(s) && Sx1301v1.AllOrdinary(s)
    ensures (forall c :: c in s ==> Covers(Radios(s)[RadioFor(Radios(s), c)].freq, c)) <==> Sx1301v1.Coverable(s)
  {
    SameOrder(s);
    SameRadios(s);
    Sx1301v1.GreedyIsOptimal(s);
    Sx1301v1.GreedyPlaces(s);
    var p := Sx1301v1.Greedy(s);
    if p.error == None {
      Sx1301v1.PlacementCovers(s);
    } else {
      var i :| 0 <= i < |s| && Left(s[i]) > p.radios[0] && Left(s[i]) > p.radios[1];
      assert s[i] in s;
      CoversIsAnInterval(p.radios[0], s[i]);
      CoversIsAnInterval(p.radios[1], s[i]);
    }
  }

  // ----- when the configuration succeeds

  predicate IsComplete(c: Channel) {
    IsMultiSF(c) || IsLoraStd(c) || IsFsk(c)
  }

  ghost predicate AllComplete(s: seq<Channel>) {
    forall c :: c in s ==> IsComplete(c)
  }

  /** Enough slots of every kind. */
  predicate Fits(s: seq<Channel>) {
    && Count(s, c => IsMultiSF(c)) <= CHANNEL_COUNT
    && Count(s, c => IsLoraStd(c)) <= 1
    && Count(s, c => IsFsk(c)) <= 1
  }

  lemma AllCompleteSplits(before: seq<Channel>, c: Channel)
    ensures AllComplete(before + [c]) <==> AllComplete(before) && IsComplete(c)
  {
    assert forall d :: d in before ==> d in before + [c];
    assert c in before + [c];
  }

  /** What an error-free assignment has used up so far. */
  ghost predicate Used(st: State, s: seq<Channel>) {
    && st.multiSFCounter == Count(s, c => IsMultiSF(c)) <= CHANNEL_COUNT
    && Count(s, c => IsLoraStd(c)) == (if st.conf.loraStd.enable then 1 else 0)
    && Count(s, c => IsFsk(c)) == (if st.conf.fsk.enable then 1 else 0)
  }

  /** The configuration succeeds exactly for complete channels, at most 8 multi-SF,
      one LoRa-STD and one FSK among them. */
  lemma {:induction false} SucceedsIff(radios: RadioPair, s: seq<Channel>)
    ensures AssignAll(radios, s).error == None <==> AllComplete(s) && Fits(s)
    ensures AssignAll(radios, s).error == None ==> Used(AssignAll(radios, s), s)
  {
    if s != [] {
      var before, c := s[..|s| - 1], s[|s| - 1];
      SucceedsIff(radios, before);
      assert s == before + [c];
      AllCompleteSplits(before, c);
      if AssignAll(radios, before).error == None {
        assert Used(AssignAll(radios, before), before);
      }
    }
  }

  /** What an error says about channel `c` after the channels `before`. */
  ghost predicate Blames(e: PfError, before: seq<Channel>, c: Channel) {
    match e
    case FskConfigMissing => c.modulation.Fsk? && !c.config.FskConfig?
    case FskAlreadyConfigured => c.modulation.Fsk? && exists d :: d in before && d.modulation.Fsk?
    case LoraConfigMissing => c.modulation.Lora? && !c.config.LoraConfig?
    case LoraStdAlreadyConfigured =>
      IsLoraStd(c) && exists d :: d in before && IsLoraStd(d)
    case TooManyMultiSF => IsMultiSF(c) && |MultiSF(before)| == 8
    case InvalidModulation => !c.modulation.Fsk? && !c.modulation.Lora?
  }

  lemma {:induction false} EnabledIsTaken(radios: RadioPair, s: seq<Channel>)
    ensures var st := AssignAll(radios, s);
            && (st.conf.fsk.enable ==> exists d :: d in s && d.modulation.Fsk?)
            && (st.conf.loraStd.enable ==> exists d :: d in s && IsLoraStd(d))
  {
    if s != [] {
      var before, last := s[..|s| - 1], s[|s| - 1];
      EnabledIsTaken(radios, before);
      assert last in s && forall d :: d in before ==> d in s;
    }
  }

  /** A failed configuration blames the first channel that cannot be added, for what is
      wrong with it. */
  lemma {:induction false} ErrorsAreRight(radios: RadioPair, s: seq<Channel>) returns (n: nat)
    requires AssignAll(radios, s).error.Some?
    ensures n < |s| && AssignAll(radios, s[..n]).error == None
    ensures Blames(AssignAll(radios, s).error.value, s[..n], s[n])
  {
    n := |s| - 1;
    if AssignAll(radios, s[..n]).error.Some? {
      var first := ErrorsAreRight(radios, s[..n]);
      assert s[..n][..first] == s[..first];
      n := first;
    } else {
      EnabledIsTaken(radios, s[..n]);
      SlotsArePacked(radios, s[..n]);
      SucceedsIff(radios, s[..n]);
    }
  }

  /** Multi-SF slots are filled in order from slot 0. */
  lemma {:induction false} SlotsArePacked(radios: RadioPair, s: seq<Channel>)
    ensures var st := AssignAll(radios, s);
            st.error == None ==>
              && st.multiSFCounter == |MultiSF(s)|
              && (forall k :: 0 <= k < |MultiSF(s)| && k < CHANNEL_COUNT ==>
                    st.conf.multiSF[k] == SlotFor(radios, MultiSF(s)[k]))
              && (forall k :: |MultiSF(s)| <= k < CHANNEL_COUNT ==> st.conf.multiSF[k] == OFF)
  {
    if s != [] {
      SlotsArePacked(radios, s[..|s| - 1]);
    }
  }

  // ----- what a configuration contains

  /** In sorted order the first radio stands at the right end of the first channel, and
      as long as the second is off the first reaches every other channel. */
  lemma {:induction false} RadiosStand(s: seq<Channel>)
    requires Sorted(s) && s != []
    ensures Radios(s)[0] == RadioConfig(true, Right(s[0]))
    ensures !Radios(s)[1].enable ==> forall i :: 0 < i < |s| ==> Left(s[i]) <= Right(s[0])
  {
    var before := s[..|s| - 1];
    if before != [] {
      RadiosStand(before);
      assert forall i :: 0 <= i < |before| ==> before[i] == s[i];
    }
  }

  /** No channel is assigned to a radio that is off. */
  lemma RadioIsOn(s: seq<Channel>, c: Channel)
    requires Sorted(s) && c in s
    ensures Radios(s)[RadioFor(Radios(s), c)].enable
  {
    RadiosStand(s);
    if !Radios(s)[1].enable {
      CoversIsAnInterval(Radios(s)[0].freq, c);
      CoversIsAnInterval(Radios(s)[1].freq, c);
      var i :| 0 <= i < |s| && s[i] == c;
      assert Right(s[0]) <= Right(c);
    }
  }

  /** The radio is on, and its centre and the intermediate frequency add up to `freq`. */
  ghost predicate Tuned(radios: RadioPair, radio: nat, intermediate: int, freq: int) {
    radio < 2 && radios[radio].enable && radios[radio].freq + intermediate == freq
  }

  /** Slot `k` is that of the k-th multi-SF channel, or off. */
  ghost predicate MultiSFSlotHolds(conf: GatewayConf, channels: seq<Channel>, k: nat) {
    k < |conf.multiSF| &&
    var slot := conf.multiSF[k];
    if k < |channels|
    then slot.enable && slot.freq == channels[k].frequency && Tuned(conf.radios, slot.radio, slot.intermediate, slot.freq)
    else slot == MultiSFConfig(false, 0, 0, 0)
  }

  ghost predicate LoraStdHolds(conf: GatewayConf, c: Channel) {
    var std := conf.loraStd;
    && std.enable && std.freq == c.frequency && Tuned(conf.radios, std.radio, std.intermediate, std.freq)
    && c.config.LoraConfig?
    && std.bandwidth == 1000 * c.config.loraBandwidth && [std.spreadFactor] == c.config.spreadingFactors
  }

  ghost predicate FskHolds(conf: GatewayConf, c: Channel) {
    var fsk := conf.fsk;
    && fsk.enable && fsk.freq == c.frequency && Tuned(conf.radios, fsk.radio, fsk.intermediate, fsk.freq)
    && c.config.FskConfig? && fsk.bandwidth == c.config.fskBandwidth && fsk.dataRate == c.config.bitrate
  }

  /** The slots of a configuration are those of the channels, in order, and no others. */
  ghost predicate Holds(conf: GatewayConf, s: seq<Channel>) {
    && (forall k :: 0 <= k < 8 ==> MultiSFSlotHolds(conf, MultiSF(s), k))
    && (forall c :: c in s && c.modulation.Lora? && c.config.LoraConfig? && |c.config.spreadingFactors| == 1 ==>
          LoraStdHolds(conf, c))
    && (forall c :: c in s && c.modulation.Fsk? ==> FskHolds(conf, c))
    && (conf.loraStd.enable ==> exists c :: c in s && c.modulation.Lora? && c.frequency == conf.loraStd.freq)
    && (conf.fsk.enable ==> exists c :: c in s && c.modulation.Fsk? && c.frequency == conf.fsk.freq)
  }

  lemma {:induction false} LoraStdIsAssigned(radios: RadioPair, s: seq<Channel>, c: Channel)
    requires AssignAll(radios, s).error == None && c in s && IsLoraStd(c)
    ensures var std := AssignAll(radios, s).conf.loraStd;
            && std.enable && std.radio == RadioFor(radios, c) && std.freq == c.frequency
            && radios[std.radio].freq + std.intermediate == c.frequency
            && std.bandwidth == Bandwidth(c) && [std.spreadFactor] == c.config.spreadingFactors
  {
    if s[|s| - 1] != c {
      assert c in s[..|s| - 1];
      LoraStdIsAssigned(radios, s[..|s| - 1], c);
    }
  }

  lemma {:induction false} FskIsAssigned(radios: RadioPair, s: seq<Channel>, c: Channel)
    requires AssignAll(radios, s).error == None && c in s && c.modulation.Fsk?
    ensures var fsk := AssignAll(radios, s).conf.fsk;
            && fsk.enable && fsk.radio == RadioFor(radios, c) && fsk.freq == c.frequency
            && radios[fsk.radio].freq + fsk.intermediate == c.frequency
            && c.config.FskConfig? && fsk.bandwidth == c.config.fskBandwidth && fsk.dataRate == c.config.bitrate
  {
    if s[|s| - 1] != c {
      assert c in s[..|s| - 1];
      FskIsAssigned(radios, s[..|s| - 1], c);
    }
  }

  lemma {:induction false} NothingElseIsAssigned(radios: RadioPair, s: seq<Channel>)
    ensures var conf := AssignAll(radios, s).conf;
            && (conf.loraStd.enable ==> exists c :: c in s && c.modulation.Lora? && c.frequency == conf.loraStd.freq)
            && (conf.fsk.enable ==> exists c :: c in s && c.modulation.Fsk? && c.frequency == conf.fsk.freq)
  {
    if s != [] {
      var before, last := s[..|s| - 1], s[|s| - 1];
      NothingElseIsAssigned(radios, before);
      assert last in s && forall c :: c in before ==> c in s;
    }
  }

  /** Every slot reproduces its channel: centre plus intermediate frequency, on a radio
      that is on. This holds for channels of any width, served or not. */
  lemma SlotsAreExact(s: seq<Channel>)
    requires Sorted(s) && AssignAll(Radios(s), s).error == None
    ensures Holds(AssignAll(Radios(s), s).conf, s)
  {
    var radios, conf := Radios(s), AssignAll(Radios(s), s).conf;
    SlotsArePacked(radios, s);
    MultiSFMembers(s);
    NothingElseIsAssigned(radios, s);
    forall k | 0 <= k < 8
      ensures MultiSFSlotHolds(conf, MultiSF(s), k)
    {
      if k < |MultiSF(s)| {
        assert MultiSF(s)[k] in MultiSF(s);
        RadioIsOn(s, MultiSF(s)[k]);
      }
    }
    forall c | c in s && IsLoraStd(c)
      ensures LoraStdHolds(conf, c)
    {
      RadioIsOn(s, c);
      LoraStdIsAssigned(radios, s, c);
    }
    forall c | c in s && c.modulation.Fsk?
      ensures FskHolds(conf, c)
    {
      RadioIsOn(s, c);
      FskIsAssigned(radios, s, c);
    }
  }

  /** No intermediate frequency is larger than what the radio has to spare. */
  ghost predicate Within(conf: GatewayConf, s: seq<Channel>)
    requires |conf.multiSF| == 8
  {
    && (forall k :: 0 <= k < 8 && k < |MultiSF(s)| ==> Near(conf.multiSF[k].intermediate, MultiSF(s)[k]))
    && (forall c :: c in s && IsLoraStd(c) ==> Near(conf.loraStd.intermediate, c))
    && (forall c :: c in s && c.modulation.Fsk? ==> Near(conf.fsk.intermediate, c))
  }

  predicate Near(intermediate: int, c: Channel) {
    -Spare(Bandwidth(c)) <= intermediate <= Spare(Bandwidth(c))
  }

  /** Where two centres serve ordinary channels, every intermediate frequency keeps its
      channel within the band of its radio. */
  lemma SlotsAreWithin(s: seq<Channel>)
    requires Sorted(s) && Sx1301v1.AllOrdinary(s) && Sx1301v1.Coverable(s) && AssignAll(Radios(s), s).error == None
    ensures Within(AssignAll(Radios(s), s).conf, s)
  {
    var radios := Radios(s);
    AssignmentsAreSoundIff(s);
    SlotsArePacked(radios, s);
    MultiSFMembers(s);
    forall c | c in s
      ensures Near(c.frequency - radios[RadioFor(radios, c)].freq, c)
    {
      ServedIff(radios[RadioFor(radios, c)].freq, c);
    }
    forall k | 0 <= k < 8 && k < |MultiSF(s)|
      ensures Near(AssignAll(radios, s).conf.multiSF[k].intermediate, MultiSF(s)[k])
    {
      assert MultiSF(s)[k] in MultiSF(s);
    }
    forall c | c in s && IsLoraStd(c)
      ensures Near(AssignAll(radios, s).conf.loraStd.intermediate, c)
    {
      LoraStdIsAssigned(radios, s, c);
    }
    forall c | c in s && c.modulation.Fsk?
      ensures Near(AssignAll(radios, s).conf.fsk.intermediate, c)
    {
      FskIsAssigned(radios, s, c);
    }
  }
}
