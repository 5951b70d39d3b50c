/** Channel configurations and the radio bandwidths both radio allocators use. */
module Channels {
  import opened Prelude

  /** uint32 arithmetic. */
  function Add32(a: uint32, b: uint32): uint32 {
    (a + b) % TWO_32
  }

  function Sub32(a: uint32, b: uint32): uint32 {
    (a + TWO_32 - b) % TWO_32
  }

  function Mul32(a: uint32, b: uint32): uint32 {
    a * b % TWO_32
  }

  /** It wraps around. */
  lemma WrapsAround(a: uint32, b: uint32)
    ensures Add32(a, b) in {a + b, a + b - TWO_32}
    ensures Sub32(a, b) in {a - b, a - b + TWO_32}
    ensures exists laps: nat :: a * b == Mul32(a, b) + laps * TWO_32
  {
    var laps := Laps(a * b);
  }

  lemma Laps(n: nat) returns (laps: nat)
    ensures n == n % TWO_32 + laps * TWO_32
  {
    laps := n / TWO_32;
  }

  datatype Modulation = Lora | Fsk | OtherModulation

  /** Bandwidths in kHz; the message holds at most one of the two. */
  datatype ModulationConfig =
    | NoConfig
    | LoraConfig(loraBandwidth: uint32, spreadingFactors: seq<uint32>)
    | FskConfig(fskBandwidth: uint32, bitrate: uint32)

  datatype Channel = Channel(frequency: uint32, modulation: Modulation, config: ModulationConfig)

  function BandwidthKHz(c: Channel): uint32 {
    match (c.modulation, c.config)
    case (Lora, LoraConfig(bandwidth, _)) => bandwidth
    case (Fsk, FskConfig(bandwidth, _)) => bandwidth
    case _ => 0
  }

  /** Channels for several spreading factors, the single one for one spreading factor, and FSK. */
  predicate IsMultiSF(c: Channel) {
    c.modulation.Lora? && c.config.LoraConfig? && |c.config.spreadingFactors| != 1
  }

  predicate IsLoraStd(c: Channel) {
    c.modulation.Lora? && c.config.LoraConfig? && |c.config.spreadingFactors| == 1
  }

  predicate IsFsk(c: Channel) {
    c.modulation.Fsk? && c.config.FskConfig?
  }

  /** The multi-SF channels, in their order in `s`. */
  function MultiSF(s: seq<Channel>): seq<Channel> {
    if s == [] then []
    else if IsMultiSF(s[|s| - 1]) then MultiSF(s[..|s| - 1]) + [s[|s| - 1]]
    else MultiSF(s[..|s| - 1])
  }

  lemma {:induction false} MultiSFMembers(s: seq<Channel>)
    ensures forall c :: c in MultiSF(s) <==>
              c in s && c.modulation.Lora? && c.config.LoraConfig? && |c.config.spreadingFactors| != 1
  {
    if s != [] {
      MultiSFMembers(s[..|s| - 1]);
      assert s == s[..|s| - 1] + [s[|s| - 1]];
    }
  }

  /** The bandwidth one radio can serve for channels of the given bandwidth, in Hz. */
  function RadioBandwidth(channelBandwidth: nat): nat {
    if channelBandwidth == 500000 then 1100000
    else if channelBandwidth == 250000 then 1000000
    else 925000
  }

  // ----- the interval of centre frequencies that serve a channel

  function Bandwidth(c: Channel): nat {
    BandwidthKHz(c) * 1000
  }

  function Lowest(c: Channel): int {
    c.frequency - Bandwidth(c) / 2
  }

  function Highest(c: Channel): int {
    c.frequency + Bandwidth(c) / 2
  }

  function Left(c: Channel): int {
    Highest(c) - RadioBandwidth(Bandwidth(c)) / 2
  }

  function Right(c: Channel): int {
    Lowest(c) + RadioBandwidth(Bandwidth(c)) / 2
  }

  /** The channel lies within the bandwidth of a radio centred at `x`. */
  predicate Covers(x: int, c: Channel) {
    && Lowest(c) >= x - RadioBandwidth(Bandwidth(c)) / 2
    && Highest(c) <= x + RadioBandwidth(Bandwidth(c)) / 2
  }

  /** Half of what a radio has to spare around a channel of this bandwidth, in Hz. */
  function Spare(width: nat): int {
    if width == 125000 then 400000
    else if width == 250000 then 375000
    else if width == 500000 then 300000
    else 462500 - width / 2
  }

  /** A centre serves a channel exactly if it is no further from the channel's frequency. */
  lemma ServedIff(x: int, c: Channel)
    ensures Covers(x, c) <==>
            var width: nat :=
              if c.modulation.Lora? && c.config.LoraConfig? then 1000 * c.config.loraBandwidth
              else if c.modulation.Fsk? && c.config.FskConfig? then 1000 * c.config.fskBandwidth
              else 0;
            -Spare(width) <= c.frequency - x <= Spare(width)
  {
  }

  lemma CoversIsAnInterval(x: int, c: Channel)
    ensures Covers(x, c) <==> Left(c) <= x <= Right(c)
  {
  }

  /** No wider than what one radio serves. */
  predicate Narrow(c: Channel) {
    Bandwidth(c) <= RadioBandwidth(Bandwidth(c))
  }

  /** Far enough from 0 and from 2^32 Hz for all sums to stay within uint32. */
  predicate InBand(c: Channel) {
    1000000 <= c.frequency <= 4290000000 && BandwidthKHz(c) <= 1000
  }

  predicate Ordinary(c: Channel) {
    InBand(c) && Narrow(c)
  }

  /** A channel wider than a radio has no centre frequency at all. */
  lemma NarrowIffCoverable(c: Channel)
    ensures Narrow(c) <==> exists x: int :: Covers(x, c)
  {
    if Narrow(c) {
      assert Covers(c.frequency, c);
    }
  }
}
