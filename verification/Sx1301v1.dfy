/**
 The radio placement of sx1301v1.go: channels sorted by the largest centre
 frequency that still serves them, then served greedily by two radios. The
 placement fails only when no two centre frequencies serve all channels.
 */
module Sx1301v1 {
  import opened Channels
  import opened ChannelSort
  import opened Piercing
  import opened Prelude

  // ----- the computations of the source, in uint32

  function ChannelBandwidth(c: Channel): uint32 {
    Mul32(BandwidthKHz(c), 1000)
  }

  function HalfRadio(c: Channel): uint32 {
    RadioBandwidth(ChannelBandwidth(c)) / 2
  }

  function ChannelMin(c: Channel): uint32 {
    Sub32(c.frequency, ChannelBandwidth(c) / 2)
  }

  function ChannelMax(c: Channel): uint32 {
    Add32(c.frequency, ChannelBandwidth(c) / 2)
  }

  function MinRadioCenterFreq(c: Channel): uint32 {
    Add32(ChannelMin(c), HalfRadio(c))
  }

  /** The test by which a channel is assigned to a radio centred at `f`. */
  predicate InRadio(f: uint32, c: Channel) {
    ChannelMin(c) >= Sub32(f, HalfRadio(c)) && ChannelMax(c) <= Add32(f, HalfRadio(c))
  }

  type Radios = s: seq<uint32> | |s| == 2 witness [0, 0]

  datatype Placement = Placement(radios: Radios, error: Option<uint32>)

  /** Serving one more channel: an undefined radio is placed for it, a radio that
      reaches far enough takes it, and otherwise it does not fit. */
  function Place(p: Placement, c: Channel): Placement {
    if p.error.Some? then p
    else if p.radios[0] == 0 then p.(radios := p.radios[0 := MinRadioCenterFreq(c)])
    else if ChannelMax(c) <= Add32(p.radios[0], HalfRadio(c)) then p
    else if p.radios[1] == 0 then p.(radios := p.radios[1 := MinRadioCenterFreq(c)])
    else if ChannelMax(c) <= Add32(p.radios[1], HalfRadio(c)) then p
    else p.(error := Some(c.frequency))
  }

  function Greedy(s: seq<Channel>): Placement {
    if s == [] then Placement([0, 0], None) else Place(Greedy(s[..|s| - 1]), s[|s| - 1])
  }

  predicate Sorted(s: seq<Channel>) {
    forall i, j :: 0 <= i < j < |s| ==> MinRadioCenterFreq(s[i]) <= MinRadioCenterFreq(s[j])
  }

  // ----- the allocator

  /** The loop over the radios for one channel. */
  method Serve(given: Radios, c: Channel) returns (radios: Radios, error: Option<uint32>)
    ensures Placement(radios, error) == Place(Placement(given, None), c)
  {
    radios, error := given, None;
    for i := 0 to 2
      invariant radios == given && error == None
      invariant i > 0 ==> radios[0] != 0 && ChannelMax(c) > Add32(radios[0], HalfRadio(c))
      invariant i < 2
    {
      if radios[i] == 0 {
        radios := radios[i := MinRadioCenterFreq(c)];
        break;
      }
      if ChannelMax(c) <= Add32(radios[i], HalfRadio(c)) {
        break;
      }
      if i == 1 {
        error := Some(c.frequency);
        break;
      }
    }
  }

  method GetRadioFrequencies(channels: array<Channel>) returns (radios: Radios, error: Option<uint32>)
    modifies channels
    ensures Sorted(channels[..])
    ensures multiset(channels[..]) == multiset(old(channels[..]))
    ensures Placement(radios, error) == Greedy(channels[..])
    ensures AllOrdinary(old(channels[..])) ==> IsRight(Placement(radios, error), old(channels[..]))
  {
    Sort(channels, c => MinRadioCenterFreq(c));
    radios, error := [0, 0], None;
    ghost var sorted := channels[..];
    FromSorted(sorted, old(channels[..]));
    for n := 0 to channels.Length
      invariant channels[..] == sorted
      invariant Greedy(sorted[..n]) == Placement(radios, None)
    {
      radios, error := Serve(radios, channels[n]);
      assert sorted[..n + 1][..n] == sorted[..n];
      if error != None {
        GreedyStops(sorted, n + 1);
        return;
      }
    }
    assert sorted[..channels.Length] == sorted;
    error := None;
  }

  lemma {:induction false} GreedyStops(s: seq<Channel>, n: nat)
    requires n <= |s| && Greedy(s[..n]).error.Some?
    ensures Greedy(s) == Greedy(s[..n])
    decreases |s| - n
  {
    if n < |s| {
      assert s[..n + 1][..n] == s[..n];
      GreedyStops(s, n + 1);
    } else {
      assert s[..n] == s;
    }
  }

  method GetRadioForChannel(radios: Radios, c: Channel) returns (radio: Option<nat>)
    ensures radio == None <==> !InRadio(radios[0], c) && !InRadio(radios[1], c)
    ensures radio.Some? ==> radio.value < 2 && InRadio(radios[radio.value], c)
    ensures radio == Some(1) ==> !InRadio(radios[0], c)
  {
    for i := 0 to 2
      invariant forall j :: 0 <= j < i ==> !InRadio(radios[j], c)
    {
      if ChannelMin(c) >= Sub32(radios[i], HalfRadio(c)) && ChannelMax(c) <= Add32(radios[i], HalfRadio(c)) {
        return Some(i);
      }
    }
    return None;
  }

  // ----- what the placement achieves

  ghost predicate CoveredBy(x: int, y: int, s: seq<Channel>) {
    forall c :: c in s ==> Covers(x, c) || Covers(y, c)
  }

  /** Two centre frequencies, anywhere, serve all channels. */
  ghost predicate Coverable(s: seq<Channel>) {
    exists x: int, y: int :: CoveredBy(x, y, s)
  }

  /** `x` is the least right end among the channels whose interval starts beyond
      `bound`, or 0 when there is none. It does not depend on the order of `s`. */
  ghost predicate IsLeastRight(x: int, s: seq<Channel>, bound: int) {
    && (x == 0 ==> forall c :: c in s ==> Left(c) <= bound)
    && (x != 0 ==>
          && (exists c :: c in s && Left(c) > bound && Right(c) == x)
          && forall c :: c in s && Left(c) > bound ==> x <= Right(c))
  }

  /** The verdict is whether two centres can serve the channels, and the radios are
      the least right ends, whatever the order of `s`. */
  ghost predicate IsRight(p: Placement, s: seq<Channel>) {
    && (p.error == None <==> Coverable(s))
    && IsLeastRight(p.radios[0], s, -1)
    && IsLeastRight(p.radios[1], s, p.radios[0])
  }

  ghost predicate AllOrdinary(s: seq<Channel>) {
    forall c :: c in s ==> Ordinary(c)
  }

  ghost predicate AllInBand(s: seq<Channel>) {
    forall c :: c in s ==> InBand(c)
  }

  /** In band, the uint32 computations are the plain ones. */
  lemma NoWrapAround(c: Channel)
    requires InBand(c)
    ensures ChannelBandwidth(c) == Bandwidth(c) && HalfRadio(c) == RadioBandwidth(Bandwidth(c)) / 2
    ensures ChannelMin(c) == Lowest(c) && ChannelMax(c) == Highest(c)
    ensures MinRadioCenterFreq(c) == Right(c)
    ensures 550000 <= Left(c) + 12500 && 900000 <= Right(c) <= 4294000000
  {
  }

  lemma InRadioIsCovers(f: uint32, c: Channel)
    requires InBand(c) && (f == 0 || 900000 <= f <= 4294000000)
    ensures InRadio(f, c) <==> Covers(f, c)
  {
    NoWrapAround(c);
  }

  predicate InRange(f: int) {
    f == 0 || 900000 <= f <= 4294000000
  }

  /** Serving a channel by the ends of its interval. */
  function ByInterval(p: Placement, c: Channel): Placement
    requires p.error == None && InRange(Right(c))
  {
    if p.radios[0] == 0 then p.(radios := [Right(c), p.radios[1]])
    else if Left(c) <= p.radios[0] then p
    else if p.radios[1] == 0 then p.(radios := [p.radios[0], Right(c)])
    else if Left(c) <= p.radios[1] then p
    else p.(error := Some(c.frequency))
  }

  /** In band, that is what the uint32 comparisons do. */
  lemma PlaceByInterval(p: Placement, c: Channel)
    requires InBand(c) && p.error == None && InRange(p.radios[0]) && InRange(p.radios[1])
    ensures 0 < Left(c) && InRange(Right(c)) && Right(c) != 0
    ensures Place(p, c) == ByInterval(p, c)
  {
    NoWrapAround(c);
    assert p.radios[0 := Right(c)] == [Right(c), p.radios[1]];
    assert p.radios[1 := Right(c)] == [p.radios[0], Right(c)];
  }

  lemma OrdinaryInterval(c: Channel)
    requires InBand(c)
    ensures MinRadioCenterFreq(c) == Right(c)
    ensures 0 < Left(c) && InRange(Right(c)) && (Narrow(c) ==> Left(c) <= Right(c))
  {
    NoWrapAround(c);
  }

  /** In band, sorting is by the right ends of the intervals. */
  lemma SortedByRight(s: seq<Channel>)
    requires Sorted(s) && AllInBand(s)
    ensures forall i, j :: 0 <= i < j < |s| ==> Right(s[i]) <= Right(s[j])
    ensures forall i :: 0 <= i < |s| ==> 0 < Left(s[i]) && (Narrow(s[i]) ==> Left(s[i]) <= Right(s[i]))
  {
    forall i | 0 <= i < |s|
      ensures MinRadioCenterFreq(s[i]) == Right(s[i])
      ensures 0 < Left(s[i]) && (Narrow(s[i]) ==> Left(s[i]) <= Right(s[i]))
    {
      assert s[i] in s;
      OrdinaryInterval(s[i]);
    }
    forall i, j | 0 <= i < j < |s|
      ensures Right(s[i]) <= Right(s[j])
    {
      assert MinRadioCenterFreq(s[i]) <= MinRadioCenterFreq(s[j]);
    }
  }

  /** The radios after a sorted sequence of channels. */
  ghost predicate PlacedFor(p: Placement, s: seq<Channel>) {
    && p.radios[0] == (if s == [] then 0 else Right(s[0]))
    && (p.radios[1] == 0 ==> forall i :: 0 <= i < |s| ==> Left(s[i]) <= p.radios[0])
    && (p.radios[1] != 0 ==> exists j :: Opens(j, p.radios, s))
    && (p.error == None ==> forall i :: 0 <= i < |s| ==> Left(s[i]) <= p.radios[0] || Left(s[i]) <= p.radios[1])
    && (p.error != None ==>
          p.radios[1] != 0 && exists i :: 0 <= i < |s| && Left(s[i]) > p.radios[0] && Left(s[i]) > p.radios[1])
  }

  /** Channel `j` is the first that radio 0 does not reach, and radio 1 was placed for it. */
  ghost predicate Opens(j: int, radios: Radios, s: seq<Channel>) {
    && 0 <= j < |s|
    && Left(s[j]) > radios[0]
    && Right(s[j]) == radios[1]
    && forall i :: 0 <= i < j ==> Left(s[i]) <= radios[0]
  }

  /** The centres that serve each channel. */
  function Spans(s: seq<Channel>): seq<Interval> {
    seq(|s|, i requires 0 <= i < |s| => Interval(Left(s[i]), Right(s[i])))
  }

  /** In band, the placement is the piercing of these intervals, for any widths. */
  lemma {:induction false} GreedyPierces(s: seq<Channel>)
    requires AllInBand(s)
    ensures var p, q := Greedy(s), PierceAll(Spans(s));
            && p.radios[0] == q.first && p.radios[1] == q.second && (p.error != None <==> q.failed)
            && InRange(q.first) && InRange(q.second)
    ensures Positive(Spans(s))
  {
    forall i | 0 <= i < |s|
      ensures Right(s[i]) > 0
    {
      assert s[i] in s;
      OrdinaryInterval(s[i]);
    }
    if s != [] {
      var before, c := s[..|s| - 1], s[|s| - 1];
      GreedyPierces(before);
      assert Spans(s)[..|s| - 1] == Spans(before);
      assert c in s;
      if Greedy(before).error == None {
        PlaceByInterval(Greedy(before), c);
      }
    }
  }

  /** Where the radios stand after a sorted sequence of ordinary channels. */
  lemma GreedyPlaces(s: seq<Channel>)
    requires Sorted(s) && AllOrdinary(s)
    ensures PlacedFor(Greedy(s), s)
    ensures Greedy(s).radios[0] == 0 <==> s == []
    ensures InRange(Greedy(s).radios[0]) && InRange(Greedy(s).radios[1])
  {
    GreedyPierces(s);
    SortedByRight(s);
    AllStand(Spans(s));
    var p, t := Greedy(s), Spans(s);
    assert forall i :: 0 <= i < |s| ==> s[i] in s;
    assert forall i :: 0 <= i < |s| ==> t[i] == Interval(Left(s[i]), Right(s[i])) && t[i].left <= t[i].right;
    PlacedFromStands(p, PierceAll(t), s, t);
  }

  lemma PlacedFromStands(p: Placement, q: Points, s: seq<Channel>, t: seq<Interval>)
    requires |s| == |t| && forall i :: 0 <= i < |s| ==> Left(s[i]) == t[i].left && Right(s[i]) == t[i].right
    requires Positive(t) && forall i :: 0 <= i < |t| ==> t[i].left <= t[i].right
    requires p.radios[0] == q.first && p.radios[1] == q.second && (p.error != None <==> q.failed)
    requires Stands(q, t)
    ensures PlacedFor(p, s)
  {
    if q.second == 0 {
      assert forall i :: 0 <= i < |s| && !Apart(t, 0, i) ==> t[i].left <= q.first;
    } else {
      var j :| Second(q, t, j);
      assert forall i :: 0 <= i < |s| && !Apart(t, 0, i) ==> t[i].left <= q.first;
      assert Opens(j, p.radios, s);
      forall i | 0 <= i < |s| && !q.failed
        ensures Left(s[i]) <= p.radios[0] || Left(s[i]) <= p.radios[1]
      {
        assert !(Apart(t, 0, i) && Apart(t, j, i));
      }
    }
  }

  /** Whatever the widths, the placement fails exactly when there are three channels,
      each starting beyond the end of the one before. */
  lemma GreedyFailsIff(s: seq<Channel>)
    requires Sorted(s) && AllInBand(s)
    ensures Greedy(s).error != None <==> ThreeApart(Spans(s))
  {
    GreedyPierces(s);
    SortedByRight(s);
    FailsIff(Spans(s));
  }

  /** A successful placement serves every channel. */
  lemma PlacementCovers(s: seq<Channel>)
    requires Sorted(s) && AllOrdinary(s) && Greedy(s).error == None
    ensures CoveredBy(Greedy(s).radios[0], Greedy(s).radios[1], s)
  {
    GreedyPlaces(s);
    SortedByRight(s);
    var radios := Greedy(s).radios;
    forall c | c in s
      ensures Covers(radios[0], c) || Covers(radios[1], c)
    {
      var i :| 0 <= i < |s| && s[i] == c;
      CoversIsAnInterval(radios[0], c);
      CoversIsAnInterval(radios[1], c);
      if Left(c) > radios[0] {
        var j :| Opens(j, radios, s);
        assert j <= i;
      }
    }
  }

  /** A failed placement has found three channels no two of which share a centre. */
  lemma FailureIsJustified(s: seq<Channel>)
    requires Sorted(s) && AllOrdinary(s) && Greedy(s).error != None
    ensures !Coverable(s)
  {
    GreedyPlaces(s);
    var radios := Greedy(s).radios;
    var j :| Opens(j, radios, s);
    var i :| 0 <= i < |s| && Left(s[i]) > radios[0] && Left(s[i]) > radios[1];
    forall x: int, y: int
      ensures !CoveredBy(x, y, s)
    {
      if CoveredBy(x, y, s) {
        assert s[0] in s && s[j] in s && s[i] in s;
        CoversIsAnInterval(x, s[0]); CoversIsAnInterval(y, s[0]);
        CoversIsAnInterval(x, s[j]); CoversIsAnInterval(y, s[j]);
        CoversIsAnInterval(x, s[i]); CoversIsAnInterval(y, s[i]);
      }
    }
  }

  /** The greedy placement succeeds exactly when two centre frequencies suffice. */
  lemma GreedyIsOptimal(s: seq<Channel>)
    requires Sorted(s) && AllOrdinary(s)
    ensures Greedy(s).error == None <==> Coverable(s)
  {
    if Greedy(s).error == None {
      PlacementCovers(s);
      assert CoveredBy(Greedy(s).radios[0] as int, Greedy(s).radios[1] as int, s);
    } else {
      FailureIsJustified(s);
    }
  }

  /** The error names the first channel, in sorted order, that no longer fits. */
  lemma {:induction false} ErrorNamesTheFirst(s: seq<Channel>) returns (n: nat)
    requires Sorted(s) && AllOrdinary(s) && Greedy(s).error.Some?
    ensures n < |s| && Greedy(s).error == Some(s[n].frequency)
    ensures Coverable(s[..n]) && !Coverable(s[..n + 1])
  {
    n := |s| - 1;
    var before := s[..n];
    if Greedy(before).error.Some? {
      var first := ErrorNamesTheFirst(before);
      assert before[..first] == s[..first] && before[..first + 1] == s[..first + 1];
      n := first;
    } else {
      GreedyIsOptimal(before);
      GreedyIsOptimal(s);
      assert s[..n + 1] == s;
    }
  }

  lemma RadiosAreLeastRights(s: seq<Channel>)
    requires Sorted(s) && AllOrdinary(s)
    ensures var radios := Greedy(s).radios;
            IsLeastRight(radios[0], s, -1) && IsLeastRight(radios[1], s, radios[0])
  {
    GreedyPlaces(s);
    SortedByRight(s);
    if s != [] {
      assert s[0] in s;
    }
    SecondIsLeastRight(s, Greedy(s));
  }

  lemma SecondIsLeastRight(s: seq<Channel>, p: Placement)
    requires PlacedFor(p, s) && forall i, j :: 0 <= i < j < |s| ==> Right(s[i]) <= Right(s[j])
    ensures IsLeastRight(p.radios[1], s, p.radios[0])
  {
    if p.radios[1] != 0 {
      var j :| Opens(j, p.radios, s);
      assert s[j] in s;
      forall c | c in s && Left(c) > p.radios[0]
        ensures p.radios[1] <= Right(c)
      {
        var i :| 0 <= i < |s| && s[i] == c;
        assert j <= i;
      }
    }
  }

  /** The verdict and the radios carry over from the sorted channels to the given ones. */
  lemma FromSorted(sorted: seq<Channel>, given: seq<Channel>)
    requires Sorted(sorted) && multiset(sorted) == multiset(given)
    ensures AllOrdinary(given) ==> IsRight(Greedy(sorted), given)
  {
    MultisetMembers(sorted, given);
    if AllOrdinary(given) {
      GreedyIsOptimal(sorted);
      RadiosAreLeastRights(sorted);
      assert forall x: int, y: int :: CoveredBy(x, y, sorted) <==> CoveredBy(x, y, given);
    }
  }

  lemma LeastRightIsUnique(x: int, y: int, s: seq<Channel>, bound: int)
    requires IsLeastRight(x, s, bound) && IsLeastRight(y, s, bound)
    ensures x == y
  {
  }

  /** Two sorted arrangements of the same channels get the same radios. */
  lemma OrderDoesNotMatter(s: seq<Channel>, t: seq<Channel>)
    requires Sorted(s) && Sorted(t) && AllOrdinary(s) && multiset(s) == multiset(t)
    ensures Greedy(s).radios == Greedy(t).radios
    ensures Greedy(s).error == None <==> Greedy(t).error == None
  {
    FromSorted(s, s);
    FromSorted(t, s);
    RightIsUnique(Greedy(s), Greedy(t), s);
  }

  lemma RightIsUnique(p: Placement, q: Placement, s: seq<Channel>)
    requires IsRight(p, s) && IsRight(q, s)
    ensures p.radios == q.radios && (p.error == None <==> q.error == None)
  {
    LeastRightIsUnique(p.radios[0], q.radios[0], s, -1);
    LeastRightIsUnique(p.radios[1], q.radios[1], s, p.radios[0]);
  }

  /** The second radio stays unset exactly when one centre frequency serves everything. */
  lemma OneRadioSuffices(s: seq<Channel>)
    requires Sorted(s) && AllOrdinary(s)
    ensures Greedy(s).radios[1] == 0 <==> exists x: int :: CoveredBy(x, x, s)
  {
    GreedyPlaces(s);
    var radios := Greedy(s).radios;
    if radios[1] == 0 {
      assert Greedy(s).error == None;
      PlacementCovers(s);
      forall c | c in s
        ensures Covers(radios[0], c)
      {
        InRadioIsCovers(0, c);
        NoWrapAround(c);
      }
      assert CoveredBy(radios[0] as int, radios[0] as int, s);
    } else {
      var j :| Opens(j, radios, s);
      forall x: int
        ensures !CoveredBy(x, x, s)
      {
        assert s[0] in s && s[j] in s;
        CoversIsAnInterval(x, s[0]);
        CoversIsAnInterval(x, s[j]);
      }
    }
  }

  /** After a successful placement every channel is assigned to a radio. */
  lemma EveryChannelHasARadio(s: seq<Channel>, c: Channel)
    requires Sorted(s) && AllOrdinary(s) && Greedy(s).error == None && c in s
    ensures var radios := Greedy(s).radios;
            InRadio(radios[0], c) || InRadio(radios[1], c)
  {
    GreedyPlaces(s);
    PlacementCovers(s);
    InRadioIsCovers(Greedy(s).radios[0], c);
    InRadioIsCovers(Greedy(s).radios[1], c);
  }

  /** With channels of any width the verdict is right exactly when none is wider than
      its radio or three of them are apart. */
  lemma VerdictIsRightIff(s: seq<Channel>)
    requires Sorted(s) && AllInBand(s)
    ensures (Greedy(s).error == None <==> Coverable(s)) <==>
            ((forall c :: c in s ==> Narrow(c)) || ThreeApart(Spans(s)))
  {
    GreedyFailsIff(s);
    if forall c :: c in s ==> Narrow(c) {
      GreedyIsOptimal(s);
    } else {
      var c :| c in s && !Narrow(c);
      NarrowIffCoverable(c);
      assert forall x: int, y: int :: !CoveredBy(x, y, s);
    }
  }

  /** One 1000 kHz channel is placed without an error, yet no radio serves it. */
  lemma WideChannelIsNotNoticed()
    ensures var c := Channel(868000000, Lora, LoraConfig(1000, [7]));
            && Greedy([c]) == Placement([867962500, 0], None)
            && !Coverable([c])
            && !InRadio(867962500, c) && !InRadio(0, c)
  {
    var c := Channel(868000000, Lora, LoraConfig(1000, [7]));
    assert [c][..0] == [];
    NarrowIffCoverable(c);
    assert c in [c];
  }
}
