/**
 The downlink retries of the packet-forwarder backend (semtechudp/backend.go). A
 downlink has several items, tried one after the other: a TX_ACK with an error sends
 the next one. The cache keeps, per token, the frame, the index of the item sent
 last and an array of acknowledgements that all handlers of the token share.
 */
module Downlink {
  import opened Prelude
  import opened Registry
  import opened Stats

  type Token = n: nat | n < 0x1_0000

  datatype DownlinkFrame = DownlinkFrame(token: nat, gateway: Mac, downlinkId: string, items: seq<TxInfo>)

  /** The error of a TX_ACK: none, one with a status of that name, or any other. */
  datatype AckError = NoError | Named(status: Status) | Unexpected(name: string)

  // ----- one token, as a value

  /** What the cache holds for a token. */
  datatype Record = Record(frame: DownlinkFrame, index: nat, acks: seq<Status>)

  datatype Effect = Retried(index: nat) | Reported(acks: seq<Status>) | Refused

  ghost predicate InSync(r: Record) {
    |r.acks| == |r.frame.items| && r.index < |r.acks|
  }

  function AckStatus(e: AckError): Status {
    if e.NoError? then Ok else if e.Named? then e.status else Ignored
  }

  function OnTxAck(r: Record, e: AckError): (Record, Effect)
    requires InSync(r)
  {
    var acks := r.acks[r.index := AckStatus(e)];
    match e
    case Unexpected(_) => (r, Refused)
    case NoError => (r.(acks := acks), Reported(acks))
    case Named(_) =>
      if r.index < |r.frame.items| - 1
      then (r.(index := r.index + 1, acks := acks), Retried(r.index + 1))
      else (r.(acks := acks), Reported(acks))
  }

  function NewRecord(frame: DownlinkFrame): Record {
    Record(frame, 0, seq(|frame.items|, _ => Ignored))
  }

  /** Items before the current one have failed, items after it have not been tried. */
  ghost predicate Shape(r: Record) {
    && (forall i :: 0 <= i < r.index && i < |r.acks| ==> r.acks[i].Failure?)
    && (forall i :: r.index < i < |r.acks| ==> r.acks[i] == Ignored)
  }

  /** An error that names no failure and still causes a retry. */
  predicate BreaksShape(r: Record, e: AckError) {
    e.Named? && !e.status.Failure? && r.index < |r.frame.items| - 1
  }

  /** The shape survives exactly the TX_ACKs that retry after a failure only. */
  lemma ShapeIsKeptIff(r: Record, e: AckError)
    requires InSync(r) && Shape(r)
    ensures InSync(OnTxAck(r, e).0)
    ensures Shape(OnTxAck(r, e).0) <==> !BreaksShape(r, e)
  {
    var r' := OnTxAck(r, e).0;
    if BreaksShape(r, e) {
      assert r'.acks[r.index] == e.status;
    }
  }

  /** A report that has been handed over is changed by exactly the later TX_ACKs of its
      token that bring another status for the current item. */
  lemma ReportIsRewrittenIff(r: Record, e: AckError)
    requires InSync(r)
    ensures OnTxAck(r, e).0.acks != r.acks <==>
            || (e.NoError? && r.acks[r.index] != Ok)
            || (e.Named? && e.status != r.acks[r.index])
  {
    assert OnTxAck(r, e).0.acks[r.index] == if e.Unexpected? then r.acks[r.index] else AckStatus(e);
    assert r.acks[r.index := r.acks[r.index]] == r.acks;
  }

  ghost predicate AtMostOneOk(acks: seq<Status>) {
    forall i, j :: 0 <= i < |acks| && 0 <= j < |acks| && acks[i] == Ok && acks[j] == Ok ==> i == j
  }

  /** "OK" arriving as the name of an error makes a report with two successes. */
  lemma TwoSuccesses(frame: DownlinkFrame)
    requires |frame.items| == 2
    ensures var r := OnTxAck(NewRecord(frame), Named(Ok)).0;
            && BreaksShape(NewRecord(frame), Named(Ok))
            && InSync(r)
            && OnTxAck(r, NoError).1 == Reported([Ok, Ok])
  {
    var r := OnTxAck(NewRecord(frame), Named(Ok)).0;
    assert r.acks == [Ok, Ignored];
  }

  // ----- any sequence of TX_ACKs for one downlink

  function RecordAfter(r: Record, errors: seq<AckError>): (r': Record)
    requires InSync(r)
    ensures InSync(r') && r'.frame == r.frame
  {
    if errors == [] then r
    else
      OnTxAck(RecordAfter(r, errors[..|errors| - 1]), errors[|errors| - 1]).0
  }

  function EffectOf(r: Record, errors: seq<AckError>): Effect
    requires InSync(r) && errors != []
  {
    OnTxAck(RecordAfter(r, errors[..|errors| - 1]), errors[|errors| - 1]).1
  }

  /** The items sent in the course of the TX_ACKs. */
  function Retries(r: Record, errors: seq<AckError>): seq<nat>
    requires InSync(r)
  {
    if errors == [] then []
    else
      var before := Retries(r, errors[..|errors| - 1]);
      match EffectOf(r, errors)
      case Retried(index) => before + [index]
      case _ => before
  }

  /** No TX_ACK in the sequence breaks the shape. */
  ghost predicate Proper(r: Record, errors: seq<AckError>)
    requires InSync(r)
  {
    forall n :: 0 <= n < |errors| ==> !BreaksShape(RecordAfter(r, errors[..n]), errors[n])
  }

  /** Duplicates included, the items sent after item `r.index` are the next ones in
      order, each at most once, and never more than there are. */
  lemma {:induction false} RetriesAreConsecutive(r: Record, errors: seq<AckError>)
    requires InSync(r)
    ensures var sent := Retries(r, errors);
            && |sent| == RecordAfter(r, errors).index - r.index
            && (forall k :: 0 <= k < |sent| ==> sent[k] == r.index + 1 + k)
            && |sent| <= |r.frame.items| - 1 - r.index
  {
    if errors != [] {
      RetriesAreConsecutive(r, errors[..|errors| - 1]);
    }
  }

  lemma {:induction false} ShapeAfter(r: Record, errors: seq<AckError>)
    requires InSync(r) && Shape(r) && Proper(r, errors)
    ensures Shape(RecordAfter(r, errors))
  {
    if errors != [] {
      var before := errors[..|errors| - 1];
      assert forall n :: 0 <= n < |before| ==> before[..n] == errors[..n] && before[n] == errors[n];
      ShapeAfter(r, before);
      assert !BreaksShape(RecordAfter(r, before), errors[|errors| - 1]);
      ShapeIsKeptIff(RecordAfter(r, before), errors[|errors| - 1]);
    }
  }

  /** A TX_ACK with an error of this name has arrived while item `i` was the one sent last. */
  ghost predicate HasFailed(r: Record, errors: seq<AckError>, i: nat, status: Status)
    requires InSync(r)
  {
    exists n :: 0 <= n < |errors| && RecordAfter(r, errors[..n]).index == i && errors[n] == Named(status)
  }

  /** Every item but the one sent last has the status that its own TX_ACK has named. */
  lemma {:induction false} FailuresAreKept(r: Record, errors: seq<AckError>)
    requires InSync(r) && r.index == 0
    ensures forall i :: 0 <= i < RecordAfter(r, errors).index ==> HasFailed(r, errors, i, RecordAfter(r, errors).acks[i])
  {
    if errors != [] {
      var n := |errors| - 1;
      var before, r' := RecordAfter(r, errors[..n]), RecordAfter(r, errors);
      FailuresAreKept(r, errors[..n]);
      forall i | 0 <= i < r'.index
        ensures HasFailed(r, errors, i, r'.acks[i])
      {
        if i < before.index {
          assert r'.acks[i] == before.acks[i];
          StillFailed(r, errors, n, i, before.acks[i]);
        } else {
          assert before.index == i && errors[n] == Named(r'.acks[i]);
        }
      }
    }
  }

  lemma StillFailed(r: Record, errors: seq<AckError>, n: nat, i: nat, status: Status)
    requires InSync(r) && n <= |errors| && HasFailed(r, errors[..n], i, status)
    ensures HasFailed(r, errors, i, status)
  {
    var k :| 0 <= k < n && RecordAfter(r, errors[..n][..k]).index == i && errors[..n][k] == Named(status);
    assert errors[..n][..k] == errors[..k] && errors[k] == Named(status);
  }

  /** A report is made exactly for a TX_ACK without an error, or with one for the last of
      the items; one with any other error is refused and changes nothing. */
  lemma ReportedIff(frame: DownlinkFrame, errors: seq<AckError>)
    requires frame.items != [] && errors != []
    ensures var r, before, e := NewRecord(frame), errors[..|errors| - 1], errors[|errors| - 1];
            && (EffectOf(r, errors).Reported? <==>
                  e.NoError? || (e.Named? && |Retries(r, before)| == |frame.items| - 1))
            && (EffectOf(r, errors).Retried? <==> e.Named? && |Retries(r, before)| < |frame.items| - 1)
            && (e.Unexpected? ==> RecordAfter(r, errors) == RecordAfter(r, before))
  {
    RetriesAreConsecutive(NewRecord(frame), errors[..|errors| - 1]);
  }

  /** Every report tells, of each item sent before the last one, the error it has failed
      with, of the one sent last what the TX_ACK at hand says, and of all others that they
      were not tried. So at most one is OK, if "OK" is not the name of an error. */
  lemma ReportsAreSound(frame: DownlinkFrame, errors: seq<AckError>)
    requires frame.items != [] && errors != []
    requires EffectOf(NewRecord(frame), errors).Reported?
    ensures var acks, e := EffectOf(NewRecord(frame), errors).acks, errors[|errors| - 1];
            var last := |Retries(NewRecord(frame), errors)|;
            && |acks| == |frame.items| && last < |acks|
            && (forall i :: 0 <= i < last ==> HasFailed(NewRecord(frame), errors, i, acks[i]))
            && acks[last] == (if e.Named? then e.status else Ok)
            && !e.Unexpected?
            && (forall i :: last < i < |acks| ==> acks[i] == Ignored)
            && (Proper(NewRecord(frame), errors) ==> AtMostOneOk(acks) && forall i :: 0 <= i < last ==> acks[i].Failure?)
  {
    var r := NewRecord(frame);
    FailuresAreKept(r, errors);
    UntriedStay(r, errors);
    RetriesAreConsecutive(r, errors);
    assert EffectOf(r, errors).acks == RecordAfter(r, errors).acks;
    if Proper(r, errors) {
      ShapeAfter(r, errors);
    }
  }

  lemma {:induction false} UntriedStay(r: Record, errors: seq<AckError>)
    requires InSync(r) && forall i :: r.index < i < |r.acks| ==> r.acks[i] == Ignored
    ensures var r' := RecordAfter(r, errors);
            r.index <= r'.index && forall i :: r'.index < i < |r'.acks| ==> r'.acks[i] == Ignored
  {
    if errors != [] {
      UntriedStay(r, errors[..|errors| - 1]);
    }
  }

  /** What is counted when a TX_ACK has led to `r`. */
  function SuccessLog(counted: bool, r: Record): Log {
    if counted then DownlinkLog(r.frame.items, r.acks) else NOTHING
  }

  /** The statistics of a success: one transmission, of the item sent last, and the
      status of each item tried. */
  lemma SuccessIsCounted(r: Record)
    requires InSync(r) && Shape(r)
    ensures var log := SuccessLog(true, OnTxAck(r, NoError).0);
            && log.rx == []
            && log.tx == [DownlinkEvent(r.frame.items[r.index])]
            && log.statuses == r.acks[..r.index] + [Ok]
  {
    var acks := r.acks[r.index := Ok];
    TriedItems(r.frame.items, acks, r.index, |acks|);
    assert acks[..|acks|] == acks && acks[..r.index + 1] == r.acks[..r.index] + [Ok];
  }

  lemma {:induction false} TriedItems(items: seq<TxInfo>, acks: seq<Status>, index: nat, n: nat)
    requires n <= |acks| == |items| && index < |acks| && acks[index] == Ok
    requires forall i :: 0 <= i < index ==> acks[i].Failure?
    requires forall i :: index < i < |acks| ==> acks[i] == Ignored
    ensures var log := DownlinkLog(items, acks[..n]);
            && log.tx == (if index < n then [DownlinkEvent(items[index])] else [])
            && log.statuses == if n <= index then acks[..n] else acks[..index + 1]
  {
    if n > 0 {
      TriedItems(items, acks, index, n - 1);
      assert acks[..n][..n - 1] == acks[..n - 1] && acks[..n] == acks[..n - 1] + [acks[n - 1]];
    }
  }

  // ----- the backend

  datatype Sent = Sent(address: string, token: Token, index: nat)

  /** A report hands over the array itself, not a copy. */
  datatype Report = Report(gateway: Mac, token: nat, downlinkId: string, items: array<Status>)

  datatype SendError = InvalidIndex | UnknownGateway | EncodingFailed

  datatype AckResult = Done | NotCached | OutOfSync | UnexpectedError | SendFailed(error: SendError)

  function TokenOf(frame: DownlinkFrame): Token {
    frame.token % 0x1_0000
  }

  /** The three cache keys of a token, which handlers set and read together. */
  datatype Entry = Entry(frame: DownlinkFrame, index: nat, acks: array<Status>)

  /** A token's record is in sync, and unless an error was misnamed its acknowledgements
      have the shape of a retry in progress. */
  ghost predicate RecordValid(t: Token, r: Record, misnamed: bool) {
    InSync(r) && TokenOf(r.frame) == t && (misnamed || Shape(r))
  }

  ghost predicate RecordsValid(records: map<Token, Record>, misnamed: set<Token>) {
    forall t :: t in records ==> RecordValid(t, records[t], t in misnamed)
  }

  lemma StartingKeepsValid(records: map<Token, Record>, misnamed: set<Token>, frame: DownlinkFrame)
    requires frame.items != [] && RecordsValid(records, misnamed)
    ensures RecordsValid(records[TokenOf(frame) := NewRecord(frame)], misnamed - {TokenOf(frame)})
  {
  }

  lemma FollowingKeepsValid(records: map<Token, Record>, misnamed: set<Token>, token: Token, e: AckError)
    requires token in records && RecordsValid(records, misnamed)
    ensures RecordsValid(records[token := OnTxAck(records[token], e).0],
                         if BreaksShape(records[token], e) then misnamed + {token} else misnamed)
  {
    assert RecordValid(token, records[token], token in misnamed);
    if token !in misnamed {
      ShapeIsKeptIff(records[token], e);
    }
  }

  lemma Overwritten<K, V>(m: map<K, V>, k: K, v: V, w: V)
    ensures m[k := v][k := w] == m[k := w]
  {
  }

  class Backend {
    const gateways: Gateways
    var cache: map<Token, Entry>

    /** Packets put on the send channel and reports made. */
    ghost var sent: seq<Sent>
    ghost var reports: seq<Report>
    /** Tokens for which a TX_ACK has broken the shape. */
    ghost var misnamed: set<Token>

    /** Live tokens never share an acknowledgement array. */
    ghost predicate Unshared()
      reads this`cache
    {
      forall t, u :: t in cache && u in cache && t != u ==> cache[t].acks != cache[u].acks
    }

    /** What the cache holds. */
    ghost function Records(): map<Token, Record>
      reads this`cache, set t | t in cache :: cache[t].acks
    {
      map t | t in cache :: Record(cache[t].frame, cache[t].index, cache[t].acks[..])
    }

    ghost predicate Valid()
      reads this`cache, this`misnamed, set t | t in cache :: cache[t].acks
    {
      Unshared() && RecordsValid(Records(), misnamed)
    }

    constructor (gateways: Gateways)
      ensures Valid() && this.gateways == gateways && Records() == map[] && sent == [] && reports == []
    {
      this.gateways := gateways;
      cache := map[];
      sent, reports, misnamed := [], [], {};
    }

    /** What follows an attempt to send item `index` of `frame`: the packet, unless the
        gateway is unknown or the packet cannot be built. */
    ghost predicate SendsItem(before: seq<Sent>, frame: DownlinkFrame, index: nat, encodes: bool, error: Option<SendError>)
      reads this`sent, gateways
    {
      var g := gateways.gateways;
      && error == (if frame.gateway !in g then Some(UnknownGateway) else if encodes then None else Some(EncodingFailed))
      && sent == before + if error == None then [Sent(g[frame.gateway].address, TokenOf(frame), index)] else []
    }

    /** A frame without a token is given a random one, and its token is cut to 16 bits.
        `randomToken` stands for the two random bytes, `encodes` for the success of
        building the packet. */
    method SendDownlinkFrame(given: DownlinkFrame, randomToken: Token, encodes: bool) returns (error: Option<SendError>)
      requires Valid()
      modifies this
      ensures Valid() && reports == old(reports)
      ensures given.items == [] ==> error == Some(InvalidIndex) && Records() == old(Records()) && sent == old(sent)
      ensures given.items != [] ==>
                var token: nat := if given.token == 0 then randomToken else given.token;
                var frame := given.(token := token);
                && Records() == old(Records())[(token % 0x1_0000) as Token := NewRecord(frame)]
                && SendsItem(old(sent), frame, 0, encodes, error)
                && (error == None <==> given.gateway in gateways.gateways && encodes)
                && (error == None ==>
                      sent == old(sent) + [Sent(gateways.gateways[given.gateway].address, token % 0x1_0000, 0)])
    {
      var token: nat := if given.token == 0 then randomToken else given.token;
      error := SendTokened(given.(token := token), encodes);
    }

    /** The frame with its token starts a record of its own, in place of an older one. */
    method SendTokened(frame: DownlinkFrame, encodes: bool) returns (error: Option<SendError>)
      requires Valid()
      modifies this
      ensures Valid() && reports == old(reports)
      ensures frame.items == [] ==> error == Some(InvalidIndex) && Records() == old(Records()) && sent == old(sent)
      ensures frame.items != [] ==>
                && Records() == old(Records())[TokenOf(frame) := NewRecord(frame)]
                && SendsItem(old(sent), frame, 0, encodes, error)
    {
      ghost var records, before := Records(), misnamed;
      error := SendFirst(frame, encodes);
      if frame.items != [] {
        StartingKeepsValid(records, before, frame);
        misnamed := before - {TokenOf(frame)};
        assert Records() == records[TokenOf(frame) := NewRecord(frame)];
      }
    }

    /** Sends the first item, with a new array for the acknowledgements. */
    method SendFirst(frame: DownlinkFrame, encodes: bool) returns (error: Option<SendError>)
      requires Unshared()
      modifies this`cache, this`sent
      ensures Unshared()
      ensures frame.items == [] ==> error == Some(InvalidIndex) && Records() == old(Records()) && sent == old(sent)
      ensures frame.items != [] ==>
                && Records() == old(Records())[TokenOf(frame) := NewRecord(frame)]
                && SendsItem(old(sent), frame, 0, encodes, error)
    {
      var txAckItems := new Status[|frame.items|](_ => Ignored);
      assert txAckItems[..] == NewRecord(frame).acks;
      error := Send(frame, 0, txAckItems, encodes);
    }

    /** Records item `i` as the one sent last and sends it. */
    method Send(frame: DownlinkFrame, i: nat, txAckItems: array<Status>, encodes: bool) returns (error: Option<SendError>)
      requires Unshared()
      requires forall t :: t in cache && t != TokenOf(frame) ==> cache[t].acks != txAckItems
      modifies this`cache, this`sent
      ensures Unshared()
      ensures i >= |frame.items| ==> error == Some(InvalidIndex) && Records() == old(Records()) && sent == old(sent)
      ensures i < |frame.items| ==>
                && Records() == old(Records())[TokenOf(frame) := Record(frame, i, txAckItems[..])]
                && SendsItem(old(sent), frame, i, encodes, error)
    {
      if i >= |frame.items| {
        return Some(InvalidIndex);
      }
      cache := cache[TokenOf(frame) := Entry(frame, i, txAckItems)];
      var gw := gateways.Get(frame.gateway);
      if gw == None {
        return Some(UnknownGateway);
      }
      if !encodes {
        return Some(EncodingFailed);
      }
      sent := sent + [Sent(gw.value.address, TokenOf(frame), i)];
      return None;
    }

    /** The cache entries of a token expire together. */
    method Expire(t: Token)
      requires Valid()
      modifies this`cache
      ensures Valid() && Records() == old(Records()) - {t}
    {
      cache := cache - {t};
    }

    /** What is sent, reported and returned when the record of a TX_ACK's token, with
        its array `items`, has become `record` with this effect. */
    ghost predicate Shows(record: Record, items: array<Status>, effect: Effect, mac: Mac, encodes: bool, result: AckResult,
                          sentBefore: seq<Sent>, reportsBefore: seq<Report>)
      reads this`sent, this`reports, gateways, items
    {
      match effect
      case Refused =>
        result == UnexpectedError && sent == sentBefore && reports == reportsBefore
      case Reported(acks) =>
        && result == Done && sent == sentBefore && items[..] == acks
        && reports == reportsBefore + [Report(mac, record.frame.token, record.frame.downlinkId, items)]
      case Retried(index) =>
        && (result == Done || result.SendFailed?) && reports == reportsBefore
        && SendsItem(sentBefore, record.frame, index, encodes, if result == Done then None else Some(result.error))
    }

    /** The same without the effect: the next item is sent after an error for any but the
        last one, and a report follows a success and an error for the last one. */
    ghost predicate ShowsPlainly(before: Record, items: array<Status>, e: AckError, mac: Mac, encodes: bool,
                                 sentBefore: seq<Sent>, reportsBefore: seq<Report>)
      reads this`sent, this`reports, gateways
    {
      var frame, next := before.frame, before.index + 1;
      && sent == sentBefore +
           (if e.Named? && next < |frame.items| && frame.gateway in gateways.gateways && encodes
            then [Sent(gateways.gateways[frame.gateway].address, frame.token % 0x1_0000, next)] else [])
      && reports == reportsBefore +
           (if e.NoError? || (e.Named? && next == |frame.items|)
            then [Report(mac, frame.token, frame.downlinkId, items)] else [])
    }

    lemma ShownPlainly(before: Record, items: array<Status>, e: AckError, mac: Mac, encodes: bool, result: AckResult,
                       sentBefore: seq<Sent>, reportsBefore: seq<Report>)
      requires InSync(before)
      requires var (record, effect) := OnTxAck(before, e);
               Shows(record, items, effect, mac, encodes, result, sentBefore, reportsBefore)
      ensures ShowsPlainly(before, items, e, mac, encodes, sentBefore, reportsBefore)
    {
    }

    /** A TX_ACK advances the record of its own token as `OnTxAck` says and leaves all
        others untouched, reports included; a success from a registered gateway is counted. */
    method HandleTxAck(token: Token, mac: Mac, ackError: AckError, encodes: bool) returns (result: AckResult)
      requires Valid() && gateways.Counts(mac)
      modifies this, if token in cache then {cache[token].acks} else {}, gateways.StatsOf(mac)
      ensures Valid()
      ensures result != OutOfSync
      ensures forall r :: r in old(reports) && (token in old(cache) ==> r.items != old(cache)[token].acks) ==>
                r.items[..] == old(r.items[..])
      ensures token !in old(Records()) ==>
                result == NotCached && Records() == old(Records()) && sent == old(sent) && reports == old(reports)
      ensures token in old(Records()) ==>
                var before := old(Records())[token];
                var (record, effect) := OnTxAck(before, ackError);
                && Records() == old(Records())[token := record]
                && misnamed == (if BreaksShape(before, ackError) then old(misnamed) + {token} else old(misnamed))
                && Shows(record, old(cache)[token].acks, effect, mac, encodes, result, old(sent), old(reports))
      ensures token in old(Records()) ==>
                ShowsPlainly(old(Records())[token], old(cache)[token].acks, ackError, mac, encodes, old(sent), old(reports))
      ensures gateways.Counts(mac) && gateways.ExportedOf(mac) == old(gateways.ExportedOf(mac))
      ensures gateways.PendingOf(mac) ==
              if token in old(Records())
              then old(gateways.PendingOf(mac)).Append(
                SuccessLog(ackError.NoError? && mac in gateways.gateways, OnTxAck(old(Records())[token], ackError).0))
              else old(gateways.PendingOf(mac))
      ensures token in old(Records()) && token !in old(misnamed) && ackError.NoError? && mac in gateways.gateways ==>
                var before, counted := old(Records())[token], gateways.PendingOf(mac);
                && InSync(before)
                && counted.tx == old(gateways.PendingOf(mac)).tx + [DownlinkEvent(before.frame.items[before.index])]
                && counted.statuses == old(gateways.PendingOf(mac)).statuses + (before.acks[..before.index] + [Ok])
    {
      if token !in cache {
        return NotCached;
      }
      assert RecordValid(token, Records()[token], token in misnamed);
      if token !in misnamed {
        SuccessIsCounted(Records()[token]);
      }
      FollowingKeepsValid(Records(), misnamed, token, ackError);
      ghost var before, items, sentBefore, reportsBefore := Records()[token], cache[token].acks, sent, reports;
      result := HandleCached(token, mac, ackError, encodes);
      ShownPlainly(before, items, ackError, mac, encodes, result, sentBefore, reportsBefore);
    }

    method HandleCached(token: Token, mac: Mac, ackError: AckError, encodes: bool) returns (result: AckResult)
      requires Unshared() && token in cache && InSync(Records()[token]) && TokenOf(cache[token].frame) == token
      requires gateways.Counts(mac)
      modifies this, cache[token].acks, gateways.StatsOf(mac)
      ensures Unshared() && result != OutOfSync
      ensures var before := old(Records())[token];
              var (record, effect) := OnTxAck(before, ackError);
              && Records() == old(Records())[token := record]
              && misnamed == (if BreaksShape(before, ackError) then old(misnamed) + {token} else old(misnamed))
              && Shows(record, old(cache)[token].acks, effect, mac, encodes, result, old(sent), old(reports))
      ensures gateways.Counts(mac) && gateways.ExportedOf(mac) == old(gateways.ExportedOf(mac))
      ensures gateways.PendingOf(mac) == old(gateways.PendingOf(mac)).Append(
                SuccessLog(ackError.NoError? && mac in gateways.gateways, OnTxAck(old(Records())[token], ackError).0))
    {
      var entry := cache[token];
      if entry.index > entry.acks.Length - 1 || entry.acks.Length != |entry.frame.items| {
        return OutOfSync;
      }
      if ackError.Unexpected? {
        result := UnexpectedError;
      } else if ackError.Named? {
        result := AckFailed(token, mac, ackError.status, encodes);
      } else {
        AckSucceeded(token, mac);
        result := Done;
      }
    }

    /** Sets the acknowledgement of the current item, for no other token. */
    method Acknowledge(token: Token, status: Status)
      requires Unshared() && token in cache && InSync(Records()[token])
      modifies cache[token].acks
      ensures var r := old(Records())[token];
              Records() == old(Records())[token := r.(acks := r.acks[r.index := status])]
    {
      var entry := cache[token];
      entry.acks[entry.index] := status;
    }

    /** The branch for an acknowledgement with an error: retry, or report. */
    method AckFailed(token: Token, mac: Mac, status: Status, encodes: bool) returns (result: AckResult)
      requires Unshared() && token in cache && InSync(Records()[token]) && TokenOf(cache[token].frame) == token
      modifies this, cache[token].acks
      ensures Unshared()
      ensures var before := old(Records())[token];
              var (record, effect) := OnTxAck(before, Named(status));
              && Records() == old(Records())[token := record]
              && misnamed == (if BreaksShape(before, Named(status)) then old(misnamed) + {token} else old(misnamed))
              && Shows(record, old(cache)[token].acks, effect, mac, encodes, result, old(sent), old(reports))
    {
      if BreaksShape(Records()[token], Named(status)) {
        misnamed := misnamed + {token};
      }
      result := FailItem(token, mac, status, encodes);
    }

    method FailItem(token: Token, mac: Mac, status: Status, encodes: bool) returns (result: AckResult)
      requires Unshared() && token in cache && InSync(Records()[token]) && TokenOf(cache[token].frame) == token
      modifies this`cache, this`sent, this`reports, cache[token].acks
      ensures Unshared()
      ensures var (record, effect) := OnTxAck(old(Records())[token], Named(status));
              && Records() == old(Records())[token := record]
              && Shows(record, old(cache)[token].acks, effect, mac, encodes, result, old(sent), old(reports))
    {
      ghost var records, record := Records(), OnTxAck(Records()[token], Named(status)).0;
      Acknowledge(token, status);
      ghost var middle := Records()[token];
      assert record == if middle.index < |middle.frame.items| - 1 then middle.(index := middle.index + 1) else middle;
      Overwritten(records, token, middle, record);
      result := RetryOrReport(token, mac, encodes);
      assert Records() == records[token := record];
    }

    /** What follows a failed item: the next item, or the report if it was the last. */
    method RetryOrReport(token: Token, mac: Mac, encodes: bool) returns (result: AckResult)
      requires Unshared() && token in cache && InSync(Records()[token]) && TokenOf(cache[token].frame) == token
      modifies this`cache, this`sent, this`reports
      ensures Unshared()
      ensures var r := old(Records())[token];
              var retries := r.index < |r.frame.items| - 1;
              && Records() == (if retries then old(Records())[token := r.(index := r.index + 1)] else old(Records()))
              && Shows(r, old(cache)[token].acks, if retries then Retried(r.index + 1) else Reported(r.acks),
                       mac, encodes, result, old(sent), old(reports))
    {
      if cache[token].index < |cache[token].frame.items| - 1 {
        result := Retry(token, encodes);
      } else {
        ReportAcks(mac, cache[token].frame, cache[token].acks);
        result := Done;
      }
    }

    /** Sends the next item of a downlink. */
    method Retry(token: Token, encodes: bool) returns (result: AckResult)
      requires Unshared() && token in cache && cache[token].index < |cache[token].frame.items| - 1
      requires TokenOf(cache[token].frame) == token
      modifies this`cache, this`sent
      ensures Unshared()
      ensures var r := old(Records())[token];
              && Records() == old(Records())[token := r.(index := r.index + 1)]
              && (result == Done || result.SendFailed?)
              && SendsItem(old(sent), r.frame, r.index + 1, encodes, if result == Done then None else Some(result.error))
    {
      var entry := cache[token];
      var error := Send(entry.frame, entry.index + 1, entry.acks, encodes);
      result := if error == None then Done else SendFailed(error.value);
    }

    method ReportAcks(mac: Mac, frame: DownlinkFrame, items: array<Status>)
      modifies this`reports
      ensures reports == old(reports) + [Report(mac, frame.token, frame.downlinkId, items)]
    {
      reports := reports + [Report(mac, frame.token, frame.downlinkId, items)];
    }

    /** The branch for an acknowledgement without an error: count, and report. */
    method AckSucceeded(token: Token, mac: Mac)
      requires Unshared() && token in cache && InSync(Records()[token])
      requires gateways.Counts(mac)
      modifies this`reports, cache[token].acks, gateways.StatsOf(mac)
      ensures Unshared()
      ensures var record := OnTxAck(old(Records())[token], NoError).0;
              && Records() == old(Records())[token := record]
              && old(cache)[token].acks[..] == record.acks
              && reports == old(reports) + [Report(mac, record.frame.token, record.frame.downlinkId, old(cache)[token].acks)]
      ensures gateways.Counts(mac) && gateways.ExportedOf(mac) == old(gateways.ExportedOf(mac))
      ensures gateways.PendingOf(mac) == old(gateways.PendingOf(mac)).Append(
                SuccessLog(mac in gateways.gateways, OnTxAck(old(Records())[token], NoError).0))
    {
      ghost var after := OnTxAck(Records()[token], NoError).0;
      ghost var records := Records()[token := after];
      var frame, txAckItems := cache[token].frame, cache[token].acks;
      Acknowledge(token, Ok);
      assert Records() == records && txAckItems[..] == after.acks;
      CountSuccess(mac, frame.items, txAckItems);
      ReportAcks(mac, frame, txAckItems);
    }

    /** Counts an acknowledgement in the statistics of the gateway, if it is known. */
    method CountSuccess(mac: Mac, items: seq<TxInfo>, acks: array<Status>)
      requires gateways.Counts(mac)
      modifies gateways.StatsOf(mac)
      ensures Records() == old(Records())
      ensures gateways.Counts(mac) && gateways.ExportedOf(mac) == old(gateways.ExportedOf(mac))
      ensures gateways.PendingOf(mac) == old(gateways.PendingOf(mac)).Append(
                if mac in gateways.gateways then DownlinkLog(items, acks[..]) else NOTHING)
    {
      var conn := gateways.Get(mac);
      if conn.Some? {
        conn.value.stats.CountDownlink(items, acks);
      }
    }
  }
}
