/**
 Looking up a provider (blockchain_service.py): a cache in front of an index of the
 whole catalogue, rebuilt when it is old, and a direct search behind both.
 */
module CatalogLookup {
  import opened Prelude

  // ----- what the indexer answers

  datatype KeyValue = NetIdKey(text: string) | NameKey(text: string) | EndpointKey(number: nat) | OtherKey

  datatype LocalState = LocalState(app: nat, keyValues: seq<KeyValue>)

  datatype Account = Account(address: string, states: seq<LocalState>)

  datatype Provider = Provider(address: string, name: Option<string>, endpoint: Option<nat>)

  /** A catalogue entry as read: entries may lack any of their keys. */
  datatype Row = Row(netid: Option<string>, provider: Provider)

  function RowOf(address: string, keyValues: seq<KeyValue>): Row {
    if keyValues == [] then Row(None, Provider(address, None, None))
    else
      var row := RowOf(address, keyValues[..|keyValues| - 1]);
      match keyValues[|keyValues| - 1]
      case NetIdKey(text) => row.(netid := Some(text))
      case NameKey(text) => row.(provider := row.provider.(name := Some(text)))
      case EndpointKey(number) => row.(provider := row.provider.(endpoint := Some(number)))
      case OtherKey => row
  }

  function RowsOf(address: string, states: seq<LocalState>, app: nat): seq<Row> {
    if states == [] then []
    else
      var before, last := RowsOf(address, states[..|states| - 1], app), states[|states| - 1];
      if last.app == app then before + [RowOf(address, last.keyValues)] else before
  }

  /** All catalogue entries, in the order of the answer. */
  function Rows(accounts: seq<Account>, app: nat): seq<Row> {
    if accounts == [] then []
    else
      var last := accounts[|accounts| - 1];
      Rows(accounts[..|accounts| - 1], app) + RowsOf(last.address, last.states, app)
  }

  // ----- what the rows say about the answer

  predicate SameKind(a: KeyValue, b: KeyValue) {
    (a.NetIdKey? && b.NetIdKey?) || (a.NameKey? && b.NameKey?) || (a.EndpointKey? && b.EndpointKey?)
  }

  /** `kv` is there, and nothing of its kind follows. */
  ghost predicate Last(keyValues: seq<KeyValue>, kv: KeyValue) {
    exists k :: 0 <= k < |keyValues| && keyValues[k] == kv && forall j :: k < j < |keyValues| ==> !SameKind(keyValues[j], kv)
  }

  /** Each field has a value exactly if it is the last one given for it. */
  ghost predicate Reads(row: Row, address: string, keyValues: seq<KeyValue>) {
    && row.provider.address == address
    && (forall v :: row.netid == Some(v) <==> Last(keyValues, NetIdKey(v)))
    && (forall v :: row.provider.name == Some(v) <==> Last(keyValues, NameKey(v)))
    && (forall v: nat :: row.provider.endpoint == Some(v) <==> Last(keyValues, EndpointKey(v)))
  }

  lemma LastOneMore(keyValues: seq<KeyValue>, next: KeyValue, kv: KeyValue)
    requires !kv.OtherKey?
    ensures Last(keyValues + [next], kv) <==> if SameKind(next, kv) then next == kv else Last(keyValues, kv)
  {
    var all, n := keyValues + [next], |keyValues|;
    if Last(keyValues, kv) && !SameKind(next, kv) {
      var k :| 0 <= k < n && keyValues[k] == kv && forall j :: k < j < n ==> !SameKind(keyValues[j], kv);
      assert all[k] == kv && forall j :: k < j < |all| ==> !SameKind(all[j], kv);
    }
    if Last(all, kv) {
      var k :| 0 <= k < |all| && all[k] == kv && forall j :: k < j < |all| ==> !SameKind(all[j], kv);
      if k < n {
        assert !SameKind(all[n], kv) && keyValues[k] == kv;
        assert forall j :: k < j < n ==> all[j] == keyValues[j];
      }
    }
    if next == kv {
      assert all[n] == kv && SameKind(next, kv);
    }
  }

  lemma {:induction false} RowReads(address: string, keyValues: seq<KeyValue>)
    ensures Reads(RowOf(address, keyValues), address, keyValues)
  {
    if keyValues != [] {
      var before, next := keyValues[..|keyValues| - 1], keyValues[|keyValues| - 1];
      RowReads(address, before);
      assert keyValues == before + [next];
      forall v
        ensures Last(keyValues, NetIdKey(v)) <==> if next.NetIdKey? then next == NetIdKey(v) else Last(before, NetIdKey(v))
        ensures Last(keyValues, NameKey(v)) <==> if next.NameKey? then next == NameKey(v) else Last(before, NameKey(v))
      {
        LastOneMore(before, next, NetIdKey(v));
        LastOneMore(before, next, NameKey(v));
      }
      forall v
        ensures Last(keyValues, EndpointKey(v)) <==>
                if next.EndpointKey? then next == EndpointKey(v) else Last(before, EndpointKey(v))
      {
        LastOneMore(before, next, EndpointKey(v));
      }
    }
  }

  /** State `j` of account `i`. */
  datatype Place = Place(i: nat, j: nat)

  predicate Precedes(p: Place, q: Place) {
    p.i < q.i || (p.i == q.i && p.j < q.j)
  }

  /** The place holds a state of the application. */
  predicate IsState(accounts: seq<Account>, app: nat, p: Place) {
    p.i < |accounts| && p.j < |accounts[p.i].states| && accounts[p.i].states[p.j].app == app
  }

  ghost predicate RowAt(accounts: seq<Account>, app: nat, p: Place, row: Row) {
    IsState(accounts, app, p) && Reads(row, accounts[p.i].address, accounts[p.i].states[p.j].keyValues)
  }

  /** One row for each state of the application, in order. */
  ghost predicate Lists(accounts: seq<Account>, app: nat, places: seq<Place>, rows: seq<Row>) {
    && |places| == |rows|
    && (forall n :: 0 <= n < |rows| ==> RowAt(accounts, app, places[n], rows[n]))
    && (forall m, n :: 0 <= m < n < |rows| ==> Precedes(places[m], places[n]))
    && (forall p :: IsState(accounts, app, p) ==> p in places)
  }

  /** The same for the first accounts and the first states of the one after them. */
  ghost predicate ListsUpTo(accounts: seq<Account>, app: nat, end: Place, places: seq<Place>, rows: seq<Row>) {
    && |places| == |rows|
    && (forall n :: 0 <= n < |rows| ==> RowAt(accounts, app, places[n], rows[n]) && Precedes(places[n], end))
    && (forall m, n :: 0 <= m < n < |rows| ==> Precedes(places[m], places[n]))
    && (forall p :: IsState(accounts, app, p) && Precedes(p, end) ==> p in places)
  }

  lemma {:induction false} StatesAreListed(accounts: seq<Account>, app: nat, i: nat, j: nat, start: seq<Place>)
      returns (places: seq<Place>)
    requires i < |accounts| && j <= |accounts[i].states|
    requires ListsUpTo(accounts, app, Place(i, 0), start, RowsUpTo(accounts, app, i, 0))
    ensures ListsUpTo(accounts, app, Place(i, j), places, RowsUpTo(accounts, app, i, j))
    decreases j
  {
    if j == 0 {
      places := start;
    } else {
      places := StatesAreListed(accounts, app, i, j - 1, start);
      places := NextListed(accounts, app, i, j - 1, places);
    }
  }

  lemma NextListed(accounts: seq<Account>, app: nat, i: nat, j: nat, places: seq<Place>) returns (all: seq<Place>)
    requires i < |accounts| && j < |accounts[i].states|
    requires ListsUpTo(accounts, app, Place(i, j), places, RowsUpTo(accounts, app, i, j))
    ensures ListsUpTo(accounts, app, Place(i, j + 1), all, RowsUpTo(accounts, app, i, j + 1))
  {
    NextRows(accounts, app, i, j);
    var rows := RowsUpTo(accounts, app, i, j);
    if accounts[i].states[j].app == app {
      all := OneMoreListed(accounts, app, Place(i, j), places, rows);
    } else {
      all := places;
      NoMoreListed(accounts, app, Place(i, j), places, rows);
    }
  }

  lemma {:induction false} AccountsAreListed(accounts: seq<Account>, app: nat, i: nat) returns (places: seq<Place>)
    requires i <= |accounts|
    ensures ListsUpTo(accounts, app, Place(i, 0), places, Rows(accounts[..i], app))
  {
    if i == 0 {
      places := [];
    } else {
      places := AccountsAreListed(accounts, app, i - 1);
      AccountRows(accounts, app, i - 1);
      var n := |accounts[i - 1].states|;
      places := StatesAreListed(accounts, app, i - 1, n, places);
      AccountListed(accounts, app, i - 1, places, Rows(accounts[..i], app));
    }
  }

  lemma NoMoreListed(accounts: seq<Account>, app: nat, last: Place, places: seq<Place>, rows: seq<Row>)
    requires ListsUpTo(accounts, app, last, places, rows) && !IsState(accounts, app, last)
    ensures ListsUpTo(accounts, app, Place(last.i, last.j + 1), places, rows)
  {
  }

  lemma AccountListed(accounts: seq<Account>, app: nat, i: nat, places: seq<Place>, rows: seq<Row>)
    requires i < |accounts| && ListsUpTo(accounts, app, Place(i, |accounts[i].states|), places, rows)
    ensures ListsUpTo(accounts, app, Place(i + 1, 0), places, rows)
  {
  }

  lemma OneMoreListed(accounts: seq<Account>, app: nat, last: Place, places: seq<Place>, rows: seq<Row>)
      returns (all: seq<Place>)
    requires IsState(accounts, app, last) && ListsUpTo(accounts, app, last, places, rows)
    ensures ListsUpTo(accounts, app, Place(last.i, last.j + 1), all,
                      rows + [RowOf(accounts[last.i].address, accounts[last.i].states[last.j].keyValues)])
  {
    RowReads(accounts[last.i].address, accounts[last.i].states[last.j].keyValues);
    all := places + [last];
    forall p | IsState(accounts, app, p) && Precedes(p, Place(last.i, last.j + 1))
      ensures p in all
    {
      if p != last {
        assert Precedes(p, last) && p in places;
      }
    }
  }

  /** The rows are those of the application's states, in the order of the answer. */
  lemma RowsAreTheStates(accounts: seq<Account>, app: nat) returns (places: seq<Place>)
    ensures Lists(accounts, app, places, Rows(accounts, app))
  {
    places := AccountsAreListed(accounts, app, |accounts|);
    assert accounts[..|accounts|] == accounts;
    assert forall p :: IsState(accounts, app, p) ==> Precedes(p, Place(|accounts|, 0));
  }

  // ----- the two ways to find an entry

  predicate HasNetId(rows: seq<Row>, k: int, netid: string) {
    0 <= k < |rows| && rows[k].netid == Some(netid)
  }

  ghost predicate FirstAt(rows: seq<Row>, k: int, netid: string) {
    HasNetId(rows, k, netid) && forall j :: 0 <= j < k ==> !HasNetId(rows, j, netid)
  }

  ghost predicate LastAt(rows: seq<Row>, k: int, netid: string) {
    HasNetId(rows, k, netid) && forall j :: k < j < |rows| ==> !HasNetId(rows, j, netid)
  }

  ghost predicate Unique(rows: seq<Row>) {
    forall j, k, netid :: HasNetId(rows, j, netid) && HasNetId(rows, k, netid) ==> j == k
  }

  function Indexed(index: map<string, Provider>, row: Row): map<string, Provider> {
    if row.netid.Some? && row.netid.value != "" then index[row.netid.value := row.provider] else index
  }

  function IndexOf(rows: seq<Row>): map<string, Provider> {
    if rows == [] then map[] else Indexed(IndexOf(rows[..|rows| - 1]), rows[|rows| - 1])
  }

  function Search(rows: seq<Row>, netid: string): Option<Provider> {
    if rows == [] then None
    else
      var before := Search(rows[..|rows| - 1], netid);
      if before == None && rows[|rows| - 1].netid == Some(netid) then Some(rows[|rows| - 1].provider) else before
  }

  function Get(index: map<string, Provider>, netid: string): Option<Provider> {
    if netid in index then Some(index[netid]) else None
  }

  /** The index holds, for every NetID that is not empty, the last entry with it. */
  lemma {:induction false} IndexHoldsTheLast(rows: seq<Row>, netid: string)
    ensures netid in IndexOf(rows) <==> netid != "" && exists k :: LastAt(rows, k, netid)
    ensures forall k :: netid != "" && LastAt(rows, k, netid) ==> Get(IndexOf(rows), netid) == Some(rows[k].provider)
  {
    if rows != [] {
      var before, n := rows[..|rows| - 1], |rows| - 1;
      IndexHoldsTheLast(before, netid);
      assert forall k :: 0 <= k < n ==> (HasNetId(before, k, netid) <==> HasNetId(rows, k, netid));
      if HasNetId(rows, n, netid) {
        assert LastAt(rows, n, netid);
      } else {
        assert forall k :: LastAt(rows, k, netid) <==> LastAt(before, k, netid);
      }
    }
  }

  /** The search returns the first entry with the NetID. */
  lemma {:induction false} SearchFindsTheFirst(rows: seq<Row>, netid: string)
    ensures Search(rows, netid).Some? <==> exists k :: FirstAt(rows, k, netid)
    ensures forall k :: FirstAt(rows, k, netid) ==> Search(rows, netid) == Some(rows[k].provider)
    ensures Search(rows, netid) == None <==> forall k :: !HasNetId(rows, k, netid)
  {
    if rows != [] {
      var before, n := rows[..|rows| - 1], |rows| - 1;
      SearchFindsTheFirst(before, netid);
      assert forall k :: 0 <= k < n ==> (HasNetId(before, k, netid) <==> HasNetId(rows, k, netid));
      assert forall k :: k < n ==> (FirstAt(rows, k, netid) <==> FirstAt(before, k, netid));
      if HasNetId(rows, n, netid) && Search(before, netid) == None {
        assert FirstAt(rows, n, netid);
      }
    }
  }

  /** Index and search agree on a NetID exactly when its first and its last entry are of
      the same provider, and on the empty one when no entry has it. */
  lemma LookupsAgreeIff(rows: seq<Row>, netid: string)
    ensures Get(IndexOf(rows), netid) == Search(rows, netid) <==>
            if netid == "" then forall k :: !HasNetId(rows, k, netid)
            else forall j, k :: FirstAt(rows, j, netid) && LastAt(rows, k, netid) ==> rows[j].provider == rows[k].provider
    ensures Unique(rows) && netid != "" ==> Get(IndexOf(rows), netid) == Search(rows, netid)
  {
    IndexHoldsTheLast(rows, netid);
    SearchFindsTheFirst(rows, netid);
    if Search(rows, netid) == None {
      assert forall k :: LastAt(rows, k, netid) ==> HasNetId(rows, k, netid);
    } else {
      var j :| FirstAt(rows, j, netid);
      SomeLast(rows, netid, j);
    }
  }

  lemma SomeLast(rows: seq<Row>, netid: string, j: int)
    requires HasNetId(rows, j, netid)
    ensures exists k :: j <= k && LastAt(rows, k, netid)
    decreases |rows| - j
  {
    if k :| j < k < |rows| && HasNetId(rows, k, netid) {
      SomeLast(rows, netid, k);
    } else {
      assert LastAt(rows, j, netid);
    }
  }

  // ----- the service, as a value

  const CATALOG_TTL := 300.0
  const UPDATE_INTERVAL := 300.0

  datatype Cached = Cached(data: Provider, at: real)

  datatype State = State(cache: map<string, Cached>, index: map<string, Provider>, lastUpdate: real)

  /** The catalogue's entries at every moment. */
  type History = real -> seq<Row>

  datatype Answer = Found(provider: Provider) | NotFound | Failed

  /** When one lookup reads the clock and the indexer. */
  datatype Times = Times(asked: real, checked: real, rechecked: real, queried: real, built: real,
                         searched: real, answered: real)

  /** A lookup; the flags say whether the indexer answers the rebuild and the search,
      should they come to it. */
  datatype Lookup = Lookup(netid: string, times: Times, rebuilds: bool, searches: bool)

  predicate CacheHit(s: State, l: Lookup) {
    l.netid in s.cache && l.times.asked - s.cache[l.netid].at < CATALOG_TTL
  }

  predicate NeedsUpdate(s: State, now: real) {
    now - s.lastUpdate > UPDATE_INTERVAL
  }

  function Put(s: State, netid: string, p: Provider, now: real): State {
    s.(cache := s.cache[netid := Cached(p, now)])
  }

  function Rebuilt(s: State, rows: seq<Row>, now: real): State {
    s.(index := IndexOf(rows), lastUpdate := now)
  }

  function AfterSearch(s: State, rows: seq<Row>, l: Lookup): (State, Answer) {
    if !l.searches then (s, Failed)
    else
      match Search(rows, l.netid)
      case None => (s, NotFound)
      case Some(p) => (Put(s, l.netid, p, l.times.answered), Found(p))
  }

  function AfterIndex(s: State, l: Lookup): (State, Answer)
    requires l.netid in s.index
  {
    (Put(s, l.netid, s.index[l.netid], l.times.answered), Found(s.index[l.netid]))
  }

  /** The catalogue has the entries `rebuilt` when it is read for a rebuild, and
      `searched` when it is read for a search. */
  function AfterLookup(s: State, rebuilt: seq<Row>, searched: seq<Row>, l: Lookup): (State, Answer) {
    if CacheHit(s, l) then (s, Found(s.cache[l.netid].data))
    else if !NeedsUpdate(s, l.times.checked) && l.netid in s.index then AfterIndex(s, l)
    else
      var s' := if NeedsUpdate(s, l.times.rechecked) && l.rebuilds then Rebuilt(s, rebuilt, l.times.built) else s;
      if NeedsUpdate(s, l.times.rechecked) && l.netid in s'.index then AfterIndex(s', l)
      else AfterSearch(s', searched, l)
  }

  function AfterInvalidate(s: State, netid: Option<string>): State {
    if netid.Some? && netid.value != "" then s.(cache := s.cache - {netid.value}) else s.(cache := map[])
  }

  /** A cached answer counts for less than 300 seconds, and an index for up to 300: then
      nothing is asked. Otherwise an entry of the searched ones is never missed, and
      "not found" and failure are what they say. */
  lemma LookupIsLazy(s: State, rebuilt: seq<Row>, searched: seq<Row>, l: Lookup)
    ensures var (s', a) := AfterLookup(s, rebuilt, searched, l);
            var cached := l.netid in s.cache && l.times.asked - s.cache[l.netid].at < 300.0;
            && (cached ==> s' == s && a == Found(s.cache[l.netid].data))
            && (!cached && l.times.checked - s.lastUpdate <= 300.0 && l.netid in s.index ==>
                  a == Found(s.index[l.netid]) && s'.index == s.index && s'.lastUpdate == s.lastUpdate)
            && (a.Found? && !cached ==> s'.cache == s.cache[l.netid := Cached(a.provider, l.times.answered)])
            && (!a.Found? ==> s'.cache == s.cache && !cached)
            && (l.searches && (exists k :: HasNetId(searched, k, l.netid)) ==> a.Found?)
            && (a == NotFound ==> l.searches && forall k :: !HasNetId(searched, k, l.netid))
            && (a == Failed ==> !l.searches)
  {
    SearchFindsTheFirst(searched, l.netid);
    if l.searches && exists k :: HasNetId(searched, k, l.netid) {
      assert Search(searched, l.netid).Some?;
    }
  }

  /** Invalidating forgets one NetID, or all for an absent or empty one. */
  lemma InvalidatedIsForgotten(s: State, netid: Option<string>, other: string)
    ensures var s' := AfterInvalidate(s, netid);
            && s'.index == s.index && s'.lastUpdate == s.lastUpdate
            && (other in s'.cache <==> other in s.cache && netid.Some? && netid.value != "" && netid.value != other)
            && (other in s'.cache ==> s'.cache[other] == s.cache[other])
  {
  }

  /** The indexer's answer has this entry: a state of the application with the values
      last given for it. */
  ghost predicate IsEntry(accounts: seq<Account>, app: nat, netid: string, provider: Provider) {
    exists p :: RowAt(accounts, app, p, Row(Some(netid), provider))
  }

  lemma FoundIsAnEntry(accounts: seq<Account>, app: nat, netid: string)
    ensures var rows := Rows(accounts, app);
            && (netid in IndexOf(rows) ==> IsEntry(accounts, app, netid, IndexOf(rows)[netid]))
            && (Search(rows, netid).Some? ==> IsEntry(accounts, app, netid, Search(rows, netid).value))
  {
    var rows := Rows(accounts, app);
    var places := RowsAreTheStates(accounts, app);
    IndexHoldsTheLast(rows, netid);
    SearchFindsTheFirst(rows, netid);
    if netid in IndexOf(rows) {
      var k :| LastAt(rows, k, netid);
      assert RowAt(accounts, app, places[k], Row(Some(netid), IndexOf(rows)[netid]));
    }
    if Search(rows, netid).Some? {
      var k :| FirstAt(rows, k, netid);
      assert RowAt(accounts, app, places[k], Row(Some(netid), Search(rows, netid).value));
    }
  }

  /** Every answer comes from the cache, from the index as it was, or is an entry of what
      the indexer has answered. */
  lemma AnswersAreEntries(s: State, rebuilt: seq<Account>, searched: seq<Account>, app: nat, l: Lookup)
    ensures var a := AfterLookup(s, Rows(rebuilt, app), Rows(searched, app), l).1;
            a.Found? ==>
              || (l.netid in s.cache && a.provider == s.cache[l.netid].data)
              || (l.netid in s.index && a.provider == s.index[l.netid])
              || IsEntry(rebuilt, app, l.netid, a.provider)
              || IsEntry(searched, app, l.netid, a.provider)
  {
    FoundIsAnEntry(rebuilt, app, l.netid);
    FoundIsAnEntry(searched, app, l.netid);
    FoundSomewhere(s, Rows(rebuilt, app), Rows(searched, app), l);
  }

  lemma FoundSomewhere(s: State, rebuilt: seq<Row>, searched: seq<Row>, l: Lookup)
    ensures var a := AfterLookup(s, rebuilt, searched, l).1;
            a.Found? ==>
              || (l.netid in s.cache && a.provider == s.cache[l.netid].data)
              || Get(s.index, l.netid) == Some(a.provider)
              || Get(IndexOf(rebuilt), l.netid) == Some(a.provider)
              || Search(searched, l.netid) == Some(a.provider)
  {
  }

  /** The place, if there is one, holds the only entry with this NetID. */
  ghost predicate OnlyEntry(accounts: seq<Account>, app: nat, netid: string, only: Option<Place>) {
    forall p :: IsState(accounts, app, p) ==>
      (Last(accounts[p.i].states[p.j].keyValues, NetIdKey(netid)) <==> only == Some(p))
  }

  /** A lookup that asks the indexer answers with the only entry for its NetID, in all of
      its fields, or says that there is none. */
  lemma OnlyEntryIsFound(s: State, accounts: seq<Account>, app: nat, l: Lookup, only: Option<Place>)
    requires l.rebuilds && l.searches && OnlyEntry(accounts, app, l.netid, only)
    requires only.Some? ==> IsState(accounts, app, only.value)
    requires !(l.netid in s.cache && l.times.asked - s.cache[l.netid].at < 300.0)
    requires l.times.checked - s.lastUpdate > 300.0 && l.times.rechecked - s.lastUpdate > 300.0
    ensures var a := AfterLookup(s, Rows(accounts, app), Rows(accounts, app), l).1;
            if only == None then a == NotFound
            else a.Found? && RowAt(accounts, app, only.value, Row(Some(l.netid), a.provider))
  {
    var k := OnlyRow(accounts, app, l.netid, only);
    OnlyRowIsFound(s, Rows(accounts, app), l, k);
  }

  /** Row `k` alone has the NetID, or none if `k` is negative. */
  ghost predicate Only(rows: seq<Row>, k: int, netid: string) {
    forall j :: HasNetId(rows, j, netid) <==> 0 <= j == k
  }

  /** The row of the only entry, or -1. */
  lemma OnlyRow(accounts: seq<Account>, app: nat, netid: string, only: Option<Place>) returns (k: int)
    requires OnlyEntry(accounts, app, netid, only) && (only.Some? ==> IsState(accounts, app, only.value))
    ensures var rows := Rows(accounts, app);
            && Only(rows, k, netid)
            && (k >= 0 <==> only.Some?)
            && (k >= 0 ==> k < |rows| && RowAt(accounts, app, only.value, Row(Some(netid), rows[k].provider)))
  {
    var rows := Rows(accounts, app);
    var places := RowsAreTheStates(accounts, app);
    assert forall j :: 0 <= j < |rows| ==> RowAt(accounts, app, places[j], rows[j]);
    assert forall j :: HasNetId(rows, j, netid) <==> 0 <= j < |rows| && only == Some(places[j]);
    k := -1;
    if only.Some? {
      k :| 0 <= k < |rows| && places[k] == only.value;
      assert forall j :: 0 <= j < |rows| && places[j] == places[k] ==> j == k;
      assert rows[k] == Row(Some(netid), rows[k].provider);
    }
  }

  lemma OnlyRowIsFound(s: State, rows: seq<Row>, l: Lookup, k: int)
    requires Only(rows, k, l.netid)
    requires l.rebuilds && l.searches
    requires !CacheHit(s, l) && NeedsUpdate(s, l.times.checked) && NeedsUpdate(s, l.times.rechecked)
    ensures k >= 0 ==> k < |rows|
    ensures AfterLookup(s, rows, rows, l).1 == if k >= 0 then Found(rows[k].provider) else NotFound
  {
    IndexHoldsTheLast(rows, l.netid);
    SearchFindsTheFirst(rows, l.netid);
    if k >= 0 {
      assert HasNetId(rows, k, l.netid);
      assert FirstAt(rows, k, l.netid) && LastAt(rows, k, l.netid);
    }
  }

  /** With unique NetIDs, a lookup that asks the indexer answers with the entry. */
  lemma AnswerIsTheEntry(s: State, rows: seq<Row>, l: Lookup)
    requires Unique(rows) && l.rebuilds && l.searches
    requires !CacheHit(s, l) && NeedsUpdate(s, l.times.checked) && NeedsUpdate(s, l.times.rechecked)
    ensures AfterLookup(s, rows, rows, l).1 ==
            match Search(rows, l.netid) case Some(p) => Found(p) case None => NotFound
  {
    LookupsAgreeIff(rows, l.netid);
    IndexHoldsTheLast(rows, l.netid);
  }

  // ----- how old an answer can be

  /** The entry was in the catalogue at some moment between these. */
  ghost predicate WasListed(h: History, netid: string, p: Provider, from: real, to: real) {
    exists t, k :: from <= t <= to && HasNetId(h(t), k, netid) && h(t)[k].provider == p
  }

  lemma FoundIsListed(h: History, t: real, netid: string)
    ensures netid in IndexOf(h(t)) ==> WasListed(h, netid, IndexOf(h(t))[netid], t, t)
    ensures Search(h(t), netid).Some? ==> WasListed(h, netid, Search(h(t), netid).value, t, t)
  {
    IndexHoldsTheLast(h(t), netid);
    SearchFindsTheFirst(h(t), netid);
    if netid in IndexOf(h(t)) {
      var k :| LastAt(h(t), k, netid);
      assert HasNetId(h(t), k, netid) && h(t)[k].provider == IndexOf(h(t))[netid];
    }
    if Search(h(t), netid).Some? {
      var k :| FirstAt(h(t), k, netid);
      assert HasNetId(h(t), k, netid) && h(t)[k].provider == Search(h(t), netid).value;
    }
  }

  lemma Widen(h: History, netid: string, p: Provider, t: real, from: real, to: real)
    requires WasListed(h, netid, p, t, t) && from <= t <= to
    ensures WasListed(h, netid, p, from, to)
  {
    var k :| HasNetId(h(t), k, netid) && h(t)[k].provider == p;
  }

  function Looked(h: History, s: State, l: Lookup): (State, Answer) {
    AfterLookup(s, h(l.times.queried), h(l.times.searched), l)
  }

  /** A failed rebuild whose lookup the old index answers. */
  predicate FromOldIndex(s: State, l: Lookup) {
    !CacheHit(s, l) && NeedsUpdate(s, l.times.checked) && !l.rebuilds && l.netid in s.index
  }

  datatype Event =
    | Look(lookup: Lookup)
    | Rebuild(queried: real, built: real, succeeds: bool)
    | Invalidate(time: real, netid: Option<string>)

  function Begin(e: Event): real {
    match e
    case Look(l) => l.times.asked
    case Rebuild(queried, _, _) => queried
    case Invalidate(time, _) => time
  }

  function End(e: Event): real {
    match e
    case Look(l) => l.times.answered
    case Rebuild(_, built, _) => built
    case Invalidate(time, _) => time
  }

  predicate Ordered(t: Times) {
    t.asked <= t.checked <= t.rechecked <= t.queried <= t.built <= t.searched <= t.answered
  }

  /** The clock does not go back, and the event takes no longer than `duration`. */
  predicate Timely(e: Event, duration: real) {
    && 0.0 <= Begin(e) <= End(e) <= Begin(e) + duration
    && (e.Look? ==> Ordered(e.lookup.times))
  }

  /** Before the first build the index is empty and as old as the clock. */
  const START := State(map[], map[], 0.0)

  function After(h: History, s: State, e: Event): State {
    match e
    case Look(l) => Looked(h, s, l).0
    case Rebuild(queried, built, succeeds) => if succeeds then Rebuilt(s, h(queried), built) else s
    case Invalidate(_, netid) => AfterInvalidate(s, netid)
  }

  function Run(h: History, events: seq<Event>): State {
    if events == [] then START else After(h, Run(h, events[..|events| - 1]), events[|events| - 1])
  }

  /** One event after the other. */
  ghost predicate Chronological(events: seq<Event>, duration: real) {
    && (forall i :: 0 <= i < |events| ==> Timely(events[i], duration))
    && (forall i, j :: 0 <= i < j < |events| ==> End(events[i]) <= Begin(events[j]))
  }

  /** Whenever an index answers although its rebuild has failed, it is no older than this. */
  ghost predicate OldIndexWithin(h: History, events: seq<Event>, bound: real) {
    forall i :: 0 <= i < |events| && events[i].Look? && FromOldIndex(Run(h, events[..i]), events[i].lookup) ==>
      events[i].lookup.times.checked - Run(h, events[..i]).lastUpdate <= bound
  }

  /** The index is the catalogue as read for its last update. */
  ghost predicate IndexRead(h: History, s: State, read: real) {
    s.index == map[] || s.index == IndexOf(h(read))
  }

  /** The last update took at most `duration`; what is cached was listed at most `age`
      before it was put there. */
  ghost predicate Recent(h: History, s: State, age: real, duration: real, now: real) {
    && s.lastUpdate <= now
    && (exists read: real :: s.lastUpdate - duration <= read <= s.lastUpdate && IndexRead(h, s, read))
    && (forall n :: n in s.cache ==> CachedRecently(h, n, s.cache[n], age, now))
  }

  ghost predicate CachedRecently(h: History, netid: string, c: Cached, age: real, now: real) {
    c.at <= now && WasListed(h, netid, c.data, c.at - age, c.at)
  }

  lemma UncachedWasListed(h: History, s: State, bound: real, duration: real, l: Lookup, read: real)
    requires s.lastUpdate - duration <= read <= s.lastUpdate <= l.times.asked && IndexRead(h, s, read)
    requires bound >= UPDATE_INTERVAL && !CacheHit(s, l) && Timely(Look(l), duration)
    requires FromOldIndex(s, l) ==> l.times.checked - s.lastUpdate <= bound
    ensures var a := Looked(h, s, l).1;
            a.Found? ==> WasListed(h, l.netid, a.provider, l.times.answered - (bound + 2.0 * duration), l.times.answered)
  {
    var a, from, to := Looked(h, s, l).1, l.times.answered - (bound + 2.0 * duration), l.times.answered;
    if a.Found? {
      if l.netid in s.index && !(NeedsUpdate(s, l.times.checked) && l.rebuilds) {
        FoundIsListed(h, read, l.netid);
        if a.provider == s.index[l.netid] {
          Widen(h, l.netid, a.provider, read, from, to);
          return;
        }
      }
      FoundIsListed(h, l.times.queried, l.netid);
      FoundIsListed(h, l.times.searched, l.netid);
      if WasListed(h, l.netid, a.provider, l.times.queried, l.times.queried) {
        Widen(h, l.netid, a.provider, l.times.queried, from, to);
      } else {
        Widen(h, l.netid, a.provider, l.times.searched, from, to);
      }
    }
  }

  lemma PutIsRecent(h: History, s: State, age: real, duration: real, netid: string, p: Provider, now: real)
    requires Recent(h, s, age, duration, now) && WasListed(h, netid, p, now - age, now)
    ensures Recent(h, Put(s, netid, p, now), age, duration, now)
  {
    assert CachedRecently(h, netid, Cached(p, now), age, now);
    var read: real :| s.lastUpdate - duration <= read <= s.lastUpdate && IndexRead(h, s, read);
    assert IndexRead(h, Put(s, netid, p, now), read);
  }

  lemma RebuiltIsRecent(h: History, s: State, age: real, duration: real, queried: real, built: real, now: real)
    requires Recent(h, s, age, duration, queried) && queried <= built <= queried + duration && built <= now
    ensures Recent(h, Rebuilt(s, h(queried), built), age, duration, now)
  {
    assert IndexRead(h, Rebuilt(s, h(queried), built), queried);
  }

  lemma LaterIsRecent(h: History, s: State, age: real, duration: real, now: real, later: real)
    requires Recent(h, s, age, duration, now) && now <= later
    ensures Recent(h, s, age, duration, later)
  {
  }

  /** The state that a lookup past the cache answers from. */
  function Consulted(h: History, s: State, l: Lookup): State {
    if !(!NeedsUpdate(s, l.times.checked) && l.netid in s.index) && NeedsUpdate(s, l.times.rechecked) && l.rebuilds
    then Rebuilt(s, h(l.times.queried), l.times.built) else s
  }

  lemma AnswerIsCached(h: History, s: State, l: Lookup)
    requires !CacheHit(s, l)
    ensures var (s', a) := Looked(h, s, l);
            var r := Consulted(h, s, l);
            s' == if a.Found? then Put(r, l.netid, a.provider, l.times.answered) else r
  {
  }

  lemma ConsultedIsRecent(h: History, s: State, age: real, duration: real, l: Lookup)
    requires Recent(h, s, age, duration, l.times.asked) && Timely(Look(l), duration)
    ensures Recent(h, Consulted(h, s, l), age, duration, l.times.answered)
  {
    LaterIsRecent(h, s, age, duration, l.times.asked, l.times.queried);
    LaterIsRecent(h, s, age, duration, l.times.asked, l.times.answered);
    RebuiltIsRecent(h, s, age, duration, l.times.queried, l.times.built, l.times.answered);
  }

  /** A lookup past the cache: the answer was listed at most `bound` and two durations
      ago, and is cached. */
  lemma UncachedIsRecent(h: History, s: State, bound: real, duration: real, l: Lookup)
    requires Recent(h, s, bound + 2.0 * duration, duration, l.times.asked) && bound >= UPDATE_INTERVAL
    requires !CacheHit(s, l) && Timely(Look(l), duration)
    requires FromOldIndex(s, l) ==> l.times.checked - s.lastUpdate <= bound
    ensures var (s', a) := Looked(h, s, l);
            && Recent(h, s', bound + 2.0 * duration, duration, l.times.answered)
            && (a.Found? ==>
                  WasListed(h, l.netid, a.provider, l.times.answered - (bound + 2.0 * duration), l.times.answered))
  {
    var age := bound + 2.0 * duration;
    var read: real :| s.lastUpdate - duration <= read <= s.lastUpdate && IndexRead(h, s, read);
    UncachedWasListed(h, s, bound, duration, l, read);
    AnswerIsCached(h, s, l);
    ConsultedIsRecent(h, s, age, duration, l);
    var (s', a) := Looked(h, s, l);
    if a.Found? {
      PutIsRecent(h, Consulted(h, s, l), age, duration, l.netid, a.provider, l.times.answered);
    }
  }

  lemma StepIsRecent(h: History, s: State, bound: real, duration: real, e: Event)
    requires Recent(h, s, bound + 2.0 * duration, duration, Begin(e)) && bound >= UPDATE_INTERVAL && Timely(e, duration)
    requires e.Look? && FromOldIndex(s, e.lookup) ==> e.lookup.times.checked - s.lastUpdate <= bound
    ensures Recent(h, After(h, s, e), bound + 2.0 * duration, duration, End(e))
  {
    var age := bound + 2.0 * duration;
    LaterIsRecent(h, s, age, duration, Begin(e), End(e));
    match e
    case Look(l) =>
      if !CacheHit(s, l) {
        UncachedIsRecent(h, s, bound, duration, l);
      }
    case Rebuild(queried, built, _) =>
      RebuiltIsRecent(h, s, age, duration, queried, built, built);
    case Invalidate(_, netid) =>
      var read: real :| s.lastUpdate - duration <= read <= s.lastUpdate && IndexRead(h, s, read);
      assert IndexRead(h, AfterInvalidate(s, netid), read);
  }

  lemma {:induction false} RunIsRecent(h: History, events: seq<Event>, bound: real, duration: real, now: real)
    requires Chronological(events, duration) && OldIndexWithin(h, events, bound)
    requires bound >= UPDATE_INTERVAL && duration >= 0.0
    requires 0.0 <= now && (events == [] || End(events[|events| - 1]) <= now)
    ensures Recent(h, Run(h, events), bound + 2.0 * duration, duration, now)
  {
    if events == [] {
      assert IndexRead(h, START, 0.0);
    } else {
      var n := |events| - 1;
      var before, e := events[..n], events[n];
      assert forall i :: 0 <= i < n ==> before[..i] == events[..i] && before[i] == events[i];
      RunIsRecent(h, before, bound, duration, Begin(e));
      StepIsRecent(h, Run(h, before), bound, duration, e);
      LaterIsRecent(h, Run(h, events), bound + 2.0 * duration, duration, End(e), now);
    }
  }

  /** When a lookup has its answer. */
  function AnsweredAt(s: State, l: Lookup): real {
    if CacheHit(s, l) then l.times.asked else l.times.answered
  }

  /** Every answer, in every run whose events take at most `duration`, was in the
      catalogue less than `bound`, the cache's 300 seconds and two durations earlier. */
  lemma AnswersAreRecent(h: History, events: seq<Event>, bound: real, duration: real, l: Lookup)
    requires bound >= UPDATE_INTERVAL && duration >= 0.0
    requires Chronological(events + [Look(l)], duration) && OldIndexWithin(h, events + [Look(l)], bound)
    requires Looked(h, Run(h, events), l).1.Found?
    ensures var s := Run(h, events);
            exists from :: AnsweredAt(s, l) - from < bound + CATALOG_TTL + 2.0 * duration &&
              WasListed(h, l.netid, Looked(h, s, l).1.provider, from, AnsweredAt(s, l))
  {
    var all := events + [Look(l)];
    assert all[..|events|] == events && all[|events|] == Look(l);
    assert forall i :: 0 <= i < |events| ==> all[..i] == events[..i] && all[i] == events[i];
    RunIsRecent(h, events, bound, duration, l.times.asked);
    AnswerIsRecent(h, Run(h, events), bound, duration, l);
  }

  lemma AnswerIsRecent(h: History, s: State, bound: real, duration: real, l: Lookup)
    requires Recent(h, s, bound + 2.0 * duration, duration, l.times.asked)
    requires bound >= UPDATE_INTERVAL && Timely(Look(l), duration) && Looked(h, s, l).1.Found?
    requires FromOldIndex(s, l) ==> l.times.checked - s.lastUpdate <= bound
    ensures exists from :: AnsweredAt(s, l) - from < bound + CATALOG_TTL + 2.0 * duration &&
              WasListed(h, l.netid, Looked(h, s, l).1.provider, from, AnsweredAt(s, l))
  {
    var p, age := Looked(h, s, l).1.provider, bound + 2.0 * duration;
    if CacheHit(s, l) {
      var at := s.cache[l.netid].at;
      assert CachedRecently(h, l.netid, s.cache[l.netid], age, l.times.asked);
      var t, k :| at - age <= t <= at && HasNetId(h(t), k, l.netid) && h(t)[k].provider == p;
      var from := at - age;
      assert AnsweredAt(s, l) == l.times.asked && l.times.asked - from < bound + CATALOG_TTL + 2.0 * duration;
      assert WasListed(h, l.netid, p, from, AnsweredAt(s, l));
    } else {
      var read: real :| s.lastUpdate - duration <= read <= s.lastUpdate && IndexRead(h, s, read);
      UncachedWasListed(h, s, bound, duration, l, read);
      var from := l.times.answered - age;
      assert AnsweredAt(s, l) == l.times.answered && l.times.answered - from < bound + CATALOG_TTL + 2.0 * duration;
      assert WasListed(h, l.netid, p, from, AnsweredAt(s, l));
    }
  }

  /** If no rebuild fails, that is less than 600 seconds and two durations. */
  lemma AnswersWithinTenMinutes(h: History, events: seq<Event>, duration: real, l: Lookup)
    requires duration >= 0.0 && Chronological(events + [Look(l)], duration)
    requires forall i :: 0 <= i <= |events| && (events + [Look(l)])[i].Look? ==> (events + [Look(l)])[i].lookup.rebuilds
    requires Looked(h, Run(h, events), l).1.Found?
    ensures var s := Run(h, events);
            exists from :: AnsweredAt(s, l) - from < 600.0 + 2.0 * duration &&
              WasListed(h, l.netid, Looked(h, s, l).1.provider, from, AnsweredAt(s, l))
  {
    AnswersAreRecent(h, events, UPDATE_INTERVAL, duration, l);
  }

  /** An answer past the cache was listed no longer before the check than 300 seconds and
      the time the last update took, whatever became of the catalogue, exactly when it
      is not that of an old index after a failed rebuild. */
  lemma UncachedIsFreshIff(h: History, s: State, l: Lookup, read: real)
    requires IndexRead(h, s, read) && read <= s.lastUpdate <= l.times.asked && Ordered(l.times) && !CacheHit(s, l)
    ensures !FromOldIndex(s, l) <==>
            forall other: History :: IndexRead(other, s, read) ==> ListedSince(other, s, l, OldestFresh(s, l, read))
  {
    if FromOldIndex(s, l) {
      var other: History := t => if t == read then h(t) else [];
      assert IndexRead(other, s, read) && Looked(other, s, l).1.Found?;
      assert !ListedSince(other, s, l, OldestFresh(s, l, read));
    } else {
      forall other: History | IndexRead(other, s, read)
        ensures ListedSince(other, s, l, OldestFresh(s, l, read))
      {
        FreshIsListed(other, s, l, read);
      }
    }
  }

  function OldestFresh(s: State, l: Lookup, read: real): real {
    l.times.checked - UPDATE_INTERVAL - (s.lastUpdate - read)
  }

  ghost predicate ListedSince(h: History, s: State, l: Lookup, from: real) {
    var a := Looked(h, s, l).1;
    a.Found? ==> WasListed(h, l.netid, a.provider, from, l.times.answered)
  }

  lemma FreshIsListed(h: History, s: State, l: Lookup, read: real)
    requires IndexRead(h, s, read) && read <= s.lastUpdate <= l.times.asked && Ordered(l.times)
    requires !CacheHit(s, l) && !FromOldIndex(s, l)
    ensures ListedSince(h, s, l, OldestFresh(s, l, read))
  {
    var a, from, to := Looked(h, s, l).1, OldestFresh(s, l, read), l.times.answered;
    if a.Found? {
      if !NeedsUpdate(s, l.times.checked) && l.netid in s.index {
        FoundIsListed(h, read, l.netid);
        Widen(h, l.netid, a.provider, read, from, to);
      } else {
        FoundIsListed(h, l.times.queried, l.netid);
        FoundIsListed(h, l.times.searched, l.netid);
        if WasListed(h, l.netid, a.provider, l.times.queried, l.times.queried) {
          Widen(h, l.netid, a.provider, l.times.queried, from, to);
        } else {
          Widen(h, l.netid, a.provider, l.times.searched, from, to);
        }
      }
    }
  }

  // ----- the bound is tight, and needs the rebuilds

  /** A lookup that takes no time. */
  function Instant(t: real): Times {
    Times(t, t, t, t, t, t, t)
  }

  /** Listed at the moment 1 and never again. */
  function ListedOnce(netid: string, p: Provider): History {
    t => if t == 1.0 then [Row(Some(netid), p)] else []
  }

  const BUILD := Rebuild(1.0, 1.0, true)

  lemma BuiltOnce(netid: string, p: Provider)
    requires netid != ""
    ensures Run(ListedOnce(netid, p), [BUILD]) == State(map[], map[netid := p], 1.0)
  {
    var h := ListedOnce(netid, p);
    assert [BUILD][..0] == [] && h(1.0)[..0] == [];
    assert IndexOf(h(1.0)) == map[netid := p];
    assert Run(h, [BUILD][..0]) == START;
  }

  /** The bound of `AnswersAreRecent` is tight, even with lookups that take no time:
      cached answers come as close to it as one likes. */
  lemma BoundIsTight(netid: string, p: Provider, bound: real, slack: real)
    requires netid != "" && bound >= UPDATE_INTERVAL && 0.0 < slack <= CATALOG_TTL
    ensures var h := ListedOnce(netid, p);
            var events := [BUILD, Look(Lookup(netid, Instant(1.0 + bound), false, true))];
            var now := 1.0 + bound + CATALOG_TTL - slack;
            var l := Lookup(netid, Instant(now), false, true);
            && Chronological(events + [Look(l)], 0.0) && OldIndexWithin(h, events + [Look(l)], bound)
            && CacheHit(Run(h, events), l)
            && Looked(h, Run(h, events), l).1 == Found(p)
            && forall from :: WasListed(h, netid, p, from, now) ==> now - from >= bound + CATALOG_TTL - slack
  {
    var h := ListedOnce(netid, p);
    var first := Lookup(netid, Instant(1.0 + bound), false, true);
    var l := Lookup(netid, Instant(1.0 + bound + CATALOG_TTL - slack), false, true);
    var events := [BUILD, Look(first)];
    var all := events + [Look(l)];
    BuiltOnce(netid, p);
    assert all[..0] == [] && all[..1] == [BUILD] && all[..2] == events && events[..1] == all[..1];
    var s := State(map[], map[netid := p], 1.0);
    assert Run(h, events) == After(h, s, Look(first)) == Put(s, netid, p, 1.0 + bound);
  }

  /** With failing rebuilds there is no bound at all: an entry that was listed once is
      answered any time later, and cached again, although the catalogue has been empty
      ever since. */
  lemma FailedRebuildsHaveNoBound(netid: string, p: Provider, age: real)
    requires netid != "" && age > UPDATE_INTERVAL
    ensures var h := ListedOnce(netid, p);
            var now := 1.0 + age;
            var (s, a) := Looked(h, Run(h, [BUILD]), Lookup(netid, Instant(now), false, true));
            && a == Found(p)
            && s.cache[netid] == Cached(p, now)
            && forall from :: WasListed(h, netid, p, from, now) ==> now - from >= age
  {
    BuiltOnce(netid, p);
  }

  // ----- the service

  class CacheManager {
    var catalogCache: map<string, Cached>

    constructor ()
      ensures catalogCache == map[]
    {
      catalogCache := map[];
    }

    method GetCatalog(netid: string, now: real) returns (data: Option<Provider>)
      ensures data == if netid in catalogCache && now - catalogCache[netid].at < CATALOG_TTL
                      then Some(catalogCache[netid].data) else None
    {
      if netid in catalogCache {
        var cached := catalogCache[netid];
        if now - cached.at < CATALOG_TTL {
          return Some(cached.data);
        }
      }
      return None;
    }

    method SetCatalog(netid: string, data: Provider, now: real)
      modifies this
      ensures catalogCache == old(catalogCache)[netid := Cached(data, now)]
    {
      catalogCache := catalogCache[netid := Cached(data, now)];
    }

    method InvalidateCatalog(netid: Option<string>)
      modifies this
      ensures catalogCache == if netid in {None, Some("")} then map[] else old(catalogCache) - {netid.value}
      ensures catalogCache == AfterInvalidate(State(old(catalogCache), map[], 0.0), netid).cache
    {
      if netid.Some? && netid.value != "" {
        catalogCache := catalogCache - {netid.value};
      } else {
        catalogCache := map[];
      }
    }
  }

  /** Reads the keys of one catalogue entry; of a repeated key the last counts. */
  method ReadEntry(address: string, keyValues: seq<KeyValue>) returns (row: Row)
    ensures row == RowOf(address, keyValues) && Reads(row, address, keyValues)
  {
    RowReads(address, keyValues);
    var netid: Option<string>, name: Option<string>, endpoint: Option<nat> := None, None, None;
    for i := 0 to |keyValues|
      invariant Row(netid, Provider(address, name, endpoint)) == RowOf(address, keyValues[..i])
    {
      assert keyValues[..i + 1][..i] == keyValues[..i];
      match keyValues[i]
      case NetIdKey(text) => netid := Some(text);
      case NameKey(text) => name := Some(text);
      case EndpointKey(number) => endpoint := Some(number);
      case OtherKey =>
    }
    assert keyValues[..|keyValues|] == keyValues;
    row := Row(netid, Provider(address, name, endpoint));
  }

  /** The rows read up to state `j` of account `i`. */
  function RowsUpTo(accounts: seq<Account>, app: nat, i: nat, j: nat): seq<Row>
    requires i < |accounts| && j <= |accounts[i].states|
  {
    Rows(accounts[..i], app) + RowsOf(accounts[i].address, accounts[i].states[..j], app)
  }

  lemma NextRows(accounts: seq<Account>, app: nat, i: nat, j: nat)
    requires i < |accounts| && j < |accounts[i].states|
    ensures RowsUpTo(accounts, app, i, j + 1) ==
            if accounts[i].states[j].app == app
            then RowsUpTo(accounts, app, i, j) + [RowOf(accounts[i].address, accounts[i].states[j].keyValues)]
            else RowsUpTo(accounts, app, i, j)
  {
    var states := accounts[i].states;
    assert states[..j + 1][..j] == states[..j];
  }

  lemma AccountRows(accounts: seq<Account>, app: nat, i: nat)
    requires i < |accounts|
    ensures RowsUpTo(accounts, app, i, 0) == Rows(accounts[..i], app)
    ensures RowsUpTo(accounts, app, i, |accounts[i].states|) == Rows(accounts[..i + 1], app)
  {
    assert accounts[..i + 1][..i] == accounts[..i];
    assert accounts[i].states[..|accounts[i].states|] == accounts[i].states;
  }

  lemma IndexOfMore(rows: seq<Row>, row: Row)
    ensures IndexOf(rows + [row]) == Indexed(IndexOf(rows), row)
  {
    assert (rows + [row])[..|rows|] == rows;
  }

  lemma SearchMore(rows: seq<Row>, row: Row, netid: string)
    ensures Search(rows + [row], netid) ==
            if Search(rows, netid) == None && row.netid == Some(netid) then Some(row.provider) else Search(rows, netid)
  {
    assert (rows + [row])[..|rows|] == rows;
  }

  /** An entry found early stays the one found. */
  lemma {:induction false} SearchInPrefix(rows: seq<Row>, more: seq<Row>, netid: string)
    requires Search(rows, netid).Some?
    ensures Search(rows + more, netid) == Search(rows, netid)
    decreases |more|
  {
    if more == [] {
      assert rows + more == rows;
    } else {
      var n := |more| - 1;
      SearchInPrefix(rows, more[..n], netid);
      assert rows + more == (rows + more[..n]) + [more[n]];
      SearchMore(rows + more[..n], more[n], netid);
    }
  }

  lemma {:induction false} RowsOfPrefix(address: string, states: seq<LocalState>, app: nat, n: nat)
    requires n <= |states|
    ensures RowsOf(address, states[..n], app) <= RowsOf(address, states, app)
    decreases |states| - n
  {
    if n == |states| {
      assert states[..n] == states;
    } else {
      RowsOfPrefix(address, states, app, n + 1);
      assert states[..n + 1][..n] == states[..n];
    }
  }

  lemma {:induction false} RowsPrefix(accounts: seq<Account>, app: nat, n: nat)
    requires n <= |accounts|
    ensures Rows(accounts[..n], app) <= Rows(accounts, app)
    decreases |accounts| - n
  {
    if n == |accounts| {
      assert accounts[..n] == accounts;
    } else {
      RowsPrefix(accounts, app, n + 1);
      assert accounts[..n + 1][..n] == accounts[..n];
    }
  }

  class CatalogIndex {
    var index: map<string, Provider>
    var lastUpdate: real

    constructor ()
      ensures index == map[] && lastUpdate == 0.0
    {
      index := map[];
      lastUpdate := 0.0;
    }

    /** `response` is None when the query of the indexer fails. */
    method BuildIndex(response: Option<seq<Account>>, app: nat, now: real) returns (built: bool)
      modifies this
      ensures built == response.Some?
      ensures built ==> index == IndexOf(Rows(response.value, app)) && lastUpdate == now
      ensures !built ==> index == old(index) && lastUpdate == old(lastUpdate)
    {
      if response == None {
        return false;
      }
      var accounts := response.value;
      var newIndex := map[];
      for i := 0 to |accounts|
        invariant newIndex == IndexOf(Rows(accounts[..i], app))
      {
        var address, states := accounts[i].address, accounts[i].states;
        AccountRows(accounts, app, i);
        for j := 0 to |states|
          invariant newIndex == IndexOf(RowsUpTo(accounts, app, i, j))
        {
          NextRows(accounts, app, i, j);
          if states[j].app == app {
            var row := ReadEntry(address, states[j].keyValues);
            IndexOfMore(RowsUpTo(accounts, app, i, j), row);
            if row.netid.Some? && row.netid.value != "" {
              newIndex := newIndex[row.netid.value := row.provider];
            }
          }
        }
      }
      assert accounts[..|accounts|] == accounts;
      index, lastUpdate := newIndex, now;
      return true;
    }
  }

  class Directory {
    const cache: CacheManager
    const catalogIndex: CatalogIndex

    ghost function Current(): State
      reads cache, catalogIndex
    {
      State(cache.catalogCache, catalogIndex.index, catalogIndex.lastUpdate)
    }

    constructor ()
      ensures Current() == START && fresh(cache) && fresh(catalogIndex)
    {
      cache := new CacheManager();
      catalogIndex := new CatalogIndex();
    }

    /** `rebuilt` and `searched` are what the indexer has when it is queried. */
    method FindProvider(rebuilt: seq<Account>, searched: seq<Account>, app: nat, l: Lookup) returns (answer: Answer)
      modifies cache, catalogIndex
      ensures (Current(), answer) == AfterLookup(old(Current()), Rows(rebuilt, app), Rows(searched, app), l)
      ensures answer.Found? ==>
                || (l.netid in old(cache.catalogCache) && answer.provider == old(cache.catalogCache)[l.netid].data)
                || (l.netid in old(catalogIndex.index) && answer.provider == old(catalogIndex.index)[l.netid])
                || IsEntry(rebuilt, app, l.netid, answer.provider)
                || IsEntry(searched, app, l.netid, answer.provider)
    {
      AnswersAreEntries(Current(), rebuilt, searched, app, l);
      var cached := cache.GetCatalog(l.netid, l.times.asked);
      if cached.Some? {
        return Found(cached.value);
      }
      if !(l.times.checked - catalogIndex.lastUpdate > UPDATE_INTERVAL) {
        if l.netid in catalogIndex.index {
          var provider := catalogIndex.index[l.netid];
          cache.SetCatalog(l.netid, provider, l.times.answered);
          return Found(provider);
        }
      }
      if l.times.rechecked - catalogIndex.lastUpdate > UPDATE_INTERVAL {
        var _ := catalogIndex.BuildIndex(if l.rebuilds then Some(rebuilt) else None, app, l.times.built);
        if l.netid in catalogIndex.index {
          var provider := catalogIndex.index[l.netid];
          cache.SetCatalog(l.netid, provider, l.times.answered);
          return Found(provider);
        }
      }
      answer := DirectSearch(searched, app, l);
    }

    method DirectSearch(accounts: seq<Account>, app: nat, l: Lookup) returns (answer: Answer)
      modifies cache
      ensures (Current(), answer) == AfterSearch(old(Current()), Rows(accounts, app), l)
    {
      if !l.searches {
        return Failed;
      }
      var found := FirstWith(accounts, app, l.netid);
      if found == None {
        return NotFound;
      }
      cache.SetCatalog(l.netid, found.value, l.times.answered);
      return Found(found.value);
    }

    /** The loops of the direct search, which stop at the first entry with the NetID. */
    method FirstWith(accounts: seq<Account>, app: nat, netid: string) returns (found: Option<Provider>)
      ensures found == Search(Rows(accounts, app), netid)
    {
      for i := 0 to |accounts|
        invariant Search(Rows(accounts[..i], app), netid) == None
      {
        var address, states := accounts[i].address, accounts[i].states;
        AccountRows(accounts, app, i);
        for j := 0 to |states|
          invariant Search(RowsUpTo(accounts, app, i, j), netid) == None
        {
          NextRows(accounts, app, i, j);
          if states[j].app == app {
            var row := ReadEntry(address, states[j].keyValues);
            SearchMore(RowsUpTo(accounts, app, i, j), row, netid);
            if row.netid == Some(netid) {
              FoundEarly(accounts, app, i, j, netid);
              return Some(row.provider);
            }
          }
        }
      }
      assert accounts[..|accounts|] == accounts;
      return None;
    }
  }

  lemma FoundEarly(accounts: seq<Account>, app: nat, i: nat, j: nat, netid: string)
    requires i < |accounts| && j < |accounts[i].states| && Search(RowsUpTo(accounts, app, i, j + 1), netid).Some?
    ensures Search(Rows(accounts, app), netid) == Search(RowsUpTo(accounts, app, i, j + 1), netid)
  {
    var rows := RowsUpTo(accounts, app, i, j + 1);
    RowsOfPrefix(accounts[i].address, accounts[i].states, app, j + 1);
    RowsPrefix(accounts, app, i + 1);
    AccountRows(accounts, app, i);
    assert accounts[i].states[..|accounts[i].states|] == accounts[i].states;
    assert rows <= Rows(accounts[..i + 1], app) <= Rows(accounts, app);
    SearchInPrefix(rows, Rows(accounts, app)[|rows|..], netid);
    assert rows + Rows(accounts, app)[|rows|..] == Rows(accounts, app);
  }
}
